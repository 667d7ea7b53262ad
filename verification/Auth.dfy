/**
  The token effects of the auth service, as methods that update and append token rows, each
  proved against the event of the same name in module Tokens.
 */
module Auth {
  import opened Wrappers
  import opened Tokens

  /** The row stores the presented value and has not expired. */
  predicate RowOf(t: Token, presented: Secret, now: Time) {
    t.stored == presented && t.expiresAt >= now
  }

  class AuthService {
    const hash: Secret -> Secret
    var tokens: seq<Token>
    var nextSession: SessionId
    var nextFamily: FamilyId
    var nextSecret: Secret

    constructor (hash: Secret -> Secret)
      ensures this.hash == hash && State() == NoTokens
    {
      this.hash := hash;
      tokens, nextSession, nextFamily, nextSecret := [], 0, 0, 0;
    }

    function State(): TokenStore
      reads this
    {
      TokenStore(tokens, nextSession, nextFamily, nextSecret)
    }

    method RevokeFamily(family: FamilyId, now: Time)
      modifies this
      ensures State() == Tokens.RevokeFamily(old(State()), family, now)
    {
      var rows := tokens;
      tokens := seq(|rows|, i requires 0 <= i < |rows| =>
        if rows[i].family == family then rows[i].(revokedAt := Some(now)) else rows[i]);
    }

    method Logout(user: UserId, session: SessionId, now: Time)
      modifies this
      ensures |tokens| == |old(tokens)|
      ensures forall i :: 0 <= i < |tokens| ==>
                if OfSession(old(tokens)[i], user, session)
                then tokens[i].revokedAt == Some(now) else tokens[i] == old(tokens)[i]
      ensures State() == LogoutTokens(old(State()), user, session, now)
    {
      var rows := tokens;
      tokens := seq(|rows|, i requires 0 <= i < |rows| =>
        if rows[i].user == user && rows[i].session == session then rows[i].(revokedAt := Some(now)) else rows[i]);
    }

    method LogoutAll(user: UserId, now: Time)
      modifies this
      ensures State() == LogoutAllTokens(old(State()), user, now)
    {
      var rows := tokens;
      tokens := seq(|rows|, i requires 0 <= i < |rows| =>
        if rows[i].user == user then rows[i].(revokedAt := Some(now)) else rows[i]);
    }

    method IssueTokens(user: UserId, scoped: bool, familyId: Option<FamilyId>, now: Time)
      modifies this
      ensures State() == Tokens.IssueTokens(old(State()), hash, user, scoped, familyId, now)
    {
      var session := nextSession;
      nextSession := nextSession + 1;
      var family := nextFamily;
      if familyId.Some? {
        family := familyId.value;
      } else {
        nextFamily := nextFamily + 1;
      }
      var secret := nextSecret;
      nextSecret := nextSecret + 1;
      tokens := tokens + [Token(hash(secret), user, session, family, now + LIFETIME, None, scoped)];
    }

    method Login(user: UserId, kind: LoginKind, now: Time) returns (outcome: Outcome)
      modifies this
      ensures (outcome, State()) == Next(old(State()), hash, Event.Login(user, kind, now))
    {
      match kind
      case BadCredentials =>
        return Unauthorized;
      case NeedsShop =>
        return Done;
      case SuperAdmin =>
        IssueTokens(user, false, None, now);
        return Issued;
      case SingleShopCashier =>
        LogoutAll(user, now);
        IssueTokens(user, true, None, now);
        return Issued;
    }

    method SelectShop(user: UserId, allowed: bool, now: Time) returns (outcome: Outcome)
      modifies this
      ensures outcome == if allowed then Issued else Forbidden
      ensures allowed ==>
                AddsRow(old(State()), State(), user, true, now) && OnlyLast(old(State()), State(), user)
      ensures (outcome, State()) == Next(old(State()), hash, Event.SelectShop(user, allowed, now))
    {
      if !allowed {
        return Forbidden;
      }
      LogoutAll(user, now);
      IssueTokens(user, true, None, now);
      outcome := Issued;
    }

    method SwitchShop(user: UserId, session: SessionId, allowed: bool, now: Time) returns (outcome: Outcome)
      modifies this
      ensures outcome == if allowed then Issued else Forbidden
      ensures allowed ==>
                && AddsRow(old(State()), State(), user, true, now)
                && (forall i :: 0 <= i < |old(tokens)| ==>
                      if OfSession(old(tokens)[i], user, session)
                      then tokens[i].revokedAt.Some? else tokens[i] == old(tokens)[i])
      ensures (outcome, State()) == Next(old(State()), hash, Event.SwitchShop(user, session, allowed, now))
    {
      if !allowed {
        return Forbidden;
      }
      Logout(user, session, now);
      IssueTokens(user, true, None, now);
      outcome := Issued;
    }

    method Refresh(presented: Secret, member: bool, now: Time) returns (outcome: Outcome)
      modifies this
      ensures Sound(old(State())) ==> Sound(State()) && OnlyRevokes(old(tokens), tokens)
      ensures outcome.Forbidden? ==>
                exists i :: 0 <= i < |old(tokens)| && RowOf(old(tokens)[i], presented, now)
                  && old(tokens)[i].revokedAt.Some? && NoneLive(State(), old(tokens)[i].family)
                  && |tokens| == |old(tokens)|
                  && (forall j :: 0 <= j < |tokens| && tokens[j].family != old(tokens)[i].family ==>
                        tokens[j] == old(tokens)[j])
      ensures outcome.Issued? ==>
                exists i :: 0 <= i < |old(tokens)| && RowOf(old(tokens)[i], presented, now)
                  && old(tokens)[i].revokedAt.None?
                  && i < |tokens| && tokens == old(tokens)[i := tokens[i]] + [Last(tokens)]
                  && tokens[i].revokedAt.Some? && Live(Last(tokens), old(tokens)[i].family)
                  && Last(tokens).user == old(tokens)[i].user
      ensures outcome.Unauthorized? && old(State()) != State() ==>
                exists i :: 0 <= i < |old(tokens)| && RowOf(old(tokens)[i], presented, now)
                  && old(tokens)[i].scoped && !member
                  && i < |tokens| && tokens == old(tokens)[i := tokens[i]] && tokens[i].revokedAt.Some?
      ensures (outcome, State()) == Next(old(State()), hash, Event.Refresh(presented, member, now))
    {
      var found := Find(tokens, presented);
      FindInRange(tokens, presented);
      if Sound(State()) {
        NextKeeps(State(), hash, Event.Refresh(presented, member, now));
        KeepsSound(State(), Next(State(), hash, Event.Refresh(presented, member, now)).1);
      }
      if found.None? || tokens[found.value].expiresAt < now {
        return Unauthorized;
      }
      var stored := tokens[found.value];
      if stored.revokedAt.Some? {
        RevokeFamily(stored.family, now);
        return Forbidden;
      }
      tokens := tokens[found.value := stored.(revokedAt := Some(now))];
      if stored.scoped && !member {
        return Unauthorized;
      }
      IssueTokens(stored.user, stored.scoped, Some(stored.family), now);
      outcome := Issued;
    }
  }
}
