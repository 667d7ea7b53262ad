/**
  Refresh tokens: families with rotation and reuse detection.

  A token row keeps what `issueTokens` stores, a hash of the secret handed to the client;
  `refresh` looks the presented value up in that column as it is. Both the hash and the
  expiry are parameters, so the family properties hold for any lookup.
 */
module Tokens {
  import opened Wrappers

  type UserId = nat
  type SessionId = nat
  type FamilyId = nat
  type Secret = nat
  type Time = nat

  /** The seven days a refresh token lives, in milliseconds. */
  const LIFETIME: nat := 604_800_000

  datatype Token = Token(
    stored: Secret, user: UserId, session: SessionId, family: FamilyId,
    expiresAt: Time, revokedAt: Option<Time>, scoped: bool)

  datatype Outcome = Issued | Done | Unauthorized | Forbidden

  /** Fresh ids are counted; the i-th secret ever handed out is `i`. */
  datatype TokenStore = TokenStore(tokens: seq<Token>, nextSession: SessionId, nextFamily: FamilyId, nextSecret: Secret)

  const NoTokens := TokenStore([], 0, 0, 0)

  datatype Event =
    | Login(user: UserId, kind: LoginKind, now: Time)
    | SelectShop(user: UserId, allowed: bool, now: Time)
    | SwitchShop(user: UserId, session: SessionId, allowed: bool, now: Time)
    | Refresh(presented: Secret, member: bool, now: Time)
    | Logout(user: UserId, session: SessionId, now: Time)
    | LogoutAll(user: UserId, now: Time)

  /** What `login` finds: a super admin, a cashier of one shop, anyone else, or nobody. */
  datatype LoginKind = SuperAdmin | SingleShopCashier | NeedsShop | BadCredentials

  // ------------------------------------------------- the operations

  function RevokeWhere(tokens: seq<Token>, which: Token -> bool, now: Time): (r: seq<Token>)
    ensures |r| == |tokens|
  {
    seq(|tokens|, i requires 0 <= i < |tokens| =>
      if which(tokens[i]) then tokens[i].(revokedAt := Some(now)) else tokens[i])
  }

  function LogoutTokens(s: TokenStore, user: UserId, session: SessionId, now: Time): TokenStore {
    s.(tokens := RevokeWhere(s.tokens, (t: Token) => t.user == user && t.session == session, now))
  }

  function LogoutAllTokens(s: TokenStore, user: UserId, now: Time): TokenStore {
    s.(tokens := RevokeWhere(s.tokens, (t: Token) => t.user == user, now))
  }

  function RevokeFamily(s: TokenStore, family: FamilyId, now: Time): TokenStore {
    s.(tokens := RevokeWhere(s.tokens, (t: Token) => t.family == family, now))
  }

  function RevokeToken(s: TokenStore, i: nat, now: Time): TokenStore
    requires i < |s.tokens|
  {
    s.(tokens := s.tokens[i := s.tokens[i].(revokedAt := Some(now))])
  }

  function IssueTokens(
      s: TokenStore, hash: Secret -> Secret, user: UserId, scoped: bool, family: Option<FamilyId>, now: Time): TokenStore {
    var row := Token(
      hash(s.nextSecret), user, s.nextSession,
      if family.Some? then family.value else s.nextFamily, now + LIFETIME, None, scoped);
    TokenStore(s.tokens + [row], s.nextSession + 1,
            if family.Some? then s.nextFamily else s.nextFamily + 1, s.nextSecret + 1)
  }

  /** The row whose `token` column equals the presented value. */
  function Find(tokens: seq<Token>, presented: Secret): Option<nat> {
    if tokens == [] then None
    else if Find(Front(tokens), presented).Some? then Find(Front(tokens), presented)
    else if Last(tokens).stored == presented then Some(|tokens| - 1)
    else None
  }

  /** The lookup finds the oldest row that stores the value. */
  lemma {:induction false} FindInRange(tokens: seq<Token>, presented: Secret)
    ensures Find(tokens, presented).Some? ==>
              Find(tokens, presented).value < |tokens| && tokens[Find(tokens, presented).value].stored == presented
    ensures Find(tokens, presented).Some? ==>
              forall i :: 0 <= i < Find(tokens, presented).value ==> tokens[i].stored != presented
    ensures Find(tokens, presented).None? ==> forall i :: 0 <= i < |tokens| ==> tokens[i].stored != presented
  {
    if tokens != [] {
      FindInRange(Front(tokens), presented);
    }
  }

  /** `refresh` once a row was or was not found; `member` says the user still belongs to the shop. */
  function RefreshFound(s: TokenStore, hash: Secret -> Secret, found: Option<nat>, member: bool, now: Time)
    : (Outcome, TokenStore)
    requires found.Some? ==> found.value < |s.tokens|
  {
    if found.None? || s.tokens[found.value].expiresAt < now then (Unauthorized, s)
    else
      var row := s.tokens[found.value];
      if row.revokedAt.Some? then (Forbidden, RevokeFamily(s, row.family, now))
      else
        var revoked := RevokeToken(s, found.value, now);
        if row.scoped && !member then (Unauthorized, revoked)
        else (Issued, IssueTokens(revoked, hash, row.user, row.scoped, Some(row.family), now))
  }

  function RefreshTokens(s: TokenStore, hash: Secret -> Secret, presented: Secret, member: bool, now: Time)
    : (Outcome, TokenStore)
  {
    FindInRange(s.tokens, presented);
    RefreshFound(s, hash, Find(s.tokens, presented), member, now)
  }

  function Next(s: TokenStore, hash: Secret -> Secret, e: Event): (Outcome, TokenStore) {
    match e
    case Login(user, kind, now) =>
      (match kind
       case BadCredentials => (Unauthorized, s)
       case NeedsShop => (Done, s)
       case SuperAdmin => (Issued, IssueTokens(s, hash, user, false, None, now))
       case SingleShopCashier => (Issued, IssueTokens(LogoutAllTokens(s, user, now), hash, user, true, None, now)))
    case SelectShop(user, allowed, now) =>
      if !allowed then (Forbidden, s)
      else (Issued, IssueTokens(LogoutAllTokens(s, user, now), hash, user, true, None, now))
    case SwitchShop(user, session, allowed, now) =>
      if !allowed then (Forbidden, s)
      else (Issued, IssueTokens(LogoutTokens(s, user, session, now), hash, user, true, None, now))
    case Refresh(presented, member, now) => RefreshTokens(s, hash, presented, member, now)
    case Logout(user, session, now) => (Done, LogoutTokens(s, user, session, now))
    case LogoutAll(user, now) => (Done, LogoutAllTokens(s, user, now))
  }

  function Play(hash: Secret -> Secret, events: seq<Event>): TokenStore {
    if events == [] then NoTokens else Next(Play(hash, Front(events)), hash, Last(events)).1
  }

  // ------------------------------------------------- the invariant

  predicate Live(t: Token, family: FamilyId) {
    t.family == family && t.revokedAt.None?
  }

  /** Every family has at most one token that is not revoked. */
  ghost predicate OneLive(tokens: seq<Token>) {
    forall i, j :: 0 <= i < j < |tokens| && tokens[i].revokedAt.None? && tokens[j].revokedAt.None?
      ==> tokens[i].family != tokens[j].family
  }

  ghost predicate FamiliesKnown(s: TokenStore) {
    forall i :: 0 <= i < |s.tokens| ==> s.tokens[i].family < s.nextFamily
  }

  ghost predicate Sound(s: TokenStore) {
    OneLive(s.tokens) && FamiliesKnown(s)
  }

  ghost predicate NoneLive(s: TokenStore, family: FamilyId) {
    forall i :: 0 <= i < |s.tokens| ==> !Live(s.tokens[i], family)
  }

  /** Rows are never dropped, keep their family, and never become valid again. */
  ghost predicate OnlyRevokes(before: seq<Token>, after: seq<Token>) {
    && |before| <= |after|
    && (forall i :: 0 <= i < |before| ==>
          && after[i].family == before[i].family
          && (before[i].revokedAt.Some? ==> after[i].revokedAt.Some?))
  }

  /** A step only revokes rows, and may then add one to a family that has none left. */
  ghost predicate StepKeeps(s: TokenStore, next: TokenStore) {
    && OnlyRevokes(s.tokens, next.tokens)
    && s.nextFamily <= next.nextFamily
    && (|next.tokens| == |s.tokens| ||
        (&& |next.tokens| == |s.tokens| + 1
         && next.tokens[|s.tokens|].family < next.nextFamily
         && (forall i :: 0 <= i < |s.tokens| ==> !Live(next.tokens[i], next.tokens[|s.tokens|].family))
         && (next.tokens[|s.tokens|].family < s.nextFamily ==> !NoneLive(s, next.tokens[|s.tokens|].family))))
  }

  lemma RefreshKeeps(s: TokenStore, hash: Secret -> Secret, found: Option<nat>, member: bool, now: Time)
    requires Sound(s) && (found.Some? ==> found.value < |s.tokens|)
    ensures StepKeeps(s, RefreshFound(s, hash, found, member, now).1)
  {
    if found.Some? {
      assert Live(s.tokens[found.value], s.tokens[found.value].family) <==> s.tokens[found.value].revokedAt.None?;
    }
  }

  lemma NextKeeps(s: TokenStore, hash: Secret -> Secret, e: Event)
    requires Sound(s)
    ensures StepKeeps(s, Next(s, hash, e).1)
  {
    if e.Refresh? {
      FindInRange(s.tokens, e.presented);
      RefreshKeeps(s, hash, Find(s.tokens, e.presented), e.member, e.now);
    }
  }

  lemma KeepsSound(s: TokenStore, next: TokenStore)
    requires Sound(s) && StepKeeps(s, next)
    ensures Sound(next)
    ensures forall family: FamilyId :: family < s.nextFamily && NoneLive(s, family) ==> NoneLive(next, family)
  {
    forall i, j | 0 <= i < j < |next.tokens| && next.tokens[i].revokedAt.None? && next.tokens[j].revokedAt.None?
      ensures next.tokens[i].family != next.tokens[j].family
    {
      if j == |s.tokens| {
        assert !Live(next.tokens[i], next.tokens[j].family);
      }
    }
  }

  /** In every reachable state every family has at most one valid token. */
  lemma {:induction false} OneLivePerFamily(hash: Secret -> Secret, events: seq<Event>)
    ensures Sound(Play(hash, events))
  {
    if events != [] {
      OneLivePerFamily(hash, Front(events));
      NextKeeps(Play(hash, Front(events)), hash, Last(events));
      KeepsSound(Play(hash, Front(events)), Play(hash, events));
    }
  }

  /** Revocation is permanent, and a family without a valid token never gets one again. */
  lemma {:induction false} RevocationIsPermanent(hash: Secret -> Secret, events: seq<Event>, k: nat, family: FamilyId)
    requires k <= |events|
    ensures var before, after := Play(hash, events[..k]), Play(hash, events);
            && OnlyRevokes(before.tokens, after.tokens)
            && before.nextFamily <= after.nextFamily
            && (family < before.nextFamily && NoneLive(before, family) ==> NoneLive(after, family))
  {
    if k == |events| {
      assert events[..k] == events;
    } else {
      assert Front(events)[..k] == events[..k];
      RevocationIsPermanent(hash, Front(events), k, family);
      OneLivePerFamily(hash, Front(events));
      NextKeeps(Play(hash, Front(events)), hash, Last(events));
      KeepsSound(Play(hash, Front(events)), Play(hash, events));
    }
  }

  /**
    Reuse detection, for any lookup: presenting a revoked, unexpired token is refused and
    leaves its family without a valid token; a valid one is replaced by exactly one other.
    Rows of other families are left alone, and rows change in their revocation only.
   */
  lemma ReuseRevokesFamily(s: TokenStore, hash: Secret -> Secret, i: nat, member: bool, now: Time)
    requires Sound(s) && i < |s.tokens| && s.tokens[i].expiresAt >= now
    ensures var (outcome, next) := RefreshFound(s, hash, Some(i), member, now);
            && (s.tokens[i].revokedAt.Some? ==> outcome.Forbidden? && NoneLive(next, s.tokens[i].family))
            && (outcome.Issued? <==> s.tokens[i].revokedAt.None? && (s.tokens[i].scoped ==> member))
            && (outcome.Issued? ==>
                  && Live(Last(next.tokens), s.tokens[i].family)
                  && Last(next.tokens).user == s.tokens[i].user
                  && Last(next.tokens).scoped == s.tokens[i].scoped
                  && Last(next.tokens).expiresAt == now + 604_800_000
                  && next.tokens[i].revokedAt.Some?)
            && (outcome.Unauthorized? ==> NoneLive(next, s.tokens[i].family))
    ensures var (outcome, next) := RefreshFound(s, hash, Some(i), member, now);
            && |s.tokens| <= |next.tokens| <= |s.tokens| + 1
            && (outcome.Issued? <==> |next.tokens| > |s.tokens|)
            && (forall j :: 0 <= j < |s.tokens| && j != i && (outcome.Forbidden? ==> s.tokens[j].family != s.tokens[i].family) ==>
                  next.tokens[j] == s.tokens[j])
            && (forall j :: 0 <= j < |s.tokens| ==> next.tokens[j] == s.tokens[j].(revokedAt := next.tokens[j].revokedAt))
  {
  }

  // ------------------------------------------------- sessions

  predicate OfSession(t: Token, user: UserId, session: SessionId) {
    t.user == user && t.session == session
  }

  /** Logging out revokes every row of that session of that user, and touches no other row. */
  lemma LogoutRevokesSession(s: TokenStore, hash: Secret -> Secret, user: UserId, session: SessionId, now: Time)
    ensures var (outcome, next) := Next(s, hash, Event.Logout(user, session, now));
            && outcome.Done? && |next.tokens| == |s.tokens|
            && next == s.(tokens := next.tokens)
            && (forall i :: 0 <= i < |s.tokens| ==>
                  if s.tokens[i].user == user && s.tokens[i].session == session
                  then next.tokens[i] == s.tokens[i].(revokedAt := Some(now)) else next.tokens[i] == s.tokens[i])
  {
  }

  /** Logging out everywhere does so for every row of the user. */
  lemma LogoutAllRevokesAll(s: TokenStore, hash: Secret -> Secret, user: UserId, now: Time)
    ensures var (outcome, next) := Next(s, hash, Event.LogoutAll(user, now));
            && outcome.Done? && |next.tokens| == |s.tokens|
            && next == s.(tokens := next.tokens)
            && (forall i :: 0 <= i < |s.tokens| ==>
                  if s.tokens[i].user == user
                  then next.tokens[i] == s.tokens[i].(revokedAt := Some(now)) else next.tokens[i] == s.tokens[i])
  {
  }

  /** One row is added: valid for seven days, of a session and a family that no row had. */
  ghost predicate AddsRow(s: TokenStore, next: TokenStore, user: UserId, scoped: bool, now: Time) {
    && |next.tokens| == |s.tokens| + 1
    && var row := Last(next.tokens);
       && row.revokedAt.None? && row.user == user && row.scoped == scoped && row.expiresAt == now + 604_800_000
       && row.session == s.nextSession && row.family == s.nextFamily
  }

  /**
    What the four ways in leave valid. A super admin keeps other sessions; a single-shop
    cashier or a chosen shop leaves the user exactly the new row; switching ends the session
    it comes from and leaves the others.
   */
  lemma EntryLeavesValid(s: TokenStore, hash: Secret -> Secret, e: Event)
    requires e.Login? || e.SelectShop? || e.SwitchShop?
    ensures var (outcome, next) := Next(s, hash, e);
            match e
            case Login(user, kind, now) =>
              && (kind.BadCredentials? ==> outcome.Unauthorized? && next == s)
              && (kind.NeedsShop? ==> outcome.Done? && next == s)
              && (kind.SuperAdmin? ==> outcome.Issued? && AddsRow(s, next, user, false, now) && Front(next.tokens) == s.tokens)
              && (kind.SingleShopCashier? ==>
                    outcome.Issued? && AddsRow(s, next, user, true, now) && OnlyLast(s, next, user))
            case SelectShop(user, allowed, now) =>
              && (!allowed ==> outcome.Forbidden? && next == s)
              && (allowed ==> outcome.Issued? && AddsRow(s, next, user, true, now) && OnlyLast(s, next, user))
            case SwitchShop(user, session, allowed, now) =>
              && (!allowed ==> outcome.Forbidden? && next == s)
              && (allowed ==>
                    && outcome.Issued? && AddsRow(s, next, user, true, now)
                    && (forall i :: 0 <= i < |s.tokens| ==>
                          if OfSession(s.tokens[i], user, session) then next.tokens[i].revokedAt.Some?
                          else next.tokens[i] == s.tokens[i]))
            case _ => true
  {
  }

  /** Of the rows that were there, those of the user are revoked and the others untouched. */
  ghost predicate OnlyLast(s: TokenStore, next: TokenStore, user: UserId) {
    && |s.tokens| < |next.tokens|
    && (forall i :: 0 <= i < |s.tokens| ==>
          if s.tokens[i].user == user then next.tokens[i].revokedAt.Some? else next.tokens[i] == s.tokens[i])
  }

  /** Rows are numbered by session: every token is a session of its own. */
  ghost predicate SessionsNumbered(s: TokenStore) {
    |s.tokens| == s.nextSession && forall i :: 0 <= i < |s.tokens| ==> s.tokens[i].session == i
  }

  lemma SessionsStep(s: TokenStore, hash: Secret -> Secret, e: Event)
    requires SessionsNumbered(s)
    ensures SessionsNumbered(Next(s, hash, e).1)
  {
    if e.Refresh? {
      FindInRange(s.tokens, e.presented);
    }
  }

  lemma {:induction false} SessionsRun(hash: Secret -> Secret, events: seq<Event>)
    ensures SessionsNumbered(Play(hash, events))
  {
    if events != [] {
      SessionsRun(hash, Front(events));
      SessionsStep(Play(hash, Front(events)), hash, Last(events));
    }
  }

  /**
    Out is out: after a logout, an accepted switch away, or a logout everywhere in a run, the
    rows of that session are never valid again, whatever follows, and presenting one in time
    is taken for reuse and leaves its family without a valid token.
   */
  lemma {:induction false} LoggedOutStaysOut(
      hash: Secret -> Secret, events: seq<Event>, k: nat, i: nat, member: bool, now: Time)
    requires k < |events| && i < |Play(hash, events[..k]).tokens|
    requires var t := Play(hash, events[..k]).tokens[i];
             || (events[k].Logout? && OfSession(t, events[k].user, events[k].session))
             || (events[k].SwitchShop? && events[k].allowed && OfSession(t, events[k].user, events[k].session))
             || (events[k].LogoutAll? && t.user == events[k].user)
    ensures var s := Play(hash, events);
            && i < |s.tokens| && s.tokens[i].revokedAt.Some?
            && (s.tokens[i].expiresAt >= now ==>
                  var (outcome, next) := RefreshFound(s, hash, Some(i), member, now);
                  outcome.Forbidden? && NoneLive(next, s.tokens[i].family))
  {
    assert Front(events[..k + 1]) == events[..k] && Last(events[..k + 1]) == events[k];
    RevocationIsPermanent(hash, events, k + 1, 0);
    OneLivePerFamily(hash, events);
    if Play(hash, events).tokens[i].expiresAt >= now {
      ReuseRevokesFamily(Play(hash, events), hash, i, member, now);
    }
  }

  /** User 7 logs in and out of session 0: the row is revoked, and a second session is not. */
  lemma LogoutOfOneSession()
    ensures var events := [Event.Login(7, SuperAdmin, 0), Event.Login(7, SuperAdmin, 1), Event.Logout(7, 0, 2)];
            var s := Play(Plain, events);
            && |s.tokens| == 2 && s.tokens[0].revokedAt == Some(2) && Live(s.tokens[1], 1)
  {
    var a, b, c := Event.Login(7, SuperAdmin, 0), Event.Login(7, SuperAdmin, 1), Event.Logout(7, 0, 2);
    assert Front([a]) == [] && Front([a, b]) == [a] && Front([a, b, c]) == [a, b];
    assert Play(Plain, []) == NoTokens;
    assert Play(Plain, [a]) == IssueTokens(NoTokens, Plain, 7, false, None, 0);
    assert Play(Plain, [a, b]) == IssueTokens(Play(Plain, [a]), Plain, 7, false, None, 1);
  }

  function Plain(secret: Secret): Secret {
    secret
  }

  // ------------------------------------------------- the lookup of the code  // ------------------------------------------------- the lookup of the code

  /** The i-th row holds the hash of the i-th secret handed out. */
  ghost predicate StoresHashes(s: TokenStore, hash: Secret -> Secret) {
    && |s.tokens| == s.nextSecret
    && (forall i: Secret :: i < |s.tokens| ==> s.tokens[i].stored == hash(i))
  }

  /** A step keeps the `token` column of every row. */
  ghost predicate SameStored(before: seq<Token>, after: seq<Token>) {
    |before| == |after| && forall i :: 0 <= i < |before| ==> after[i].stored == before[i].stored
  }

  lemma IssueStoresHash(s: TokenStore, t: TokenStore, hash: Secret -> Secret, user: UserId, scoped: bool,
                        family: Option<FamilyId>, now: Time)
    requires StoresHashes(s, hash) && SameStored(s.tokens, t.tokens) && t.nextSecret == s.nextSecret
    ensures StoresHashes(t, hash) && StoresHashes(IssueTokens(t, hash, user, scoped, family, now), hash)
  {
  }

  lemma StoresHashesStep(s: TokenStore, hash: Secret -> Secret, e: Event)
    requires StoresHashes(s, hash)
    ensures StoresHashes(Next(s, hash, e).1, hash)
  {
    match e {
      case Login(user, kind, now) =>
        IssueStoresHash(s, s, hash, user, false, None, now);
        IssueStoresHash(s, LogoutAllTokens(s, user, now), hash, user, true, None, now);
      case SelectShop(user, _, now) =>
        IssueStoresHash(s, LogoutAllTokens(s, user, now), hash, user, true, None, now);
      case SwitchShop(user, session, _, now) =>
        IssueStoresHash(s, LogoutTokens(s, user, session, now), hash, user, true, None, now);
      case Refresh(presented, member, now) =>
        FindInRange(s.tokens, presented);
        StoresHashesRefresh(s, hash, Find(s.tokens, presented), member, now);
      case _ =>
    }
  }

  lemma StoresHashesRefresh(s: TokenStore, hash: Secret -> Secret, found: Option<nat>, member: bool, now: Time)
    requires StoresHashes(s, hash) && (found.Some? ==> found.value < |s.tokens|)
    ensures StoresHashes(RefreshFound(s, hash, found, member, now).1, hash)
  {
    if found.Some? {
      var row := s.tokens[found.value];
      IssueStoresHash(s, RevokeToken(s, found.value, now), hash, row.user, row.scoped, Some(row.family), now);
    }
  }

  lemma {:induction false} StoredAreHashes(hash: Secret -> Secret, events: seq<Event>)
    ensures StoresHashes(Play(hash, events), hash)
  {
    if events != [] {
      StoredAreHashes(hash, Front(events));
      StoresHashesStep(Play(hash, Front(events)), hash, Last(events));
    }
  }

  /** The secret is the first ever handed out with this hash. */
  ghost predicate FirstWithHash(hash: Secret -> Secret, secret: Secret, value: Secret) {
    hash(secret) == value && forall earlier: Secret :: earlier < secret ==> hash(earlier) != value
  }

  lemma FoundIsFirst(hash: Secret -> Secret, events: seq<Event>, presented: Secret)
    ensures var s := Play(hash, events);
            var found := Find(s.tokens, presented);
            && |s.tokens| == s.nextSecret
            && (found.Some? ==> found.value < s.nextSecret && FirstWithHash(hash, found.value, presented))
            && (found.None? ==> forall secret: Secret :: secret < s.nextSecret ==> hash(secret) != presented)
  {
    var s := Play(hash, events);
    StoredAreHashes(hash, events);
    FindInRange(s.tokens, presented);
    forall secret: Secret | secret < s.nextSecret && Find(s.tokens, presented).None?
      ensures hash(secret) != presented
    {
      assert s.tokens[secret].stored == hash(secret);
    }
    if Find(s.tokens, presented).Some? {
      forall earlier: Secret | earlier < Find(s.tokens, presented).value ensures hash(earlier) != presented {
        assert s.tokens[earlier].stored == hash(earlier);
      }
    }
  }

  /**
    The column holds hashes but is searched for the value as presented. After any run a value
    is found exactly if it is itself the hash of a secret handed out before, and it is refused
    with nothing changed exactly if it is no such hash or the row it hits has expired.
   */
  lemma RefreshFindsOnlyHashes(
      hash: Secret -> Secret, events: seq<Event>, presented: Secret, member: bool, now: Time)
    ensures var s := Play(hash, events);
            && (Find(s.tokens, presented).Some? <==>
                exists secret: Secret :: secret < s.nextSecret && hash(secret) == presented)
            && (RefreshTokens(s, hash, presented, member, now) == (Unauthorized, s) <==>
                forall secret: Secret :: secret < s.nextSecret && FirstWithHash(hash, secret, presented) ==>
                  secret < |s.tokens| && s.tokens[secret].expiresAt < now)
  {
    var s := Play(hash, events);
    FoundIsFirst(hash, events, presented);
    var found := Find(s.tokens, presented);
    if found.Some? {
      forall secret: Secret | FirstWithHash(hash, secret, presented) ensures secret == found.value {
        assert FirstWithHash(hash, found.value, presented);
      }
      RefreshChanges(s, hash, found.value, member, now);
    } else {
      forall secret: Secret | secret < s.nextSecret ensures !FirstWithHash(hash, secret, presented) {
        assert hash(secret) != presented;
      }
    }
  }

  /** A row that is found and has not expired is never left as it was. */
  lemma RefreshChanges(s: TokenStore, hash: Secret -> Secret, i: nat, member: bool, now: Time)
    requires i < |s.tokens|
    ensures RefreshFound(s, hash, Some(i), member, now) == (Unauthorized, s) <==> s.tokens[i].expiresAt < now
  {
    var next := RefreshFound(s, hash, Some(i), member, now).1;
    if s.tokens[i].expiresAt >= now && s.tokens[i].revokedAt.None? {
      assert next.tokens[i].revokedAt.Some?;
    }
  }

  /**
    The lookup takes every secret handed out to its own row exactly when hashing changes none
    of them: only then do the clients' secrets do what the rotation expects.
   */
  lemma LookupIsRightIff(hash: Secret -> Secret, events: seq<Event>)
    ensures var s := Play(hash, events);
            (forall secret: Secret :: secret < s.nextSecret ==> Find(s.tokens, secret) == Some(secret)) <==>
            (forall secret: Secret :: secret < s.nextSecret ==> hash(secret) == secret)
  {
    var s := Play(hash, events);
    forall secret: Secret ensures Find(s.tokens, secret) == Some(secret) ==> hash(secret) == secret {
      FoundIsFirst(hash, events, secret);
    }
    if forall secret: Secret :: secret < s.nextSecret ==> hash(secret) == secret {
      forall secret: Secret | secret < s.nextSecret ensures Find(s.tokens, secret) == Some(secret) {
        FoundIsFirst(hash, events, secret);
        assert hash(secret) == secret;
        assert hash(Find(s.tokens, secret).value) == Find(s.tokens, secret).value;
      }
    }
  }

  /**
    A secret whose row was rotated away is presented again. If it is not itself some hash, the
    reuse goes unnoticed: it is refused, nothing is revoked, and a family with a valid token
    keeps it.
   */
  lemma ReuseUnnoticed(hash: Secret -> Secret, events: seq<Event>, reused: Secret, member: bool, now: Time)
    requires forall secret: Secret :: secret < Play(hash, events).nextSecret ==> hash(secret) != reused
    ensures RefreshTokens(Play(hash, events), hash, reused, member, now) == (Unauthorized, Play(hash, events))
  {
    RefreshFindsOnlyHashes(hash, events, reused, member, now);
  }

  function AddThousand(secret: Secret): Secret {
    secret + 1000
  }

  /** After a login the secret just handed out, presented in time by its owner, is refused. */
  lemma GenuineSecretRefused(user: UserId, member: bool, now: Time)
    ensures var s := Play(AddThousand, [Event.Login(user, SuperAdmin, 0)]);
            && s.nextSecret == 1 && |s.tokens| == 1 && Live(s.tokens[0], 0)
            && RefreshTokens(s, AddThousand, 0, member, now) == (Unauthorized, s)
  {
    var events := [Event.Login(user, SuperAdmin, 0)];
    assert Front(events) == [];
    assert Play(AddThousand, []) == NoTokens;
    ReuseUnnoticed(AddThousand, events, 0, member, now);
  }

  /**
    The row of secret 0 is rotated away and secret 0 comes back. Where the column holds the
    secrets themselves, the family dies; where it holds hashes, the family stays valid.
   */
  lemma RotatedSecretStaysUnnoticed(user: UserId, member: bool)
    ensures var hashed := Play(AddThousand, [Event.Login(user, SuperAdmin, 0), Event.Refresh(1000, true, 0)]);
            && |hashed.tokens| == 2 && hashed.tokens[0].revokedAt.Some? && Live(hashed.tokens[1], 0)
            && RefreshTokens(hashed, AddThousand, 0, member, 0) == (Unauthorized, hashed)
    ensures var plain := Play(Plain, [Event.Login(user, SuperAdmin, 0), Event.Refresh(0, true, 0)]);
            && |plain.tokens| == 2 && plain.tokens[0].revokedAt.Some? && Live(plain.tokens[1], 0)
            && RefreshTokens(plain, Plain, 0, member, 0).0.Forbidden?
            && NoneLive(RefreshTokens(plain, Plain, 0, member, 0).1, 0)
  {
    RotatedOnce(AddThousand, user);
    RotatedOnce(Plain, user);
    var hashed := [Event.Login(user, SuperAdmin, 0), Event.Refresh(1000, true, 0)];
    var plain := [Event.Login(user, SuperAdmin, 0), Event.Refresh(0, true, 0)];
    ReuseUnnoticed(AddThousand, hashed, 0, member, 0);
    OneLivePerFamily(Plain, plain);
    FoundIsFirst(Plain, plain, 0);
    assert Find(Play(Plain, plain).tokens, 0) == Some(0);
    ReuseRevokesFamily(Play(Plain, plain), Plain, 0, member, 0);
  }

  /** One login and one refresh that presents what the column holds. */
  lemma RotatedOnce(hash: Secret -> Secret, user: UserId)
    ensures var s := Play(hash, [Event.Login(user, SuperAdmin, 0), Event.Refresh(hash(0), true, 0)]);
            && s.nextSecret == 2 && |s.tokens| == 2 && s.tokens[0].family == 0 && s.tokens[0].expiresAt == LIFETIME == 7 * 24 * 60 * 60 * 1000
            && s.tokens[0].revokedAt.Some? && Live(s.tokens[1], 0)
  {
    var login := [Event.Login(user, SuperAdmin, 0)];
    var events := [Event.Login(user, SuperAdmin, 0), Event.Refresh(hash(0), true, 0)];
    assert Front(login) == [] && Front(events) == login;
    assert Play(hash, []) == NoTokens;
    var s := Play(hash, login);
    assert s == IssueTokens(NoTokens, hash, user, false, None, 0);
    FindInRange(s.tokens, hash(0));
    assert s.tokens[0].stored == hash(0);
  }
}
