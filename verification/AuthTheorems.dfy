/** What holds in every run of the session protocol. */
module AuthTheorems {
  import opened Clock
  import opened Redis
  import opened Wrappers
  import opened Jwt
  import opened SessionKeys
  import opened AuthProtocol
  import opened AuthInvariant

  ghost predicate Reachable(c: Config, s: State) {
    exists start, events :: s == Run(c, Start(start), events)
  }

  lemma ReachableInv(c: Config, s: State, at: Time)
    requires Reachable(c, s) && s.now <= at
    ensures Inv(c, s) && Inv(c, s.(now := at))
  {
    var start, events :| s == Run(c, Start(start), events);
    StartIsGood(c, start);
    RunKeeps(c, Start(start), events);
    TimePasses(c, s, at);
  }

  lemma {:induction false} RunAppend(c: Config, s: State, first: seq<Event>, more: seq<Event>)
    ensures Run(c, s, first + more) == Run(c, Run(c, s, first), more)
    decreases |first|
  {
    if first == [] {
      assert first + more == more;
    } else {
      assert (first + more)[1..] == first[1..] + more;
      RunAppend(c, Next(c, s, first[0]), first[1..], more);
    }
  }

  lemma ReachableRun(c: Config, s: State, more: seq<Event>)
    requires Reachable(c, s)
    ensures Reachable(c, Run(c, s, more))
  {
    var start, events :| s == Run(c, Start(start), events);
    RunAppend(c, Start(start), events, more);
  }

  // ---- The expiring keys refine the full history --------------------------------

  /**
   * A minted access token is accepted iff it is unexpired, was never logged
   * out, and no revocation of its user fell in a second after the one it was
   * issued in - although the keys that decide this expire and are overwritten.
   */
  lemma AcceptedIffHistoryAllows(c: Config, s: State, t: Claims, at: Time)
    requires Reachable(c, s) && s.now <= at
    requires Issued(s.history, t) && t.typ == Access
    ensures Authenticate(s, t, at) <==>
      && at < t.exp * SECOND
      && !LoggedOut(s.history, t.jti)
      && !RevokedAfter(s.history, t.subject, t.iat)
  {
    ReachableInv(c, s, at);
    KeysDecide(c, s, t, at);
  }

  lemma KeysDecide(c: Config, s: State, t: Claims, at: Time)
    requires TokenInv(c, s.history, at) && EpochInv(c, s.history, s.keys.revoked, at)
    requires BlacklistInv(s.history, s.keys.blacklist, at)
    requires Issued(s.history, t) && t.typ == Access
    ensures Authenticate(s, t, at) <==>
      && at < t.exp * SECOND
      && !LoggedOut(s.history, t.jti)
      && !RevokedAfter(s.history, t.subject, t.iat)
  {
    if at < t.exp * SECOND {
      match LastRevocation(s.history, t.subject)
      case None =>
      case Some(last) =>
        assert RevokedAfter(s.history, t.subject, t.iat) <==> t.iat < Unix(last);
        // A token older than the epoch dies before the epoch's key does.
        assert t.iat < Unix(last) ==> at < last + c.refresh + HOUR;
    }
  }

  lemma {:induction false} HistoryOnlyGrows(c: Config, s: State, more: seq<Event>)
    ensures Extends(Run(c, s, more).history, s.history)
    ensures s.now <= Run(c, s, more).now
    decreases |more|
  {
    if more != [] {
      var s1 := Next(c, s, more[0]);
      HistoryOnlyGrows(c, s1, more[1..]);
      ExtendsIsTransitive(Run(c, s, more).history, s1.history, s.history);
    }
  }

  lemma {:induction false} ExtendsIsTransitive(h2: History, h1: History, h0: History)
    requires Extends(h2, h1) && Extends(h1, h0)
    ensures Extends(h2, h0)
  {
    if h2 != h1 {
      ExtendsIsTransitive(h2.past, h1, h0);
    }
  }

  lemma {:induction false} HistoryNeverForgets(later: History, earlier: History, t: Claims)
    requires Extends(later, earlier)
    ensures Issued(earlier, t) ==> Issued(later, t)
    ensures LoggedOut(earlier, t.jti) ==> LoggedOut(later, t.jti)
    ensures RevokedAfter(earlier, t.subject, t.iat) ==> RevokedAfter(later, t.subject, t.iat)
  {
    if later != earlier {
      HistoryNeverForgets(later.past, earlier, t);
    }
  }

  /** Once rejected, a token is rejected at every later instant of every continuation. */
  lemma RejectionIsPermanent(c: Config, s: State, t: Claims, at: Time, more: seq<Event>, later: Time)
    requires Reachable(c, s) && s.now <= at && Issued(s.history, t)
    requires !Authenticate(s, t, at)
    requires at <= later && Run(c, s, more).now <= later
    ensures !Authenticate(Run(c, s, more), t, later)
  {
    if t.typ == Access {
      ReachableRun(c, s, more);
      HistoryOnlyGrows(c, s, more);
      HistoryNeverForgets(Run(c, s, more).history, s.history, t);
      AcceptedIffHistoryAllows(c, s, t, at);
      AcceptedIffHistoryAllows(c, Run(c, s, more), t, later);
    }
  }

  // ---- The session hash refines a set of live tokens ----------------------------

  lemma ActiveIffRegisteredAndUnexpired(c: Config, s: State, t: Claims, at: Time)
    requires Reachable(c, s) && s.now <= at
    requires Issued(s.history, t) && t.typ == Refresh
    ensures IsRefreshTokenActive(s.keys, at, t.subject, t.jti) <==>
      Registered(s.history, t.subject, t.jti) && at < t.exp * SECOND
  {
    ReachableInv(c, s, at);
  }

  /** Nothing but registered tokens is ever active. */
  lemma ActiveImpliesRegistered(c: Config, s: State, id: Uuid, jti: Uuid, at: Time)
    requires Reachable(c, s) && s.now <= at
    requires IsRefreshTokenActive(s.keys, at, id, jti)
    ensures Registered(s.history, id, jti)
  {
    ReachableInv(c, s, at);
  }

  /**
   * What presenting a refresh token does. Natural expiry is quiet; the reuse
   * branch is taken exactly for unexpired tokens that are no longer registered.
   */
  lemma RefreshOutcome(c: Config, s: State, t: Claims, access: Uuid, refresh: Uuid)
    requires Reachable(c, s) && Issued(s.history, t) && t.typ == Refresh
    ensures var (s', reply) := DoRefresh(c, s, t, access, refresh);
      if s.now >= t.exp * SECOND then s' == s && reply == Unauthorized
      else if !Registered(s.history, t.subject, t.jti) then s' == RevokeAll(c, s, t.subject) && reply == Unauthorized
      else if t.subject !in s.users then s' == s && reply == NotFound
      else if !s.users[t.subject].active then s' == RevokeAll(c, s, t.subject) && reply == Forbidden
      else reply.Tokens? && reply.pair.refresh.jti == refresh && reply.pair.access.jti == access
  {
    ReachableInv(c, s, s.now);
    ActiveIffRegisteredAndUnexpired(c, s, t, s.now);
    CleanUpIsAbsorbed(c, s, t.subject, t.jti);
  }

  // ---- One event at a time -------------------------------------------------------

  lemma ReachableNext(c: Config, s: State, e: Event)
    requires Reachable(c, s)
    ensures Reachable(c, Next(c, s, e))
  {
    ReachableRun(c, s, [e]);
    assert Run(c, s, [e]) == Run(c, Next(c, s, e), []);
  }

  /** The account whose sessions a call ends, if it ends any. */
  function EndsSessionsOf(c: Config, s: State, op: Op): Option<Uuid> {
    var reply := Do(c, s, op).1;
    match op
    case LogoutAll(bearer) => if reply.Success? then Some(bearer.subject) else None
    case ChangePassword(bearer, _, _, _, _) => if reply.Tokens? then Some(bearer.subject) else None
    case ResetPassword(id, _) => if reply.Success? then Some(id) else None
    case UpdateUser(_, id, change) =>
      if reply.Success? && (change.role.Some? || change.active == Some(false)) then Some(id) else None
    case DeleteUser(_, id) => if reply.Success? then Some(id) else None
    case _ => None
  }

  /** Such a call records the revocation; a change of role comes before it, a new session after it. */
  lemma EndingShape(c: Config, s: State, e: Event, id: Uuid)
    requires Enabled(s, e) && EndsSessionsOf(c, s.(now := e.at), e.op) == Some(id)
    ensures var h := Next(c, s, e).history; var revoked := AllRevoked(id, e.at);
      || h == Then(s.history, revoked)
      || h == Then(Then(s.history, RoleChanged(id, e.at)), revoked)
      || (h.Then? && h.past == Then(s.history, revoked) && h.fact.Minted?
          && FreshPair(s.history, h.fact.access.jti, h.fact.refresh.jti))
    ensures Next(c, s, e).now == e.at
  {
  }

  /** The facts such a call adds, as far as an older token is concerned. */
  lemma EndingFacts(c: Config, s: State, e: Event, id: Uuid, t: Claims)
    requires Enabled(s, e) && Issued(s.history, t) && KnownJti(s.history, t.jti)
    requires EndsSessionsOf(c, s.(now := e.at), e.op) == Some(id)
    ensures var h := Next(c, s, e).history;
      && Issued(h, t) && Next(c, s, e).now == e.at
      && (LoggedOut(h, t.jti) <==> LoggedOut(s.history, t.jti))
      && (RevokedAfter(h, t.subject, t.iat) <==>
            (t.subject == id && t.iat < Unix(e.at)) || RevokedAfter(s.history, t.subject, t.iat))
      && (Registered(h, t.subject, t.jti) <==> t.subject != id && Registered(s.history, t.subject, t.jti))
  {
    EndingShape(c, s, e, id);
  }

  lemma IssuedIsKnown(c: Config, s: State, t: Claims)
    requires Reachable(c, s) && Issued(s.history, t)
    ensures KnownJti(s.history, t.jti) && t.iat <= Unix(s.now)
  {
    ReachableInv(c, s, s.now);
  }

  /**
   * Signing out everywhere, changing or resetting the password, changing the
   * role, deactivating and deleting all end the account's earlier sessions:
   * every refresh token, and every access token issued in an earlier second.
   * An access token issued in the very second of the call survives it, and the
   * sessions of every other account stay exactly as they were.
   */
  lemma CallEndsEarlierSessions(c: Config, s: State, e: Event, id: Uuid, t: Claims, at: Time)
    requires Reachable(c, s) && Enabled(s, e) && e.at <= at && Issued(s.history, t)
    requires EndsSessionsOf(c, s.(now := e.at), e.op) == Some(id)
    ensures t.typ == Access ==>
      (Authenticate(Next(c, s, e), t, at) <==> Authenticate(s, t, at) && (t.subject == id ==> Unix(e.at) <= t.iat))
    ensures t.typ == Refresh ==>
      (IsRefreshTokenActive(Next(c, s, e).keys, at, t.subject, t.jti) <==>
        IsRefreshTokenActive(s.keys, at, t.subject, t.jti) && t.subject != id)
  {
    ReachableNext(c, s, e);
    IssuedIsKnown(c, s, t);
    EndingFacts(c, s, e, id, t);
    if t.typ == Access {
      AcceptedIffHistoryAllows(c, s, t, at);
      AcceptedIffHistoryAllows(c, Next(c, s, e), t, at);
    } else {
      ActiveIffRegisteredAndUnexpired(c, s, t, at);
      ActiveIffRegisteredAndUnexpired(c, Next(c, s, e), t, at);
    }
  }

  /** Refused calls change nothing; what a refused refresh does is RefreshOutcome. */
  lemma RefusalsChangeNothing(c: Config, s: State, e: Event)
    requires Enabled(s, e) && !e.op.RefreshSession?
    requires !Do(c, s.(now := e.at), e.op).1.Success? && !Do(c, s.(now := e.at), e.op).1.Tokens?
    ensures Next(c, s, e) == s.(now := e.at)
  {
  }

  /** The call ends no session: it neither signs out nor refreshes nor is one of those above. */
  predicate Spares(c: Config, s: State, e: Event) {
    !e.op.Logout? && !e.op.RefreshSession? && EndsSessionsOf(c, s.(now := e.at), e.op) == None
  }

  lemma SparingFacts(c: Config, s: State, e: Event, t: Claims)
    requires Enabled(s, e) && Spares(c, s, e) && Issued(s.history, t) && KnownJti(s.history, t.jti)
    ensures var h := Next(c, s, e).history;
      && Issued(h, t) && Next(c, s, e).now == e.at
      && (LoggedOut(h, t.jti) <==> LoggedOut(s.history, t.jti))
      && (RevokedAfter(h, t.subject, t.iat) <==> RevokedAfter(s.history, t.subject, t.iat))
      && (Registered(h, t.subject, t.jti) <==> Registered(s.history, t.subject, t.jti))
  {
  }

  /** Every other call leaves all tokens issued so far as they were. */
  lemma OtherCallsSpareSessions(c: Config, s: State, e: Event, t: Claims, at: Time)
    requires Reachable(c, s) && Enabled(s, e) && e.at <= at && Issued(s.history, t) && Spares(c, s, e)
    ensures t.typ == Access ==> (Authenticate(Next(c, s, e), t, at) <==> Authenticate(s, t, at))
    ensures t.typ == Refresh ==>
      (IsRefreshTokenActive(Next(c, s, e).keys, at, t.subject, t.jti) <==>
        IsRefreshTokenActive(s.keys, at, t.subject, t.jti))
  {
    ReachableNext(c, s, e);
    IssuedIsKnown(c, s, t);
    SparingFacts(c, s, e, t);
    if t.typ == Access {
      AcceptedIffHistoryAllows(c, s, t, at);
      AcceptedIffHistoryAllows(c, Next(c, s, e), t, at);
    } else {
      ActiveIffRegisteredAndUnexpired(c, s, t, at);
      ActiveIffRegisteredAndUnexpired(c, Next(c, s, e), t, at);
    }
  }

  lemma RotationShape(c: Config, s: State, e: Event)
    requires Enabled(s, e) && e.op.RefreshSession? && Do(c, s.(now := e.at), e.op).1.Tokens?
    ensures var h := Next(c, s, e).history; var t := e.op.token;
      && h.Then? && h.fact.Minted? && h.past == Then(s.history, RefreshRevoked(t.subject, t.jti))
      && h.fact.refresh.jti == e.op.refresh && h.fact.access.jti == e.op.access && Next(c, s, e).now == e.at
      && Issued(s.history, t) && t.typ == Refresh
  {
  }

  /** A successful refresh ends the presented token and nothing else. */
  lemma RefreshEndsOneToken(c: Config, s: State, e: Event, t: Claims, at: Time)
    requires Reachable(c, s) && Enabled(s, e) && e.at <= at && Issued(s.history, t)
    requires e.op.RefreshSession? && Do(c, s.(now := e.at), e.op).1.Tokens?
    ensures t.typ == Access ==> (Authenticate(Next(c, s, e), t, at) <==> Authenticate(s, t, at))
    ensures t.typ == Refresh ==>
      (IsRefreshTokenActive(Next(c, s, e).keys, at, t.subject, t.jti) <==>
        IsRefreshTokenActive(s.keys, at, t.subject, t.jti) && t != e.op.token)
  {
    ReachableNext(c, s, e);
    IssuedIsKnown(c, s, t);
    RotationShape(c, s, e);
    SameJtiSameToken(c, s, t, e.op.token);
    if t.typ == Access {
      AcceptedIffHistoryAllows(c, s, t, at);
      AcceptedIffHistoryAllows(c, Next(c, s, e), t, at);
    } else {
      ActiveIffRegisteredAndUnexpired(c, s, t, at);
      ActiveIffRegisteredAndUnexpired(c, Next(c, s, e), t, at);
    }
  }

  lemma SameJtiSameToken(c: Config, s: State, t: Claims, t': Claims)
    requires Reachable(c, s) && Issued(s.history, t) && Issued(s.history, t')
    ensures t.jti == t'.jti <==> t == t'
    ensures t.iat <= Unix(s.now)
  {
    ReachableInv(c, s, s.now);
  }

  /** The refresh token that came with the call is one that the call revokes. */
  predicate RevokesToo(s: State, e: Event, r: Option<Claims>)
    requires e.op.Logout?
  {
    r.Some? && Parse(r.value, Issued(s.history, r.value), Refresh, e.at).Ok? && r.value.subject == e.op.bearer.subject
  }

  lemma LogoutShape(c: Config, s: State, e: Event)
    requires Enabled(s, e) && e.op.Logout? && Do(c, s.(now := e.at), e.op).1 == Success
    ensures Issued(s.history, e.op.bearer) && e.op.bearer.typ == Access && Next(c, s, e).now == e.at
    ensures Next(c, s, e).history == Then(
      if RevokesToo(s, e, e.op.refreshToken)
      then Then(s.history, RefreshRevoked(e.op.bearer.subject, e.op.refreshToken.value.jti)) else s.history,
      AccessRevoked(e.op.bearer.jti))
  {
  }

  lemma LogoutFacts(c: Config, s: State, e: Event, t: Claims)
    requires Enabled(s, e) && e.op.Logout? && Do(c, s.(now := e.at), e.op).1 == Success && Issued(s.history, t)
    ensures var h := Next(c, s, e).history; var bearer := e.op.bearer; var r := e.op.refreshToken;
      && Issued(s.history, bearer) && bearer.typ == Access
      && Issued(h, t) && Next(c, s, e).now == e.at
      && (LoggedOut(h, t.jti) <==> t.jti == bearer.jti || LoggedOut(s.history, t.jti))
      && (RevokedAfter(h, t.subject, t.iat) <==> RevokedAfter(s.history, t.subject, t.iat))
      && (Registered(h, t.subject, t.jti) <==>
            && Registered(s.history, t.subject, t.jti)
            && !(RevokesToo(s, e, r) && t.subject == bearer.subject && t.jti == r.value.jti))
  {
    LogoutShape(c, s, e);
  }

  /** Signing out ends the bearer token for good and spares every other access token. */
  lemma LogoutEndsOneSession(c: Config, s: State, e: Event, t: Claims, at: Time)
    requires Reachable(c, s) && Enabled(s, e) && e.at <= at && Issued(s.history, t)
    requires e.op.Logout? && Do(c, s.(now := e.at), e.op).1 == Success
    ensures t.typ == Access ==>
      (Authenticate(Next(c, s, e), t, at) <==> Authenticate(s, t, at) && t != e.op.bearer)
    ensures t.typ == Refresh ==>
      (IsRefreshTokenActive(Next(c, s, e).keys, at, t.subject, t.jti) <==>
        && IsRefreshTokenActive(s.keys, at, t.subject, t.jti)
        && !(e.op.refreshToken == Some(t) && t.subject == e.op.bearer.subject))
  {
    var s' := Next(c, s, e);
    ReachableNext(c, s, e);
    LogoutFacts(c, s, e, t);
    SameJtiSameToken(c, s, t, e.op.bearer);
    if e.op.refreshToken.Some? && Issued(s.history, e.op.refreshToken.value) {
      SameJtiSameToken(c, s, t, e.op.refreshToken.value);
    }
    if t.typ == Access {
      AcceptedIffHistoryAllows(c, s, t, at);
      AcceptedIffHistoryAllows(c, s', t, at);
    } else {
      ActiveIffRegisteredAndUnexpired(c, s, t, at);
      ActiveIffRegisteredAndUnexpired(c, s', t, at);
    }
  }

  /** A jti nobody has seen is not logged out, and no revocation so far reaches past the present second. */
  lemma NothingHeldAgainstFreshTokens(c: Config, s: State, jti: Uuid, id: Uuid, at: Time)
    requires Reachable(c, s) && s.now <= at && !KnownJti(s.history, jti)
    ensures !LoggedOut(s.history, jti) && !RevokedAfter(s.history, id, Unix(at))
  {
    ReachableInv(c, s, at);
  }

  lemma MintingFacts(c: Config, s: State, e: Event)
    requires Enabled(s, e) && Do(c, s.(now := e.at), e.op).1.Tokens?
    ensures var pair := Do(c, s.(now := e.at), e.op).1.pair; var h := Next(c, s, e).history;
      && !KnownJti(s.history, pair.access.jti) && pair.access.iat == Unix(e.at) && pair.access.typ == Access
      && pair.refresh.typ == Refresh && Issued(h, pair.access) && Issued(h, pair.refresh) && Next(c, s, e).now == e.at
      && (LoggedOut(h, pair.access.jti) <==> LoggedOut(s.history, pair.access.jti))
      && (RevokedAfter(h, pair.access.subject, Unix(e.at)) <==>
            RevokedAfter(s.history, pair.access.subject, Unix(e.at)))
      && Registered(h, pair.refresh.subject, pair.refresh.jti)
  {
  }

  /** Every pair handed out works, from the instant it is handed out until it expires. */
  lemma FreshPairWorks(c: Config, s: State, e: Event, at: Time)
    requires Reachable(c, s) && Enabled(s, e) && e.at <= at
    requires Do(c, s.(now := e.at), e.op).1.Tokens?
    ensures var pair := Do(c, s.(now := e.at), e.op).1.pair;
      && (Authenticate(Next(c, s, e), pair.access, at) <==> at < pair.access.exp * SECOND)
      && (IsRefreshTokenActive(Next(c, s, e).keys, at, pair.refresh.subject, pair.refresh.jti) <==>
            at < pair.refresh.exp * SECOND)
  {
    var pair := Do(c, s.(now := e.at), e.op).1.pair;
    ReachableNext(c, s, e);
    MintingFacts(c, s, e);
    NothingHeldAgainstFreshTokens(c, s, pair.access.jti, pair.access.subject, e.at);
    AcceptedIffHistoryAllows(c, Next(c, s, e), pair.access, at);
    ActiveIffRegisteredAndUnexpired(c, Next(c, s, e), pair.refresh, at);
  }

  // ---- Rotation families -----------------------------------------------------------

  /** A family has at most one registered token, and it is the newest. */
  lemma OneRegisteredPerFamily(c: Config, s: State, t: Claims, t': Claims)
    requires Reachable(c, s) && Issued(s.history, t) && Issued(s.history, t')
    requires Registered(s.history, t.subject, t.jti) && Registered(s.history, t'.subject, t'.jti)
    requires FamilyOf(s.history, t.jti) == FamilyOf(s.history, t'.jti)
    ensures t == t'
    ensures FamilyOf(s.history, t.jti).Some? && Newest(s.history, FamilyOf(s.history, t.jti).value) == Some(t.jti)
  {
    ReachableInv(c, s, s.now);
  }

  /** A successful refresh passes the family on to the new token and retires the old one. */
  lemma RotationAdvancesTheFamily(c: Config, s: State, e: Event)
    requires Reachable(c, s) && Enabled(s, e) && e.op.RefreshSession?
    requires Do(c, s.(now := e.at), e.op).1.Tokens?
    ensures var h := Next(c, s, e).history; var family := FamilyOf(s.history, e.op.token.jti);
      && family.Some? && FamilyOf(h, e.op.refresh) == family && Newest(h, family.value) == Some(e.op.refresh)
      && Registered(h, e.op.token.subject, e.op.refresh) && !Registered(h, e.op.token.subject, e.op.token.jti)
  {
    ReachableInv(c, s, e.at);
    assert Issued(s.history, e.op.token);
  }

  /** Replaying any earlier member while it is unexpired leaves its user without a single active token. */
  lemma ReplayEndsEverySession(c: Config, s: State, e: Event, jti: Uuid, at: Time)
    requires Reachable(c, s) && Enabled(s, e) && e.op.RefreshSession? && e.at <= at
    requires Issued(s.history, e.op.token) && e.op.token.typ == Refresh && e.at < e.op.token.exp * SECOND
    requires FamilyOf(s.history, e.op.token.jti).Some?
      ==> Newest(s.history, FamilyOf(s.history, e.op.token.jti).value) != Some(e.op.token.jti)
    ensures Do(c, s.(now := e.at), e.op).1 == Unauthorized
    ensures !IsRefreshTokenActive(Next(c, s, e).keys, at, e.op.token.subject, jti)
  {
    ReachableInv(c, s, e.at);
    CleanUpIsAbsorbed(c, s.(now := e.at), e.op.token.subject, e.op.token.jti);
    assert !Registered(s.history, e.op.token.subject, e.op.token.jti);
  }

  // ---- Roles and verification --------------------------------------------------------

  /** An accepted token carries the account's current role, unless it is from the very second of the latest change. */
  lemma AcceptedRoleIsCurrent(c: Config, s: State, t: Claims, at: Time)
    requires Reachable(c, s) && s.now <= at && Authenticate(s, t, at) && t.subject in s.users
    ensures t.role == s.users[t.subject].role ||
      (LastRoleChange(s.history, t.subject).Some? && Unix(LastRoleChange(s.history, t.subject).value) == t.iat)
  {
    ReachableInv(c, s, at);
    AcceptedIffHistoryAllows(c, s, t, at);
  }

  /** Every pair ever minted belongs to an account whose address had been verified by then. */
  lemma OnlyVerifiedAccountsGetTokens(c: Config, s: State)
    requires Reachable(c, s)
    ensures VerifiedBeforeMinting(s.history)
  {
    ReachableInv(c, s, s.now);
  }

  // ---- Where a looser reading fails ----------------------------------------------------

  const DEFAULTS: Config := Lifetimes(15 * MINUTE, 720 * HOUR)

  /** The state after an account was made, verified and signed in at instant 0, from a state at instant 0. */
  function SignUp(s: State, id: Uuid, role: Role, access: Uuid, refresh: Uuid): State {
    var s1 := Next(DEFAULTS, s, Event(0, Register(id, "secret", "", role)));
    var s2 := Next(DEFAULTS, s1, Event(0, VerifyEmail(id)));
    Next(DEFAULTS, s2, Event(0, Login(id, "secret", access, refresh)))
  }

  lemma SignUpIsReachable(s: State, id: Uuid, role: Role, access: Uuid, refresh: Uuid)
    requires Reachable(DEFAULTS, s) && s.now == 0
    requires !KnownId(s.history, id) && FreshPair(s.history, access, refresh)
    ensures var s' := SignUp(s, id, role, access, refresh); var t := Claims(access, id, role, Access, 0, 900);
      && Reachable(DEFAULTS, s') && s'.now == 0
      && s'.users == s.users[id := Account(Some("secret"), "", role, true, true)]
      && Issued(s'.history, t) && Authenticate(s', t, 0)
      && (forall a :: Issued(s.history, a) ==> Issued(s'.history, a))
      && (forall j :: KnownJti(s'.history, j) <==> j == access || j == refresh || KnownJti(s.history, j))
      && (forall i :: KnownId(s'.history, i) <==> i == id || KnownId(s.history, i))
  {
    var s1 := Next(DEFAULTS, s, Event(0, Register(id, "secret", "", role)));
    var s2 := Next(DEFAULTS, s1, Event(0, VerifyEmail(id)));
    var e := Event(0, Login(id, "secret", access, refresh));
    ReachableNext(DEFAULTS, s, Event(0, Register(id, "secret", "", role)));
    ReachableNext(DEFAULTS, s1, Event(0, VerifyEmail(id)));
    ReachableNext(DEFAULTS, s2, e);
    FreshPairWorks(DEFAULTS, s2, e, 0);
    var pair := GenerateTokenPair(DEFAULTS, 0, id, role, access, refresh);
    NotMinted(s.history, AccountMade(id));
    NotMinted(s1.history, EmailVerified(id));
    OneMinted(s2.history, pair.access, pair.refresh, refresh);
    assert forall i :: KnownId(s1.history, i) <==> i == id || KnownId(s.history, i);
    assert forall i :: KnownId(s2.history, i) <==> KnownId(s1.history, i);
    assert forall i :: KnownId(Next(DEFAULTS, s2, e).history, i) <==> KnownId(s2.history, i);
  }

  /** "Revoking everything invalidates every token issued before it" fails within one second. */
  lemma TokenSurvivesLogoutAll()
    ensures exists s, e: Event, t ::
      && Reachable(DEFAULTS, s) && Enabled(s, e) && Issued(s.history, t)
      && e.op == LogoutAll(t) && Do(DEFAULTS, s.(now := e.at), e.op).1 == Success
      && Authenticate(Next(DEFAULTS, s, e), t, e.at)
  {
    assert Start(0) == Run(DEFAULTS, Start(0), []);
    var s := SignUp(Start(0), 1, RoleUser, 10, 11);
    SignUpIsReachable(Start(0), 1, RoleUser, 10, 11);
    var t := Claims(10, 1, RoleUser, Access, 0, 900);
    var e := Event(0, LogoutAll(t));
    CallEndsEarlierSessions(DEFAULTS, s, e, 1, t, 0);
    assert e.op == LogoutAll(t) && Authenticate(Next(DEFAULTS, s, e), t, e.at);
  }

  const DEMOTION := Change(None, Some(Named(RoleUser)), None)

  /** Two administrators, signed up and signed in at instant 0. */
  function TwoAdmins(): State {
    SignUp(SignUp(Start(0), 1, RoleAdmin, 10, 11), 2, RoleAdmin, 20, 21)
  }

  lemma TwoAdminsSignedIn()
    ensures var s := TwoAdmins();
      && Reachable(DEFAULTS, s) && s.now == 0 && 2 in s.users
      && Issued(s.history, Claims(20, 2, RoleAdmin, Access, 0, 900))
      && Authenticate(s, Claims(10, 1, RoleAdmin, Access, 0, 900), 0)
      && Authenticate(s, Claims(20, 2, RoleAdmin, Access, 0, 900), 0)
  {
    assert Start(0) == Run(DEFAULTS, Start(0), []);
    var s1 := SignUp(Start(0), 1, RoleAdmin, 10, 11);
    SignUpIsReachable(Start(0), 1, RoleAdmin, 10, 11);
    SignUpIsReachable(s1, 2, RoleAdmin, 20, 21);
    BossStillSignedIn(s1, TwoAdmins(), Claims(10, 1, RoleAdmin, Access, 0, 900));
  }

  lemma Demotion(s: State, boss: Claims, t: Claims)
    requires Reachable(DEFAULTS, s) && s.now == 0 && 2 in s.users && Issued(s.history, t) && Authenticate(s, t, 0)
    requires t == Claims(20, 2, RoleAdmin, Access, 0, 900)
    requires boss == Claims(10, 1, RoleAdmin, Access, 0, 900) && Authenticate(s, boss, 0)
    ensures var s' := Next(DEFAULTS, s, Event(0, UpdateUser(boss, 2, DEMOTION)));
      && Reachable(DEFAULTS, s') && Authenticate(s', t, 0) && s'.now == 0
      && 2 in s'.users && s'.users[2].role == RoleUser
  {
    var e := Event(0, UpdateUser(boss, 2, DEMOTION));
    CallEndsEarlierSessions(DEFAULTS, s, e, 2, t, 0);
    ReachableNext(DEFAULTS, s, e);
  }

  /** The exception in AcceptedRoleIsCurrent is needed: a demoted administrator can be left with an accepted token. */
  lemma DemotedAdministratorKeepsToken()
    ensures exists s, t ::
      && Reachable(DEFAULTS, s) && Authenticate(s, t, s.now)
      && t.role == RoleAdmin && t.subject in s.users && s.users[t.subject].role == RoleUser
  {
    TwoAdminsSignedIn();
    var boss := Claims(10, 1, RoleAdmin, Access, 0, 900);
    Demotion(TwoAdmins(), boss, Claims(20, 2, RoleAdmin, Access, 0, 900));
    var s := Next(DEFAULTS, TwoAdmins(), Event(0, UpdateUser(boss, 2, DEMOTION)));
    assert Authenticate(s, Claims(20, 2, RoleAdmin, Access, 0, 900), s.now);
  }

  lemma BossStillSignedIn(s1: State, s2: State, boss: Claims)
    requires Reachable(DEFAULTS, s1) && s1.now == 0 && Issued(s1.history, boss) && Authenticate(s1, boss, 0)
    requires boss.typ == Access && !KnownId(s1.history, 2) && FreshPair(s1.history, 20, 21)
    requires s2 == SignUp(s1, 2, RoleAdmin, 20, 21)
    ensures Authenticate(s2, boss, 0)
  {
    SignUpIsReachable(s1, 2, RoleAdmin, 20, 21);
    AcceptedIffHistoryAllows(DEFAULTS, s1, boss, 0);
    AcceptedIffHistoryAllows(DEFAULTS, s2, boss, 0);
  }
}
