/**
 * The session protocol of app/services/auth.go, app/services/user.go and
 * app/middleware/auth.go as a state machine. Each service call is one atomic
 * step on a clock that never runs backwards.
 */
module AuthProtocol {
  import opened Clock
  import opened Wrappers
  import opened Text
  import opened Jwt
  import opened SessionKeys

  datatype Account = Account(password: Option<string>, fullName: string, role: Role, active: bool, verified: bool)

  /** A role as a request names it. */
  datatype RoleName = Named(role: Role) | OtherRole(text: string)

  /** A partial update of an account. */
  datatype Change = Change(fullName: Option<string>, role: Option<RoleName>, active: Option<bool>) {
    /** Only administrators may change these. */
    predicate IsPrivileged() { role.Some? || active.Some? }

    predicate NamesNoRole() { role.Some? && role.value.OtherRole? }

    predicate Deactivates() { active == Some(false) }

    /** The account must sign in again. */
    predicate EndsSessions() { Deactivates() || role.Some? }
  }

  /** The row after the UPDATE. */
  function Updated(a: Account, change: Change): Account {
    a.(fullName := if change.fullName.Some? then TrimSpace(change.fullName.value) else a.fullName,
       role := if change.role.Some? && change.role.value.Named? then change.role.value.role else a.role,
       active := Coalesce(change.active, a.active))
  }

  /** Everything that ever happened. Nothing in the service stores this. */
  datatype Fact =
    | AccountMade(id: Uuid)
    | EmailVerified(id: Uuid)
    | RoleChanged(id: Uuid, at: Time)
    | Minted(access: Claims, refresh: Claims, family: Uuid)
    | RefreshRevoked(id: Uuid, jti: Uuid)
    | AllRevoked(id: Uuid, at: Time)
    | AccessRevoked(jti: Uuid)
    | Stored(id: Uuid, jti: Uuid)     // recorded where minting and registering are two steps

  datatype History = Nothing | Then(past: History, fact: Fact)

  datatype State = State(now: Time, users: map<Uuid, Account>, keys: Keys, history: History)

  /** An empty service, switched on at any instant. */
  function Start(at: Time): State {
    State(at, map[], NO_KEYS, Nothing)
  }

  datatype Op =
    | Register(id: Uuid, password: string, fullName: string, role: Role)
    | VerifyEmail(id: Uuid)
    | Login(id: Uuid, password: string, access: Uuid, refresh: Uuid)
    | RefreshSession(token: Claims, access: Uuid, refresh: Uuid)
    | Logout(bearer: Claims, refreshToken: Option<Claims>)
    | LogoutAll(bearer: Claims)
    | ChangePassword(bearer: Claims, current: string, next: string, access: Uuid, refresh: Uuid)
    | ResetPassword(id: Uuid, next: string)
    | UpdateUser(bearer: Claims, id: Uuid, change: Change)
    | DeleteUser(bearer: Claims, id: Uuid)

  datatype Event = Event(at: Time, op: Op)

  datatype Reply = Success | Tokens(pair: TokenPair) | Unauthorized | Forbidden | NotFound | BadRequest

  // ---- What the history says -------------------------------------------------

  predicate Issued(h: History, t: Claims) {
    match h
    case Nothing => false
    case Then(past, Minted(a, r, _)) => t == a || t == r || Issued(past, t)
    case Then(past, _) => Issued(past, t)
  }

  predicate KnownJti(h: History, jti: Uuid) {
    match h
    case Nothing => false
    case Then(past, Minted(a, r, _)) => jti == a.jti || jti == r.jti || KnownJti(past, jti)
    case Then(past, _) => KnownJti(past, jti)
  }

  predicate KnownId(h: History, id: Uuid) {
    match h
    case Nothing => false
    case Then(past, f) => f == AccountMade(id) || KnownId(past, id)
  }

  predicate WasVerified(h: History, id: Uuid) {
    match h
    case Nothing => false
    case Then(past, f) => f == EmailVerified(id) || WasVerified(past, id)
  }

  predicate LoggedOut(h: History, jti: Uuid) {
    match h
    case Nothing => false
    case Then(past, f) => f == AccessRevoked(jti) || LoggedOut(past, jti)
  }

  /** Some RevokeAllSessions of this user happened in a second strictly after the given one. */
  predicate RevokedAfter(h: History, id: Uuid, second: int) {
    match h
    case Nothing => false
    case Then(past, AllRevoked(u, at)) => (u == id && second < Unix(at)) || RevokedAfter(past, id, second)
    case Then(past, _) => RevokedAfter(past, id, second)
  }

  /** The refresh token was issued and not revoked, alone or with all others, since. */
  predicate Registered(h: History, id: Uuid, jti: Uuid) {
    match h
    case Nothing => false
    case Then(past, Minted(_, r, _)) => (r.subject == id && r.jti == jti) || Registered(past, id, jti)
    case Then(past, RefreshRevoked(u, j)) => !(u == id && j == jti) && Registered(past, id, jti)
    case Then(past, AllRevoked(u, _)) => u != id && Registered(past, id, jti)
    case Then(past, _) => Registered(past, id, jti)
  }

  function LastRevocation(h: History, id: Uuid): Option<Time> {
    match h
    case Nothing => None
    case Then(past, AllRevoked(u, at)) => if u == id then Some(at) else LastRevocation(past, id)
    case Then(past, _) => LastRevocation(past, id)
  }

  function LastRoleChange(h: History, id: Uuid): Option<Time> {
    match h
    case Nothing => None
    case Then(past, RoleChanged(u, at)) => if u == id then Some(at) else LastRoleChange(past, id)
    case Then(past, _) => LastRoleChange(past, id)
  }

  /** The sign-in from which a refresh token descends by rotation. */
  function FamilyOf(h: History, jti: Uuid): Option<Uuid> {
    match h
    case Nothing => None
    case Then(past, Minted(_, r, family)) => if r.jti == jti then Some(family) else FamilyOf(past, jti)
    case Then(past, _) => FamilyOf(past, jti)
  }

  /** The latest refresh token of a family. */
  function Newest(h: History, family: Uuid): Option<Uuid> {
    match h
    case Nothing => None
    case Then(past, Minted(_, r, f)) => if f == family then Some(r.jti) else Newest(past, family)
    case Then(past, _) => Newest(past, family)
  }

  /** At every minting the account's address had been verified before. */
  predicate VerifiedBeforeMinting(h: History) {
    match h
    case Nothing => true
    case Then(past, f) =>
      && (f.Minted? ==> WasVerified(past, f.access.subject) && f.access.subject == f.refresh.subject)
      && VerifiedBeforeMinting(past)
  }

  predicate Extends(later: History, earlier: History) {
    later == earlier || (later.Then? && Extends(later.past, earlier))
  }

  // ---- Steps shared by several calls -----------------------------------------

  function Record(s: State, f: Fact): State {
    s.(history := Then(s.history, f))
  }

  /** issueSession: mint a pair and register its refresh token. */
  function IssueSession(
      c: Config, s: State, id: Uuid, role: Role, access: Uuid, refresh: Uuid, family: Uuid): (State, Reply) {
    var pair := GenerateTokenPair(c, s.now, id, role, access, refresh);
    var keys := StoreRefreshToken(c, s.keys, s.now, id, refresh, pair.refreshExpiresAt);
    (Record(s.(keys := keys), Minted(pair.access, pair.refresh, family)), Tokens(pair))
  }

  function RevokeOne(s: State, id: Uuid, jti: Uuid): State {
    Record(s.(keys := RevokeRefreshToken(s.keys, s.now, id, jti)), RefreshRevoked(id, jti))
  }

  function RevokeAll(c: Config, s: State, id: Uuid): State {
    Record(s.(keys := RevokeAllSessions(c, s.keys, s.now, id)), AllRevoked(id, s.now))
  }

  function Blacklist(s: State, t: Claims): State {
    Record(s.(keys := BlacklistAccessToken(s.keys, s.now, t.jti, t.exp * SECOND - s.now)), AccessRevoked(t.jti))
  }

  function SetAccount(s: State, id: Uuid, a: Account): State {
    s.(users := s.users[id := a])
  }

  /** The middleware's verdict on a bearer token at time t. */
  predicate Authenticate(s: State, bearer: Claims, t: Time) {
    && Parse(bearer, Issued(s.history, bearer), Access, t).Ok?
    && IsAccessTokenValid(s.keys, t, bearer.subject, bearer.jti, bearer.iat * SECOND)
  }

  // ---- The service calls -----------------------------------------------------

  function DoRegister(s: State, id: Uuid, password: string, fullName: string, role: Role): (State, Reply) {
    var a := Account(Some(password), TrimSpace(fullName), role, true, false);
    (Record(SetAccount(s, id, a), AccountMade(id)), Success)
  }

  function DoVerifyEmail(s: State, id: Uuid): (State, Reply) {
    if id !in s.users then (s, BadRequest)
    else (Record(SetAccount(s, id, s.users[id].(verified := true)), EmailVerified(id)), Success)
  }

  function DoLogin(c: Config, s: State, id: Uuid, password: string, access: Uuid, refresh: Uuid): (State, Reply) {
    if id !in s.users then (s, Unauthorized)
    else if s.users[id].password != Some(password) then (s, Unauthorized)
    else if !s.users[id].active then (s, Forbidden)
    else if !s.users[id].verified then (s, Forbidden)
    else IssueSession(c, s, id, s.users[id].role, access, refresh, refresh)
  }

  function DoRefresh(c: Config, s: State, token: Claims, access: Uuid, refresh: Uuid): (State, Reply) {
    if Parse(token, Issued(s.history, token), Refresh, s.now).Err? then (s, Unauthorized)
    else
      var id := token.subject;
      var looked := s.(keys := AfterActiveCheck(s.keys, s.now, id, token.jti));
      if !IsRefreshTokenActive(s.keys, s.now, id, token.jti) then (RevokeAll(c, looked, id), Unauthorized)
      else if id !in s.users then (looked, NotFound)
      else if !s.users[id].active then (RevokeAll(c, looked, id), Forbidden)
      else
        var family := FamilyOf(s.history, token.jti);
        IssueSession(c, RevokeOne(looked, id, token.jti), id, s.users[id].role, access, refresh,
                     if family.Some? then family.value else refresh)
  }

  function DoLogout(s: State, bearer: Claims, refreshToken: Option<Claims>): (State, Reply) {
    if !Authenticate(s, bearer, s.now) then (s, Unauthorized)
    else
      var s1 :=
        if && refreshToken.Some?
           && Parse(refreshToken.value, Issued(s.history, refreshToken.value), Refresh, s.now).Ok?
           && refreshToken.value.subject == bearer.subject
        then RevokeOne(s, bearer.subject, refreshToken.value.jti) else s;
      (Blacklist(s1, bearer), Success)
  }

  function DoLogoutAll(c: Config, s: State, bearer: Claims): (State, Reply) {
    if !Authenticate(s, bearer, s.now) then (s, Unauthorized)
    else (RevokeAll(c, s, bearer.subject), Success)
  }

  function DoChangePassword(
      c: Config, s: State, bearer: Claims, current: string, next: string, access: Uuid, refresh: Uuid): (State, Reply) {
    var id := bearer.subject;
    if !Authenticate(s, bearer, s.now) then (s, Unauthorized)
    else if id !in s.users then (s, NotFound)
    else if s.users[id].password != Some(current) then (s, Unauthorized)
    else if current == next then (s, BadRequest)
    else
      var s1 := SetAccount(s, id, s.users[id].(password := Some(next)));
      IssueSession(c, RevokeAll(c, s1, id), id, s.users[id].role, access, refresh, refresh)
  }

  /** The part of ResetPassword that follows a successfully consumed link. */
  function DoResetPassword(c: Config, s: State, id: Uuid, next: string): (State, Reply) {
    if id !in s.users then (s, BadRequest)
    else (RevokeAll(c, SetAccount(s, id, s.users[id].(password := Some(next))), id), Success)
  }

  /** The account's row and, if it says something new, the role's change. */
  function Changed(s: State, id: Uuid, a: Account): State
    requires id in s.users
  {
    if a.role != s.users[id].role then Record(SetAccount(s, id, a), RoleChanged(id, s.now)) else SetAccount(s, id, a)
  }

  function DoUpdateUser(c: Config, s: State, bearer: Claims, id: Uuid, change: Change): (State, Reply) {
    if !Authenticate(s, bearer, s.now) then (s, Unauthorized)
    else if bearer.role != RoleAdmin && bearer.subject != id then (s, Forbidden)
    else if bearer.role != RoleAdmin && change.IsPrivileged() then (s, Forbidden)
    else if change.NamesNoRole() then (s, BadRequest)
    else if bearer.subject == id && change.Deactivates() then (s, BadRequest)
    else if id !in s.users then (s, NotFound)
    else
      var s1 := Changed(s, id, Updated(s.users[id], change));
      (if change.EndsSessions() then RevokeAll(c, s1, id) else s1, Success)
  }

  function DoDeleteUser(c: Config, s: State, bearer: Claims, id: Uuid): (State, Reply) {
    if !Authenticate(s, bearer, s.now) then (s, Unauthorized)
    else if bearer.role != RoleAdmin && bearer.subject != id then (s, Forbidden)
    else if bearer.role == RoleAdmin && bearer.subject == id then (s, BadRequest)
    else if id !in s.users then (s, NotFound)
    else (RevokeAll(c, s.(users := s.users - {id}), id), Success)
  }

  function Do(c: Config, s: State, op: Op): (State, Reply) {
    match op
    case Register(id, password, fullName, role) => DoRegister(s, id, password, fullName, role)
    case VerifyEmail(id) => DoVerifyEmail(s, id)
    case Login(id, password, access, refresh) => DoLogin(c, s, id, password, access, refresh)
    case RefreshSession(token, access, refresh) => DoRefresh(c, s, token, access, refresh)
    case Logout(bearer, refreshToken) => DoLogout(s, bearer, refreshToken)
    case LogoutAll(bearer) => DoLogoutAll(c, s, bearer)
    case ChangePassword(bearer, current, next, access, refresh) =>
      DoChangePassword(c, s, bearer, current, next, access, refresh)
    case ResetPassword(id, next) => DoResetPassword(c, s, id, next)
    case UpdateUser(bearer, id, change) => DoUpdateUser(c, s, bearer, id, change)
    case DeleteUser(bearer, id) => DoDeleteUser(c, s, bearer, id)
  }

  // ---- Runs ------------------------------------------------------------------

  predicate FreshPair(h: History, access: Uuid, refresh: Uuid) {
    access != refresh && !KnownJti(h, access) && !KnownJti(h, refresh)
  }

  /** What the surroundings guarantee: time moves forward and generated UUIDs are new. */
  predicate Enabled(s: State, e: Event) {
    && s.now <= e.at
    && match e.op
       case Register(id, _, _, _) => !KnownId(s.history, id)
       case Login(_, _, access, refresh) => FreshPair(s.history, access, refresh)
       case RefreshSession(_, access, refresh) => FreshPair(s.history, access, refresh)
       case ChangePassword(_, _, _, access, refresh) => FreshPair(s.history, access, refresh)
       case _ => true
  }

  function Next(c: Config, s: State, e: Event): State {
    if Enabled(s, e) then Do(c, s.(now := e.at), e.op).0 else s
  }

  function Run(c: Config, s: State, events: seq<Event>): State
    decreases |events|
  {
    if events == [] then s else Run(c, Next(c, s, events[0]), events[1..])
  }
}
