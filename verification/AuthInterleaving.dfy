/**
 * The session calls with any number of them interleaved. Every store call is a
 * step of its own, and a call may stop between any two of its steps: because
 * of a crash, or because a store refused the next one.
 */
module AuthInterleaving {
  import opened Clock
  import opened Redis
  import opened Wrappers
  import opened Jwt
  import opened SessionKeys
  import opened AuthProtocol
  import opened AuthInvariant
  import AuthTheorems

  /** The role that a call found in the account's row, and when. */
  datatype Read = Read(role: Role, at: Time)

  /** How far a call has come. */
  datatype Call =
    | SigningIn(id: Uuid, password: string)                       // about to read the account
    | Minting(id: Uuid, read: Read, family: Option<Uuid>)         // about to sign a pair
    | Storing(token: Claims, expiresAt: Time)                     // about to register the refresh token
    | Presented(token: Claims)                                    // about to look the token up in the hash
    | Found(token: Claims)                                        // about to read the account
    | Rotating(token: Claims, read: Read)                         // about to revoke the presented token
    | ChangingPassword(id: Uuid, current: string, next: string)   // about to read the account
    | SettingPassword(id: Uuid, read: Read, next: string)         // about to write the password
    | Dropping(id: Uuid, mintFor: Option<Read>)                   // about to revoke all sessions, perhaps to open one
    | SigningOut(bearer: Claims, refreshToken: Option<Claims>)    // about to revoke the refresh token
    | Blacklisting(bearer: Claims, ttl: int)                      // about to blacklist the access token
    | UpdatingUser(id: Uuid, change: Change)
    | DeletingUser(id: Uuid)
    | Over

  /** `readAt` remembers, for every access token, when the row was read whose role it carries. */
  datatype Machine = Machine(s: State, calls: map<int, Call>, readAt: map<Uuid, Time>)

  datatype Action =
    | Begin(call: int, op: Op)
    | Advance(call: int, access: Uuid, refresh: Uuid)
    | Stop(call: int)
    | Wait(until: Time)

  /** What happens before the first store call: parsing and, for most calls, the middleware. */
  function First(s: State, op: Op): Call {
    match op
    case Login(id, password, _, _) => SigningIn(id, password)
    case RefreshSession(token, _, _) =>
      if Parse(token, Issued(s.history, token), Refresh, s.now).Ok? then Presented(token) else Over
    case Logout(bearer, refreshToken) =>
      if Authenticate(s, bearer, s.now) then SigningOut(bearer, refreshToken) else Over
    case LogoutAll(bearer) =>
      if Authenticate(s, bearer, s.now) then Dropping(bearer.subject, None) else Over
    case ChangePassword(bearer, current, next, _, _) =>
      if Authenticate(s, bearer, s.now) then ChangingPassword(bearer.subject, current, next) else Over
    case UpdateUser(bearer, id, change) =>
      if !Authenticate(s, bearer, s.now) then Over
      else if bearer.role != RoleAdmin && (bearer.subject != id || change.IsPrivileged()) then Over
      else if change.NamesNoRole() || (bearer.subject == id && change.Deactivates()) then Over
      else UpdatingUser(id, change)
    case DeleteUser(bearer, id) =>
      if !Authenticate(s, bearer, s.now) then Over
      else if bearer.role != RoleAdmin && bearer.subject != id then Over
      else if bearer.role == RoleAdmin && bearer.subject == id then Over
      else DeletingUser(id)
    // One transaction each:
    case ResetPassword(id, _) => if id in s.users then Dropping(id, None) else Over
    case Register(_, _, _, _) => Over
    case VerifyEmail(_) => Over
  }

  function Started(s: State, op: Op): State {
    match op
    case Register(id, password, fullName, role) =>
      if KnownId(s.history, id) then s else DoRegister(s, id, password, fullName, role).0
    case VerifyEmail(id) => DoVerifyEmail(s, id).0
    case ResetPassword(id, next) => if id in s.users then SetAccount(s, id, s.users[id].(password := Some(next))) else s
    case _ => s
  }

  /** The next store call, with newly generated ids in case it needs them. */
  function Step(c: Config, s: State, call: Call, access: Uuid, refresh: Uuid): (State, Call) {
    match call
    case SigningIn(id, password) =>
      if id !in s.users || s.users[id].password != Some(password) || !s.users[id].active || !s.users[id].verified
        then (s, Over)
      else (s, Minting(id, Read(s.users[id].role, s.now), None))
    case Minting(id, read, family) =>
      if !FreshPair(s.history, access, refresh) then (s, call)
      else
        var pair := GenerateTokenPair(c, s.now, id, read.role, access, refresh);
        (Record(s, Minted(pair.access, pair.refresh, Coalesce(family, refresh))),
         Storing(pair.refresh, pair.refreshExpiresAt))
    case Storing(token, expiresAt) =>
      var keys := StoreRefreshToken(c, s.keys, s.now, token.subject, token.jti, expiresAt);
      (Record(s.(keys := keys), Stored(token.subject, token.jti)), Over)
    case Presented(token) =>
      var looked := s.(keys := AfterActiveCheck(s.keys, s.now, token.subject, token.jti));
      (looked,
       if IsRefreshTokenActive(s.keys, s.now, token.subject, token.jti) then Found(token)
       else Dropping(token.subject, None))
    case Found(token) =>
      if token.subject !in s.users then (s, Over)
      else if !s.users[token.subject].active then (s, Dropping(token.subject, None))
      else (s, Rotating(token, Read(s.users[token.subject].role, s.now)))
    case Rotating(token, read) =>
      (RevokeOne(s, token.subject, token.jti), Minting(token.subject, read, FamilyOf(s.history, token.jti)))
    case ChangingPassword(id, current, next) =>
      if id !in s.users || s.users[id].password != Some(current) || current == next then (s, Over)
      else (s, SettingPassword(id, Read(s.users[id].role, s.now), next))
    case SettingPassword(id, read, next) =>
      (if id in s.users then SetAccount(s, id, s.users[id].(password := Some(next))) else s, Dropping(id, Some(read)))
    case Dropping(id, mintFor) =>
      (RevokeAll(c, s, id), if mintFor.Some? then Minting(id, mintFor.value, None) else Over)
    case SigningOut(bearer, refreshToken) =>
      var s1 :=
        if && refreshToken.Some?
           && Parse(refreshToken.value, Issued(s.history, refreshToken.value), Refresh, s.now).Ok?
           && refreshToken.value.subject == bearer.subject
        then RevokeOne(s, bearer.subject, refreshToken.value.jti) else s;
      (s1, Blacklisting(bearer, bearer.exp * SECOND - s.now))
    case Blacklisting(bearer, ttl) =>
      (Record(s.(keys := BlacklistAccessToken(s.keys, s.now, bearer.jti, ttl)), AccessRevoked(bearer.jti)), Over)
    case UpdatingUser(id, change) =>
      if id !in s.users then (s, Over)
      else (Changed(s, id, Updated(s.users[id], change)), if change.EndsSessions() then Dropping(id, None) else Over)
    case DeletingUser(id) =>
      if id !in s.users then (s, Over) else (s.(users := s.users - {id}), Dropping(id, None))
    case Over => (s, Over)
  }

  function Next(c: Config, m: Machine, a: Action): Machine {
    match a
    case Begin(i, op) =>
      if i in m.calls then m else Machine(Started(m.s, op), m.calls[i := First(m.s, op)], m.readAt)
    case Advance(i, access, refresh) =>
      if i !in m.calls then m
      else
        var (s, call) := Step(c, m.s, m.calls[i], access, refresh);
        var minted := m.calls[i].Minting? && call.Storing?;
        Machine(s, m.calls[i := call], if minted then m.readAt[access := m.calls[i].read.at] else m.readAt)
    case Stop(i) => m.(calls := m.calls - {i})
    case Wait(until) => if m.s.now <= until then m.(s := m.s.(now := until)) else m
  }

  function Run(c: Config, m: Machine, actions: seq<Action>): Machine
    decreases |actions|
  {
    if actions == [] then m else Run(c, Next(c, m, actions[0]), actions[1..])
  }

  // ---- What every interleaving keeps ----------------------------------------------------

  /** The part of the invariant that needs no call to be atomic. */
  ghost predicate Core(c: Config, s: State) {
    && TokenInv(c, s.history, s.now)
    && EpochInv(c, s.history, s.keys.revoked, s.now)
    && BlacklistInv(s.history, s.keys.blacklist, s.now)
    && (forall u :: u in s.users ==> KnownId(s.history, u) && (s.users[u].verified ==> WasVerified(s.history, u)))
  }

  /** The refresh token was registered and not revoked, alone or with all others, since. */
  predicate Kept(h: History, id: Uuid, jti: Uuid) {
    match h
    case Nothing => false
    case Then(past, Stored(u, j)) => (u == id && j == jti) || Kept(past, id, jti)
    case Then(past, RefreshRevoked(u, j)) => !(u == id && j == jti) && Kept(past, id, jti)
    case Then(past, AllRevoked(u, _)) => u != id && Kept(past, id, jti)
    case Then(past, _) => Kept(past, id, jti)
  }

  /** A stored field is known, does not outlive its key, and is kept while the key is alive. */
  predicate FieldFits(h: History, u: Uuid, j: Uuid, expiry: int, deadline: Time, now: Time) {
    KnownJti(h, j) && expiry * SECOND <= deadline && (now < deadline ==> Kept(h, u, j))
  }

  /** An issued token's field holds its exp, and is there while the token is kept and unexpired. */
  predicate TokenFits(h: History, sessions: map<Uuid, Entry<map<Uuid, int>>>, t: Claims, now: Time) {
    var stored := t.subject in sessions && t.jti in sessions[t.subject].value;
    (stored ==> sessions[t.subject].value[t.jti] == t.exp)
    && (Kept(h, t.subject, t.jti) && Unix(now) < t.exp ==> stored)
  }

  /** The session hashes against the tokens kept. */
  ghost predicate HashInv(c: Config, h: History, sessions: map<Uuid, Entry<map<Uuid, int>>>, now: Time) {
    && (forall u :: u in sessions ==> sessions[u].deadline <= now + c.refresh + HOUR)
    && (forall u, j :: u in sessions && j in sessions[u].value ==>
          FieldFits(h, u, j, sessions[u].value[j], sessions[u].deadline, now))
    && (forall u, j :: Kept(h, u, j) ==> KnownJti(h, j))
    && (forall t :: Issued(h, t) && t.typ == Refresh ==> TokenFits(h, sessions, t, now))
  }

  /** The role did not change at or after that instant. */
  predicate SettledBefore(h: History, id: Uuid, at: Time) {
    LastRoleChange(h, id).None? || LastRoleChange(h, id).value < at
  }

  /** What was read is what the row still says, unless the role changed since. */
  predicate Fits(s: State, id: Uuid, read: Read) {
    && read.at <= s.now && KnownId(s.history, id)
    && (id in s.users && SettledBefore(s.history, id, read.at) ==> read.role == s.users[id].role)
  }

  ghost predicate RolesInv(s: State, readAt: map<Uuid, Time>) {
    && (forall u :: LastRoleChange(s.history, u).Some? ==> LastRoleChange(s.history, u).value <= s.now)
    && (forall t :: Issued(s.history, t) && t.typ == Access ==>
          t.jti in readAt && Fits(s, t.subject, Read(t.role, readAt[t.jti])))
  }

  /** What a call has made sure of so far. */
  predicate Sound(c: Config, s: State, call: Call) {
    var h := s.history;
    match call
    case Minting(id, read, _) => WasVerified(h, id) && Fits(s, id, read)
    case Storing(token, expiresAt) =>
      Issued(h, token) && token.typ == Refresh && token.exp == Unix(expiresAt) && expiresAt <= s.now + c.refresh
    case Dropping(id, mintFor) => mintFor.Some? ==> WasVerified(h, id) && Fits(s, id, mintFor.value)
    case ChangingPassword(id, _, _) => KnownId(h, id) && WasVerified(h, id)
    case SettingPassword(id, read, _) => WasVerified(h, id) && Fits(s, id, read)
    case Presented(token) => Issued(h, token) && token.typ == Refresh
    case Found(token) => Issued(h, token) && token.typ == Refresh
    case Rotating(token, read) => Issued(h, token) && token.typ == Refresh && Fits(s, token.subject, read)
    case SigningOut(bearer, _) => Issued(h, bearer)
    case Blacklisting(bearer, ttl) => Issued(h, bearer) && bearer.exp * SECOND <= s.now + ttl
    case _ => true
  }

  ghost predicate Inv(c: Config, m: Machine) {
    && Core(c, m.s)
    && HashInv(c, m.s.history, m.s.keys.sessions, m.s.now)
    && RolesInv(m.s, m.readAt)
    && forall i :: i in m.calls ==> Sound(c, m.s, m.calls[i])
  }

  /** At most one fact more, and rows whose role differs say so. */
  ghost predicate Grows(s': State, s: State) {
    && s'.now == s.now
    && (s'.history == s.history || (s'.history.Then? && s'.history.past == s.history))
    && (forall u :: RoleFollows(s', s, u))
  }

  predicate RoleFollows(s': State, s: State, u: Uuid) {
    || LastRoleChange(s'.history, u) == Some(s'.now)
    || (&& LastRoleChange(s'.history, u) == LastRoleChange(s.history, u)
        && (u in s'.users && KnownId(s.history, u) ==> u in s.users && s'.users[u].role == s.users[u].role))
  }

  lemma FitsStays(s': State, s: State, id: Uuid, read: Read)
    requires Grows(s', s) && Fits(s, id, read)
    ensures Fits(s', id, read)
  {
    assert RoleFollows(s', s, id);
  }

  lemma SoundStays(c: Config, s': State, s: State, call: Call)
    requires Grows(s', s) && Sound(c, s, call)
    ensures Sound(c, s', call)
  {
    match call
    case Minting(id, read, _) => FitsStays(s', s, id, read);
    case Dropping(id, mintFor) => if mintFor.Some? { FitsStays(s', s, id, mintFor.value); }
    case SettingPassword(id, read, _) => FitsStays(s', s, id, read);
    case Rotating(token, read) => FitsStays(s', s, token.subject, read);
    case _ =>
  }

  /** Facts that touch neither tokens nor the keys that decide about access tokens. */
  lemma FactKeeps(c: Config, s: State, s': State, f: Fact)
    requires Core(c, s) && !f.Minted? && !f.AllRevoked? && !f.AccessRevoked?
    requires s'.history == Then(s.history, f) && s'.now == s.now
    requires s'.keys.revoked == s.keys.revoked && s'.keys.blacklist == s.keys.blacklist
    requires forall u :: u in s'.users ==> 
      KnownId(s'.history, u) && (s'.users[u].verified ==> WasVerified(s'.history, u))
    ensures Core(c, s')
  {
    TokenFrame(c, s.history, f, s.now);
    EpochFrame(c, s.history, f, s.keys.revoked, s.now);
    BlacklistFrame(s.history, f, s.keys.blacklist, s.now);
  }

  lemma MintKeeps(c: Config, s: State, call: Call, access: Uuid, refresh: Uuid)
    requires Core(c, s) && call.Minting? && Sound(c, s, call) && FreshPair(s.history, access, refresh)
    ensures Core(c, Step(c, s, call, access, refresh).0)
  {
    var pair := GenerateTokenPair(c, s.now, call.id, call.read.role, access, refresh);
    var family := Coalesce(call.family, refresh);
    var f := Minted(pair.access, pair.refresh, family);
    TokenMint(c, s.history, s.now, call.id, call.read.role, access, refresh, family);
    EpochFrame(c, s.history, f, s.keys.revoked, s.now);
    BlacklistMint(s.history, s.keys.blacklist, s.now, pair.access, pair.refresh, family);
    assert forall u :: WasVerified(Then(s.history, f), u) <==> WasVerified(s.history, u);
    assert forall u :: KnownId(Then(s.history, f), u) <==> KnownId(s.history, u);
  }

  lemma StoreKeeps(c: Config, s: State, call: Call)
    requires Core(c, s) && call.Storing?
    ensures Core(c, Step(c, s, call, 0, 0).0)
  {
    var f := Stored(call.token.subject, call.token.jti);
    assert forall u :: WasVerified(Then(s.history, f), u) <==> WasVerified(s.history, u);
    assert forall u :: KnownId(Then(s.history, f), u) <==> KnownId(s.history, u);
    FactKeeps(c, s, Step(c, s, call, 0, 0).0, f);
  }

  lemma DropKeeps(c: Config, s: State, id: Uuid)
    requires Core(c, s)
    ensures Core(c, RevokeAll(c, s, id))
  {
    var f := AllRevoked(id, s.now);
    TokenFrame(c, s.history, f, s.now);
    EpochRevokeAll(c, s.history, s.keys, s.now, id);
    BlacklistFrame(s.history, f, s.keys.blacklist, s.now);
    assert forall u :: WasVerified(Then(s.history, f), u) <==> WasVerified(s.history, u);
    assert forall u :: KnownId(Then(s.history, f), u) <==> KnownId(s.history, u);
  }

  lemma BlacklistKeeps(c: Config, s: State, call: Call)
    requires Core(c, s) && call.Blacklisting? && Sound(c, s, call)
    ensures Core(c, Step(c, s, call, 0, 0).0)
  {
    var f := AccessRevoked(call.bearer.jti);
    TokenFrame(c, s.history, f, s.now);
    EpochFrame(c, s.history, f, s.keys.revoked, s.now);
    BlacklistAdd(c, s.history, s.keys, s.now, call.bearer, call.ttl);
    assert forall u :: WasVerified(Then(s.history, f), u) <==> WasVerified(s.history, u);
    assert forall u :: KnownId(Then(s.history, f), u) <==> KnownId(s.history, u);
  }

  lemma RevokeOneKeeps(c: Config, s: State, id: Uuid, jti: Uuid)
    requires Core(c, s)
    ensures Core(c, RevokeOne(s, id, jti))
  {
    var f := RefreshRevoked(id, jti);
    assert forall u :: WasVerified(Then(s.history, f), u) <==> WasVerified(s.history, u);
    assert forall u :: KnownId(Then(s.history, f), u) <==> KnownId(s.history, u);
    FactKeeps(c, s, RevokeOne(s, id, jti), f);
  }

  lemma UpdateKeeps(c: Config, s: State, id: Uuid, a: Account)
    requires Core(c, s) && id in s.users && a.verified == s.users[id].verified
    ensures Core(c, Changed(s, id, a))
  {
    if a.role != s.users[id].role {
      var f := RoleChanged(id, s.now);
      assert forall u :: WasVerified(Then(s.history, f), u) <==> WasVerified(s.history, u);
      assert forall u :: KnownId(Then(s.history, f), u) <==> KnownId(s.history, u);
      FactKeeps(c, s, Changed(s, id, a), f);
    }
  }

  lemma StepKeeps(c: Config, s: State, call: Call, access: Uuid, refresh: Uuid)
    requires Core(c, s) && Sound(c, s, call)
    ensures Core(c, Step(c, s, call, access, refresh).0)
  {
    match call
    case Minting(_, _, _) =>
      if FreshPair(s.history, access, refresh) { MintKeeps(c, s, call, access, refresh); }
    case Storing(_, _) => StoreKeeps(c, s, call);
    case Rotating(token, _) => RevokeOneKeeps(c, s, token.subject, token.jti);
    case SigningOut(bearer, refreshToken) =>
      if refreshToken.Some? { RevokeOneKeeps(c, s, bearer.subject, refreshToken.value.jti); }
    case Dropping(id, _) => DropKeeps(c, s, id);
    case Blacklisting(_, _) => BlacklistKeeps(c, s, call);
    case UpdatingUser(id, change) =>
      if id in s.users { UpdateKeeps(c, s, id, Updated(s.users[id], change)); }
    case _ =>
  }

  /** Step by step a call makes sure of what its next step needs. */
  lemma StepIsSound(c: Config, s: State, call: Call, access: Uuid, refresh: Uuid)
    requires Core(c, s) && Sound(c, s, call)
    ensures Grows(Step(c, s, call, access, refresh).0, s)
    ensures Sound(c, Step(c, s, call, access, refresh).0, Step(c, s, call, access, refresh).1)
  {
    var s' := Step(c, s, call, access, refresh).0;
    assert Grows(s', s);
    SoundStays(c, s', s, call);
  }

  lemma BeginKeeps(c: Config, s: State, op: Op)
    requires Core(c, s)
    ensures Core(c, Started(s, op)) && Grows(Started(s, op), s)
  {
    match op
    case Register(id, _, _, _) =>
      if !KnownId(s.history, id) { FactKeeps(c, s, Started(s, op), AccountMade(id)); }
    case VerifyEmail(id) =>
      if id in s.users { FactKeeps(c, s, Started(s, op), EmailVerified(id)); }
    case _ =>
  }

  lemma FirstIsSound(c: Config, s: State, op: Op)
    requires Core(c, s)
    ensures Sound(c, Started(s, op), First(s, op))
  {
  }

  // ---- The session hashes ------------------------------------------------------------------

  /** Facts that say nothing about refresh tokens. */
  lemma HashFrame(c: Config, h: History, f: Fact, sessions: map<Uuid, Entry<map<Uuid, int>>>, now: Time)
    requires HashInv(c, h, sessions, now)
    requires !f.Minted? && !f.Stored? && !f.RefreshRevoked? && !f.AllRevoked?
    ensures HashInv(c, Then(h, f), sessions, now)
  {
    NotMinted(h, f);
    assert forall u, j :: Kept(Then(h, f), u, j) <==> Kept(h, u, j);
  }

  lemma HashMint(
      c: Config, h: History, sessions: map<Uuid, Entry<map<Uuid, int>>>, now: Time, a: Claims, r: Claims, family: Uuid)
    requires HashInv(c, h, sessions, now) && FreshPair(h, a.jti, r.jti)
    ensures HashInv(c, Then(h, Minted(a, r, family)), sessions, now)
  {
    OneMinted(h, a, r, family);
    assert forall u, j :: Kept(Then(h, Minted(a, r, family)), u, j) <==> Kept(h, u, j);
  }

  /** HSET adds one field to what is alive of the hash, and EXPIRE re-arms it. */
  lemma OneFieldComes(c: Config, k: Keys, now: Time, id: Uuid, jti: Uuid, expiresAt: Time)
    ensures var before, after := k.sessions, StoreRefreshToken(c, k, now, id, jti, expiresAt).sessions;
      && id in after && after[id].deadline == now + c.refresh + HOUR
      && (forall u :: u != id ==> (u in after <==> u in before) && (u in after ==> after[u] == before[u]))
      && (forall j :: j in after[id].value <==> j == jti || (Live(before, id, now) && j in before[id].value))
      && (forall j :: j in after[id].value ==>
            after[id].value[j] == if j == jti then Unix(expiresAt) else before[id].value[j])
  {
  }

  lemma HashGainsOne(
      c: Config, h: History, before: map<Uuid, Entry<map<Uuid, int>>>, after: map<Uuid, Entry<map<Uuid, int>>>,
      now: Time,
      t: Claims, expiresAt: Time)
    requires TokenInv(c, h, now) && HashInv(c, h, before, now)
    requires Issued(h, t) && t.typ == Refresh && t.exp == Unix(expiresAt) && expiresAt <= now + c.refresh
    requires t.subject in after && after[t.subject].deadline == now + c.refresh + HOUR
    requires forall u :: u != t.subject ==> (u in after <==> u in before) && (u in after ==> after[u] == before[u])
    requires forall j :: j in after[t.subject].value <==>
      j == t.jti || (Live(before, t.subject, now) && j in before[t.subject].value)
    requires t.jti in after[t.subject].value && after[t.subject].value[t.jti] == t.exp
    requires forall j :: j in after[t.subject].value && j != t.jti ==>
      t.subject in before && j in before[t.subject].value && after[t.subject].value[j] == before[t.subject].value[j]
    ensures HashInv(c, Then(h, Stored(t.subject, t.jti)), after, now)
  {
    var f := Stored(t.subject, t.jti);
    NotMinted(h, f);
    assert forall u, j :: Kept(Then(h, f), u, j) <==> (u == t.subject && j == t.jti) || Kept(h, u, j);
  }

  lemma HashStore(c: Config, h: History, k: Keys, now: Time, token: Claims, expiresAt: Time)
    requires TokenInv(c, h, now) && HashInv(c, h, k.sessions, now)
    requires Issued(h, token) && token.typ == Refresh && token.exp == Unix(expiresAt) && expiresAt <= now + c.refresh
    ensures HashInv(c, Then(h, Stored(token.subject, token.jti)),
                    StoreRefreshToken(c, k, now, token.subject, token.jti, expiresAt).sessions, now)
  {
    var after := StoreRefreshToken(c, k, now, token.subject, token.jti, expiresAt).sessions;
    OneFieldComes(c, k, now, token.subject, token.jti, expiresAt);
    HashGainsOne(c, h, k.sessions, after, now, token, expiresAt);
  }

  lemma HashLosesOne(
      c: Config, h: History, before: map<Uuid, Entry<map<Uuid, int>>>, after: map<Uuid, Entry<map<Uuid, int>>>,
      now: Time,
      id: Uuid, jti: Uuid)
    requires HashInv(c, h, before, now)
    requires forall u :: u in after ==> u in before && after[u].deadline == before[u].deadline
    requires forall u, j :: u in after && j in after[u].value ==>
      && j in before[u].value && after[u].value[j] == before[u].value[j]
      && (Live(before, u, now) ==> !(u == id && j == jti))
    requires forall u, j :: u in before && j in before[u].value && !(u == id && j == jti) ==>
      u in after && j in after[u].value
    ensures HashInv(c, Then(h, RefreshRevoked(id, jti)), after, now)
  {
    var f := RefreshRevoked(id, jti);
    NotMinted(h, f);
    assert forall u, j :: Kept(Then(h, f), u, j) <==> Kept(h, u, j) && !(u == id && j == jti);
  }

  lemma HashRevokeOne(c: Config, h: History, k: Keys, now: Time, id: Uuid, jti: Uuid)
    requires HashInv(c, h, k.sessions, now)
    ensures HashInv(c, Then(h, RefreshRevoked(id, jti)), RevokeRefreshToken(k, now, id, jti).sessions, now)
  {
    OneFieldGoes(k, now, id, jti);
    HashLosesOne(c, h, k.sessions, RevokeRefreshToken(k, now, id, jti).sessions, now, id, jti);
  }

  lemma HashRevokeAll(c: Config, h: History, k: Keys, now: Time, id: Uuid)
    requires HashInv(c, h, k.sessions, now)
    ensures HashInv(c, Then(h, AllRevoked(id, now)), RevokeAllSessions(c, k, now, id).sessions, now)
  {
    var f := AllRevoked(id, now);
    NotMinted(h, f);
    assert forall u, j :: Kept(Then(h, f), u, j) <==> Kept(h, u, j) && u != id;
  }

  /** The clean-up of a field found expired loses nothing that is alive. */
  lemma HashCleanUp(c: Config, h: History, k: Keys, now: Time, id: Uuid, jti: Uuid)
    requires TokenInv(c, h, now) && HashInv(c, h, k.sessions, now)
    ensures HashInv(c, h, AfterActiveCheck(k, now, id, jti).sessions, now)
  {
    OneFieldGoes(k, now, id, jti);
  }

  lemma StepKeepsHashes(c: Config, s: State, call: Call, access: Uuid, refresh: Uuid)
    requires Core(c, s) && Sound(c, s, call) && HashInv(c, s.history, s.keys.sessions, s.now)
    ensures var s' := Step(c, s, call, access, refresh).0; HashInv(c, s'.history, s'.keys.sessions, s'.now)
  {
    var h, k, now := s.history, s.keys, s.now;
    match call
    case Minting(id, read, family) =>
      var pair := GenerateTokenPair(c, now, id, read.role, access, refresh);
      if FreshPair(h, access, refresh) {
        HashMint(c, h, k.sessions, now, pair.access, pair.refresh, Coalesce(family, refresh));
      }
    case Storing(token, expiresAt) => HashStore(c, h, k, now, token, expiresAt);
    case Presented(token) => HashCleanUp(c, h, k, now, token.subject, token.jti);
    case Rotating(token, _) => HashRevokeOne(c, h, k, now, token.subject, token.jti);
    case SigningOut(bearer, refreshToken) =>
      if refreshToken.Some? { HashRevokeOne(c, h, k, now, bearer.subject, refreshToken.value.jti); }
    case Dropping(id, _) => HashRevokeAll(c, h, k, now, id);
    case Blacklisting(bearer, _) => HashFrame(c, h, AccessRevoked(bearer.jti), k.sessions, now);
    case UpdatingUser(id, _) => HashFrame(c, h, RoleChanged(id, now), k.sessions, now);
    case _ =>
  }

  lemma BeginKeepsHashes(c: Config, s: State, op: Op)
    requires HashInv(c, s.history, s.keys.sessions, s.now)
    ensures HashInv(c, Started(s, op).history, s.keys.sessions, s.now)
  {
    match op
    case Register(id, _, _, _) => HashFrame(c, s.history, AccountMade(id), s.keys.sessions, s.now);
    case VerifyEmail(id) => HashFrame(c, s.history, EmailVerified(id), s.keys.sessions, s.now);
    case _ =>
  }

  // ---- Roles ---------------------------------------------------------------------------------

  lemma RolesStay(c: Config, s': State, s: State, readAt: map<Uuid, Time>)
    requires RolesInv(s, readAt) && Grows(s', s) && (forall t :: Issued(s'.history, t) <==> Issued(s.history, t))
    ensures RolesInv(s', readAt)
  {
    forall t | Issued(s'.history, t) && t.typ == Access
      ensures t.jti in readAt && Fits(s', t.subject, Read(t.role, readAt[t.jti]))
    {
      FitsStays(s', s, t.subject, Read(t.role, readAt[t.jti]));
    }
    forall u | LastRoleChange(s'.history, u).Some? ensures LastRoleChange(s'.history, u).value <= s'.now {
      assert RoleFollows(s', s, u);
    }
  }

  lemma RolesMint(c: Config, s: State, call: Call, access: Uuid, refresh: Uuid, readAt: map<Uuid, Time>)
    requires Core(c, s) && RolesInv(s, readAt) && call.Minting? && Sound(c, s, call)
    requires FreshPair(s.history, access, refresh)
    ensures RolesInv(Step(c, s, call, access, refresh).0, readAt[access := call.read.at])
  {
    var pair := GenerateTokenPair(c, s.now, call.id, call.read.role, access, refresh);
    var f := Minted(pair.access, pair.refresh, Coalesce(call.family, refresh));
    OneMinted(s.history, pair.access, pair.refresh, Coalesce(call.family, refresh));
    NotRevoked(s.history, f);
    assert forall u :: KnownId(Then(s.history, f), u) <==> KnownId(s.history, u);
  }

  lemma IssuedStays(c: Config, s: State, call: Call, access: Uuid, refresh: Uuid)
    requires !call.Minting?
    ensures forall t :: Issued(Step(c, s, call, access, refresh).0.history, t) <==> Issued(s.history, t)
  {
  }

  lemma StepKeepsRoles(c: Config, m: Machine, i: int, access: Uuid, refresh: Uuid)
    requires Core(c, m.s) && RolesInv(m.s, m.readAt) && i in m.calls && Sound(c, m.s, m.calls[i])
    ensures var m' := Next(c, m, Advance(i, access, refresh)); RolesInv(m'.s, m'.readAt)
  {
    var call := m.calls[i];
    if call.Minting? {
      if FreshPair(m.s.history, access, refresh) {
        RolesMint(c, m.s, call, access, refresh, m.readAt);
      }
    } else {
      StepIsSound(c, m.s, call, access, refresh);
      IssuedStays(c, m.s, call, access, refresh);
      RolesStay(c, Step(c, m.s, call, access, refresh).0, m.s, m.readAt);
    }
  }

  lemma BeginKeepsRoles(c: Config, s: State, op: Op, readAt: map<Uuid, Time>)
    requires Core(c, s) && RolesInv(s, readAt)
    ensures RolesInv(Started(s, op), readAt)
  {
    BeginKeeps(c, s, op);
    assert forall t :: Issued(Started(s, op).history, t) <==> Issued(s.history, t);
    RolesStay(c, Started(s, op), s, readAt);
  }

  // ---- Every action ----------------------------------------------------------------------------

  lemma BeginActionKeeps(c: Config, m: Machine, i: int, op: Op)
    requires Inv(c, m)
    ensures Inv(c, Next(c, m, Begin(i, op)))
  {
    BeginKeeps(c, m.s, op);
    BeginKeepsHashes(c, m.s, op);
    BeginKeepsRoles(c, m.s, op, m.readAt);
    FirstIsSound(c, m.s, op);
    CallsStaySound(c, Next(c, m, Begin(i, op)), m, i);
  }

  lemma AdvanceKeeps(c: Config, m: Machine, i: int, access: Uuid, refresh: Uuid)
    requires Inv(c, m) && i in m.calls
    ensures Inv(c, Next(c, m, Advance(i, access, refresh)))
  {
    StepKeeps(c, m.s, m.calls[i], access, refresh);
    StepKeepsHashes(c, m.s, m.calls[i], access, refresh);
    StepKeepsRoles(c, m, i, access, refresh);
    StepIsSound(c, m.s, m.calls[i], access, refresh);
    CallsStaySound(c, Next(c, m, Advance(i, access, refresh)), m, i);
  }

  lemma HashWaits(c: Config, h: History, sessions: map<Uuid, Entry<map<Uuid, int>>>, now: Time, until: Time)
    requires HashInv(c, h, sessions, now) && now <= until
    ensures HashInv(c, h, sessions, until)
  {
  }

  lemma CoreWaits(c: Config, s: State, until: Time)
    requires Core(c, s) && s.now <= until
    ensures Core(c, s.(now := until))
  {
  }

  lemma SoundWaits(c: Config, s: State, call: Call, until: Time)
    requires Sound(c, s, call) && s.now <= until
    ensures Sound(c, s.(now := until), call)
  {
  }

  lemma RolesWait(s: State, readAt: map<Uuid, Time>, until: Time)
    requires RolesInv(s, readAt) && s.now <= until
    ensures RolesInv(s.(now := until), readAt)
  {
  }

  lemma WaitKeeps(c: Config, m: Machine, until: Time)
    requires Inv(c, m) && m.s.now <= until
    ensures Inv(c, Next(c, m, Wait(until)))
  {
    CoreWaits(c, m.s, until);
    HashWaits(c, m.s.history, m.s.keys.sessions, m.s.now, until);
    RolesWait(m.s, m.readAt, until);
    forall i | i in m.calls ensures Sound(c, m.s.(now := until), m.calls[i]) {
      SoundWaits(c, m.s, m.calls[i], until);
    }
  }

  lemma NextKeeps(c: Config, m: Machine, a: Action)
    requires Inv(c, m)
    ensures Inv(c, Next(c, m, a))
  {
    match a
    case Begin(i, op) => if i !in m.calls { BeginActionKeeps(c, m, i, op); }
    case Advance(i, access, refresh) => if i in m.calls { AdvanceKeeps(c, m, i, access, refresh); }
    case Wait(until) => if m.s.now <= until { WaitKeeps(c, m, until); }
    case Stop(_) =>
  }

  /** What one call relies on no step of another call takes away. */
  lemma CallsStaySound(c: Config, m': Machine, m: Machine, i: int)
    requires Grows(m'.s, m.s) && forall j :: j in m.calls ==> Sound(c, m.s, m.calls[j])
    requires forall j :: j in m'.calls && j != i ==> j in m.calls && m'.calls[j] == m.calls[j]
    ensures forall j :: j in m'.calls && j != i ==> Sound(c, m'.s, m'.calls[j])
  {
    forall j | j in m'.calls && j != i ensures Sound(c, m'.s, m'.calls[j]) {
      SoundStays(c, m'.s, m.s, m.calls[j]);
    }
  }

  lemma {:induction false} RunKeeps(c: Config, m: Machine, actions: seq<Action>)
    requires Inv(c, m)
    ensures Inv(c, Run(c, m, actions))
    decreases |actions|
  {
    if actions != [] {
      NextKeeps(c, m, actions[0]);
      RunKeeps(c, Next(c, m, actions[0]), actions[1..]);
    }
  }

  lemma {:induction false} HistoryOnlyGrows(c: Config, m: Machine, actions: seq<Action>)
    requires Inv(c, m)
    ensures Extends(Run(c, m, actions).s.history, m.s.history)
    decreases |actions|
  {
    if actions != [] {
      var m' := Next(c, m, actions[0]);
      NextKeeps(c, m, actions[0]);
      HistoryOnlyGrows(c, m', actions[1..]);
      OneStepExtends(c, m, actions[0]);
      AuthTheorems.ExtendsIsTransitive(Run(c, m, actions).s.history, m'.s.history, m.s.history);
    }
  }

  lemma OneStepExtends(c: Config, m: Machine, a: Action)
    requires Inv(c, m)
    ensures Extends(Next(c, m, a).s.history, m.s.history)
  {
    match a
    case Begin(_, op) => BeginKeeps(c, m.s, op);
    case Advance(i, access, refresh) =>
      if i in m.calls { StepIsSound(c, m.s, m.calls[i], access, refresh); }
    case _ =>
  }

  // ---- Results ------------------------------------------------------------------------------

  function Idle(at: Time): Machine {
    Machine(Start(at), map[], map[])
  }

  lemma IdleIsGood(c: Config, at: Time)
    ensures Inv(c, Idle(at))
  {
  }

  /**
   * However calls interleave and wherever they stop, the expiring keys decide
   * about an access token exactly as the full history does.
   */
  lemma AcceptedIffHistoryAllows(c: Config, start: Time, actions: seq<Action>, t: Claims, at: Time)
    requires var s := Run(c, Idle(start), actions).s; s.now <= at && Issued(s.history, t) && t.typ == Access
    ensures var s := Run(c, Idle(start), actions).s;
      Authenticate(s, t, at) <==>
        && at < t.exp * SECOND
        && !LoggedOut(s.history, t.jti)
        && !RevokedAfter(s.history, t.subject, t.iat)
  {
    IdleIsGood(c, start);
    RunKeeps(c, Idle(start), actions);
    Decides(c, Run(c, Idle(start), actions).s, t, at);
  }

  lemma Decides(c: Config, s: State, t: Claims, at: Time)
    requires Core(c, s) && s.now <= at && Issued(s.history, t) && t.typ == Access
    ensures Authenticate(s, t, at) <==>
      at < t.exp * SECOND && !LoggedOut(s.history, t.jti) && !RevokedAfter(s.history, t.subject, t.iat)
  {
    AuthTheorems.KeysDecide(c, s, t, at);
  }

  /** ... and a rejected token stays rejected in every continuation. */
  lemma RejectionIsPermanent(
      c: Config, start: Time, actions: seq<Action>, more: seq<Action>, t: Claims, at: Time, later: Time)
    requires var s := Run(c, Idle(start), actions).s; s.now <= at && Issued(s.history, t) && !Authenticate(s, t, at)
    requires at <= later && Run(c, Run(c, Idle(start), actions), more).s.now <= later
    ensures !Authenticate(Run(c, Run(c, Idle(start), actions), more).s, t, later)
  {
    var m := Run(c, Idle(start), actions);
    var m' := Run(c, m, more);
    if t.typ == Access {
      IdleIsGood(c, start);
      RunKeeps(c, Idle(start), actions);
      RunKeeps(c, m, more);
      HistoryOnlyGrows(c, m, more);
      AuthTheorems.HistoryNeverForgets(m'.s.history, m.s.history, t);
      Decides(c, m.s, t, at);
      Decides(c, m'.s, t, later);
    }
  }

  /** No interleaving mints a token for an account whose address was not verified before. */
  lemma OnlyVerifiedAccountsGetTokens(c: Config, start: Time, actions: seq<Action>)
    ensures VerifiedBeforeMinting(Run(c, Idle(start), actions).s.history)
  {
    IdleIsGood(c, start);
    RunKeeps(c, Idle(start), actions);
  }

  /** The session hash is the set of live refresh tokens in all of those runs, too. */
  lemma ActiveIffKeptAndUnexpired(c: Config, start: Time, actions: seq<Action>, t: Claims, at: Time)
    requires var s := Run(c, Idle(start), actions).s; s.now <= at && Issued(s.history, t) && t.typ == Refresh
    ensures var s := Run(c, Idle(start), actions).s;
      IsRefreshTokenActive(s.keys, at, t.subject, t.jti) <==> Kept(s.history, t.subject, t.jti) && at < t.exp * SECOND
  {
    IdleIsGood(c, start);
    RunKeeps(c, Idle(start), actions);
    HashDecides(c, Run(c, Idle(start), actions).s, t, at);
  }

  lemma HashDecides(c: Config, s: State, t: Claims, at: Time)
    requires HashInv(c, s.history, s.keys.sessions, s.now) && s.now <= at && Issued(s.history, t) && t.typ == Refresh
    ensures IsRefreshTokenActive(s.keys, at, t.subject, t.jti) <==>
      Kept(s.history, t.subject, t.jti) && at < t.exp * SECOND
  {
  }

  /**
   * An accepted token carries the account's current role, unless the role was
   * changed only after the row was read that the token was made from. Even
   * then it was issued in or after the second of the latest revocation.
   */
  lemma AcceptedRoleIsTheOneRead(c: Config, start: Time, actions: seq<Action>, t: Claims, at: Time)
    requires var s := Run(c, Idle(start), actions).s; s.now <= at && Authenticate(s, t, at) && t.subject in s.users
    ensures var m := Run(c, Idle(start), actions); var changed := LastRoleChange(m.s.history, t.subject);
      && t.jti in m.readAt
      && (t.role == m.s.users[t.subject].role
          || (&& changed.Some? && m.readAt[t.jti] <= changed.value
              && !RevokedAfter(m.s.history, t.subject, t.iat)))
  {
    IdleIsGood(c, start);
    RunKeeps(c, Idle(start), actions);
    Decides(c, Run(c, Idle(start), actions).s, t, at);
  }
}
