/** What every step of the session protocol keeps. */
module AuthInvariant {
  import opened Clock
  import opened Redis
  import opened Wrappers
  import opened Jwt
  import opened SessionKeys
  import opened AuthProtocol

  /** Tokens are told apart by their jti, and their lifetime is bounded by the second they were issued in. */
  ghost predicate TokenInv(c: Config, h: History, now: Time) {
    && (forall t :: Issued(h, t) ==>
          && KnownJti(h, t.jti) && KnownId(h, t.subject) && WasVerified(h, t.subject)
          && t.iat <= Unix(now)
          && t.exp * SECOND < (t.iat + 1) * SECOND + if t.typ == Access then c.access else c.refresh)
    && (forall t, t' :: Issued(h, t) && Issued(h, t') && t.jti == t'.jti ==> t == t')
    && VerifiedBeforeMinting(h)
  }

  /** The epoch key holds the latest revocation, which is the one that reaches furthest. */
  ghost predicate EpochInv(c: Config, h: History, revoked: map<Uuid, Entry<int>>, now: Time) {
    && (forall u :: match LastRevocation(h, u)
          case None => u !in revoked
          case Some(at) => at <= now && u in revoked && revoked[u] == Entry(Unix(at - SECOND), at + c.refresh + HOUR))
    && (forall u, second :: RevokedAfter(h, u, second) <==>
          LastRevocation(h, u).Some? && second < Unix(LastRevocation(h, u).value))
  }

  /** A logged-out token stays on the blacklist for at least as long as it would have lived. */
  ghost predicate BlacklistInv(h: History, blacklist: map<Uuid, Entry<string>>, now: Time) {
    && (forall j :: j in blacklist ==> LoggedOut(h, j))
    && (forall j :: LoggedOut(h, j) ==> KnownJti(h, j))
    && (forall t :: Issued(h, t) && LoggedOut(h, t.jti) && now < t.exp * SECOND ==>
          t.jti in blacklist && t.exp * SECOND <= blacklist[t.jti].deadline)
  }

  /** The session hash of a user against the set of registered tokens. */
  ghost predicate HashInv(c: Config, h: History, sessions: map<Uuid, Entry<map<Uuid, int>>>, now: Time) {
    && (forall u :: u in sessions ==> sessions[u].deadline <= now + c.refresh + HOUR)
    && (forall u, j :: u in sessions && j in sessions[u].value ==>
          && sessions[u].value[j] * SECOND <= sessions[u].deadline
          && (now < sessions[u].deadline ==> Registered(h, u, j)))
    && (forall u, j :: Registered(h, u, j) ==> KnownJti(h, j))
    && (forall t, u :: Issued(h, t) && Registered(h, u, t.jti) ==> u == t.subject)
    && (forall t :: Issued(h, t) && t.typ == Refresh ==>
          && (t.subject in sessions && t.jti in sessions[t.subject].value ==> sessions[t.subject].value[t.jti] == t.exp)
          && (Registered(h, t.subject, t.jti) && Unix(now) < t.exp ==>
                t.subject in sessions && t.jti in sessions[t.subject].value))
  }

  /** Only the newest member of a rotation family can be registered. */
  ghost predicate FamilyInv(h: History) {
    && (forall j :: FamilyOf(h, j).Some? ==> KnownJti(h, j) && KnownJti(h, FamilyOf(h, j).value))
    && (forall t :: Issued(h, t) && t.typ == Refresh ==> FamilyOf(h, t.jti).Some?)
    && (forall u, j :: Registered(h, u, j) ==>
          FamilyOf(h, j).Some? && Newest(h, FamilyOf(h, j).value) == Some(j))
  }

  ghost predicate AccountInv(h: History, users: map<Uuid, Account>, now: Time) {
    && (forall u :: u in users ==> KnownId(h, u))
    && (forall u :: u in users && users[u].verified ==> WasVerified(h, u))
    && (forall u :: LastRoleChange(h, u).Some? ==> LastRoleChange(h, u).value <= now && KnownId(h, u))
    && (forall t :: Issued(h, t) && t.subject in users && RoleSettledBefore(h, t) ==> t.role == users[t.subject].role)
  }

  /** The account's role did not change in or after the second in which the token was issued. */
  ghost predicate RoleSettledBefore(h: History, t: Claims) {
    match LastRoleChange(h, t.subject)
    case None => true
    case Some(at) => Unix(at) < t.iat
  }

  /** Every change of role came with a revocation. */
  ghost predicate RoleRevokes(h: History) {
    forall u :: LastRoleChange(h, u).Some? ==>
      LastRevocation(h, u).Some? && LastRoleChange(h, u).value <= LastRevocation(h, u).value
  }

  ghost predicate Core(c: Config, s: State) {
    && TokenInv(c, s.history, s.now)
    && EpochInv(c, s.history, s.keys.revoked, s.now)
    && BlacklistInv(s.history, s.keys.blacklist, s.now)
    && HashInv(c, s.history, s.keys.sessions, s.now)
    && FamilyInv(s.history)
    && AccountInv(s.history, s.users, s.now)
  }

  ghost predicate Inv(c: Config, s: State) {
    Core(c, s) && RoleRevokes(s.history)
  }

  // ---- What one more fact changes ----------------------------------------------

  lemma NotMinted(h: History, f: Fact)
    requires !f.Minted?
    ensures forall t :: Issued(Then(h, f), t) <==> Issued(h, t)
    ensures forall j :: KnownJti(Then(h, f), j) <==> KnownJti(h, j)
    ensures forall j :: FamilyOf(Then(h, f), j) == FamilyOf(h, j)
    ensures forall x :: Newest(Then(h, f), x) == Newest(h, x)
    ensures forall u, j :: Registered(Then(h, f), u, j) ==> Registered(h, u, j)
    ensures !f.RefreshRevoked? && !f.AllRevoked? ==>
      forall u, j :: Registered(Then(h, f), u, j) <==> Registered(h, u, j)
  {
  }

  lemma OneMinted(h: History, a: Claims, r: Claims, family: Uuid)
    ensures var g := Then(h, Minted(a, r, family));
      && (forall t :: Issued(g, t) <==> t == a || t == r || Issued(h, t))
      && (forall j :: KnownJti(g, j) <==> j == a.jti || j == r.jti || KnownJti(h, j))
      && (forall j :: FamilyOf(g, j) == if j == r.jti then Some(family) else FamilyOf(h, j))
      && (forall x :: Newest(g, x) == if x == family then Some(r.jti) else Newest(h, x))
      && (forall u, j :: Registered(g, u, j) <==> (u == r.subject && j == r.jti) || Registered(h, u, j))
  {
  }

  lemma NotRevoked(h: History, f: Fact)
    ensures !f.AccessRevoked? ==> forall j :: LoggedOut(Then(h, f), j) <==> LoggedOut(h, j)
    ensures !f.AllRevoked? ==> forall u :: LastRevocation(Then(h, f), u) == LastRevocation(h, u)
    ensures !f.AllRevoked? ==> forall u, x :: RevokedAfter(Then(h, f), u, x) <==> RevokedAfter(h, u, x)
    ensures !f.RoleChanged? ==> forall u :: LastRoleChange(Then(h, f), u) == LastRoleChange(h, u)
  {
  }

  // ---- Each part of the invariant under the facts that concern it ---------------

  lemma TokenFrame(c: Config, h: History, f: Fact, now: Time)
    requires TokenInv(c, h, now) && !f.Minted?
    ensures TokenInv(c, Then(h, f), now)
  {
  }

  lemma TokenMint(c: Config, h: History, now: Time, id: Uuid, role: Role, access: Uuid, refresh: Uuid, family: Uuid)
    requires TokenInv(c, h, now) && FreshPair(h, access, refresh) && KnownId(h, id) && WasVerified(h, id)
    ensures var pair := GenerateTokenPair(c, now, id, role, access, refresh);
      TokenInv(c, Then(h, Minted(pair.access, pair.refresh, family)), now)
  {
    var pair := GenerateTokenPair(c, now, id, role, access, refresh);
    OneMinted(h, pair.access, pair.refresh, family);
  }

  lemma EpochFrame(c: Config, h: History, f: Fact, revoked: map<Uuid, Entry<int>>, now: Time)
    requires EpochInv(c, h, revoked, now) && !f.AllRevoked?
    ensures EpochInv(c, Then(h, f), revoked, now)
  {
    NotRevoked(h, f);
  }

  lemma EpochRevokeAll(c: Config, h: History, k: Keys, now: Time, id: Uuid)
    requires EpochInv(c, h, k.revoked, now)
    ensures EpochInv(c, Then(h, AllRevoked(id, now)), RevokeAllSessions(c, k, now, id).revoked, now)
  {
    var g := Then(h, AllRevoked(id, now));
    assert forall u :: LastRevocation(g, u) == if u == id then Some(now) else LastRevocation(h, u);
    assert forall u, x :: RevokedAfter(g, u, x) <==> (u == id && x < Unix(now)) || RevokedAfter(h, u, x);
  }

  lemma BlacklistFrame(h: History, f: Fact, blacklist: map<Uuid, Entry<string>>, now: Time)
    requires BlacklistInv(h, blacklist, now) && !f.Minted? && !f.AccessRevoked?
    ensures BlacklistInv(Then(h, f), blacklist, now)
  {
    NotMinted(h, f);
    NotRevoked(h, f);
  }

  lemma BlacklistMint(h: History, blacklist: map<Uuid, Entry<string>>, now: Time, a: Claims, r: Claims, family: Uuid)
    requires BlacklistInv(h, blacklist, now) && FreshPair(h, a.jti, r.jti)
    ensures BlacklistInv(Then(h, Minted(a, r, family)), blacklist, now)
  {
    OneMinted(h, a, r, family);
    NotRevoked(h, Minted(a, r, family));
  }

  lemma BlacklistAdd(c: Config, h: History, k: Keys, now: Time, t: Claims, ttl: int)
    requires TokenInv(c, h, now) && BlacklistInv(h, k.blacklist, now)
    requires Issued(h, t) && t.exp * SECOND <= now + ttl
    ensures BlacklistInv(Then(h, AccessRevoked(t.jti)), BlacklistAccessToken(k, now, t.jti, ttl).blacklist, now)
  {
    var f := AccessRevoked(t.jti);
    NotMinted(h, f);
    assert forall j :: LoggedOut(Then(h, f), j) <==> j == t.jti || LoggedOut(h, j);
  }

  lemma HashFrame(c: Config, h: History, f: Fact, sessions: map<Uuid, Entry<map<Uuid, int>>>, now: Time)
    requires HashInv(c, h, sessions, now) && !f.Minted? && !f.RefreshRevoked? && !f.AllRevoked?
    ensures HashInv(c, Then(h, f), sessions, now)
  {
    NotMinted(h, f);
  }

  lemma HashStore(
      c: Config, h: History, k: Keys, now: Time, id: Uuid, role: Role, access: Uuid, refresh: Uuid, family: Uuid)
    requires TokenInv(c, h, now) && HashInv(c, h, k.sessions, now) && FreshPair(h, access, refresh)
    ensures var pair := GenerateTokenPair(c, now, id, role, access, refresh);
      HashInv(c, Then(h, Minted(pair.access, pair.refresh, family)),
              StoreRefreshToken(c, k, now, id, refresh, pair.refreshExpiresAt).sessions, now)
  {
    var pair := GenerateTokenPair(c, now, id, role, access, refresh);
    OneMinted(h, pair.access, pair.refresh, family);
  }

  /** HDEL takes away one field and leaves every other as it was. */
  lemma OneFieldGoes(k: Keys, now: Time, id: Uuid, jti: Uuid)
    ensures var before, after := k.sessions, RevokeRefreshToken(k, now, id, jti).sessions;
      && (forall u :: u in after ==> u in before && after[u].deadline == before[u].deadline)
      && (forall u, j :: u in after && j in after[u].value ==>
            && j in before[u].value && after[u].value[j] == before[u].value[j]
            && (Live(before, u, now) ==> !(u == id && j == jti)))
      && (forall u, j :: u in before && j in before[u].value && !(u == id && j == jti) ==>
            u in after && j in after[u].value)
  {
    if Live(k.sessions, id, now) {
      var rest := Fields(k, id, now) - {jti};
      assert forall j :: j in k.sessions[id].value && j != jti ==> j in rest;
    }
  }

  lemma HashRevokeOne(c: Config, h: History, k: Keys, now: Time, id: Uuid, jti: Uuid)
    requires TokenInv(c, h, now) && HashInv(c, h, k.sessions, now)
    ensures HashInv(c, Then(h, RefreshRevoked(id, jti)), RevokeRefreshToken(k, now, id, jti).sessions, now)
  {
    OneFieldGoes(k, now, id, jti);
    HashLosesOne(c, h, k.sessions, RevokeRefreshToken(k, now, id, jti).sessions, now, id, jti);
  }

  lemma HashLosesOne(
      c: Config, h: History, before: map<Uuid, Entry<map<Uuid, int>>>, after: map<Uuid, Entry<map<Uuid, int>>>,
                     now: Time, id: Uuid, jti: Uuid)
    requires HashInv(c, h, before, now)
    requires forall u :: u in after ==> u in before && after[u].deadline == before[u].deadline
    requires forall u, j :: u in after && j in after[u].value ==>
      && j in before[u].value && after[u].value[j] == before[u].value[j]
      && (Live(before, u, now) ==> !(u == id && j == jti))
    requires forall u, j :: u in before && j in before[u].value && !(u == id && j == jti) ==>
      u in after && j in after[u].value
    ensures HashInv(c, Then(h, RefreshRevoked(id, jti)), after, now)
  {
    var f := RefreshRevoked(id, jti);
    NotMinted(h, f);
    assert forall u, j :: Registered(Then(h, f), u, j) <==> Registered(h, u, j) && !(u == id && j == jti);
  }

  lemma HashRevokeAll(c: Config, h: History, k: Keys, now: Time, id: Uuid)
    requires HashInv(c, h, k.sessions, now)
    ensures HashInv(c, Then(h, AllRevoked(id, now)), RevokeAllSessions(c, k, now, id).sessions, now)
  {
    var f := AllRevoked(id, now);
    NotMinted(h, f);
    assert forall u, j :: Registered(Then(h, f), u, j) <==> Registered(h, u, j) && u != id;
  }

  lemma FamilyFrame(h: History, f: Fact)
    requires FamilyInv(h) && !f.Minted?
    ensures FamilyInv(Then(h, f))
  {
    NotMinted(h, f);
  }

  /** No member of the family is registered. */
  ghost predicate Vacant(h: History, family: Uuid) {
    forall u, j :: Registered(h, u, j) ==> FamilyOf(h, j) != Some(family)
  }

  lemma NewFamilyIsVacant(h: History, family: Uuid)
    requires FamilyInv(h) && !KnownJti(h, family)
    ensures Vacant(h, family)
  {
  }

  /** Rotation may extend a family only once its newest member is revoked. */
  lemma FamilyMint(h: History, a: Claims, r: Claims, family: Uuid)
    requires FamilyInv(h) && FreshPair(h, a.jti, r.jti) && a.typ == Access
    requires family == r.jti || KnownJti(h, family)
    requires Vacant(h, family)
    ensures FamilyInv(Then(h, Minted(a, r, family)))
  {
    OneMinted(h, a, r, family);
  }

  lemma AccountFrame(h: History, f: Fact, users: map<Uuid, Account>, now: Time)
    requires AccountInv(h, users, now) && !f.Minted? && !f.RoleChanged?
    ensures AccountInv(Then(h, f), users, now)
  {
    NotMinted(h, f);
    NotRevoked(h, f);
  }

  lemma AccountMint(h: History, users: map<Uuid, Account>, now: Time, a: Claims, r: Claims, family: Uuid)
    requires AccountInv(h, users, now)
    requires a.subject == r.subject && a.role == r.role && a.subject in users && a.role == users[a.subject].role
    ensures AccountInv(Then(h, Minted(a, r, family)), users, now)
  {
    OneMinted(h, a, r, family);
    NotRevoked(h, Minted(a, r, family));
  }

  // ---- The shared steps -------------------------------------------------------

  lemma RevokeOneKeeps(c: Config, s: State, id: Uuid, jti: Uuid)
    requires Core(c, s)
    ensures Core(c, RevokeOne(s, id, jti))
    ensures RoleRevokes(s.history) ==> RoleRevokes(RevokeOne(s, id, jti).history)
  {
    var f := RefreshRevoked(id, jti);
    TokenFrame(c, s.history, f, s.now);
    EpochFrame(c, s.history, f, s.keys.revoked, s.now);
    BlacklistFrame(s.history, f, s.keys.blacklist, s.now);
    HashRevokeOne(c, s.history, s.keys, s.now, id, jti);
    FamilyFrame(s.history, f);
    AccountFrame(s.history, f, s.users, s.now);
    NotRevoked(s.history, f);
  }

  /** The revocation also answers for a change of role that had none yet. */
  lemma RevokeAllKeeps(c: Config, s: State, id: Uuid)
    requires Core(c, s)
    requires forall u :: u != id && LastRoleChange(s.history, u).Some? ==>
      LastRevocation(s.history, u).Some? && LastRoleChange(s.history, u).value <= LastRevocation(s.history, u).value
    ensures Inv(c, RevokeAll(c, s, id))
  {
    var f := AllRevoked(id, s.now);
    TokenFrame(c, s.history, f, s.now);
    EpochRevokeAll(c, s.history, s.keys, s.now, id);
    BlacklistFrame(s.history, f, s.keys.blacklist, s.now);
    HashRevokeAll(c, s.history, s.keys, s.now, id);
    FamilyFrame(s.history, f);
    AccountFrame(s.history, f, s.users, s.now);
    NotRevoked(s.history, f);
    assert forall u ::
      LastRevocation(Then(s.history, f), u) == if u == id then Some(s.now) else LastRevocation(s.history, u);
  }

  lemma BlacklistKeeps(c: Config, s: State, t: Claims)
    requires Inv(c, s) && Issued(s.history, t) && s.now < t.exp * SECOND
    ensures Inv(c, Blacklist(s, t))
  {
    var f := AccessRevoked(t.jti);
    TokenFrame(c, s.history, f, s.now);
    EpochFrame(c, s.history, f, s.keys.revoked, s.now);
    BlacklistAdd(c, s.history, s.keys, s.now, t, t.exp * SECOND - s.now);
    HashFrame(c, s.history, f, s.keys.sessions, s.now);
    FamilyFrame(s.history, f);
    AccountFrame(s.history, f, s.users, s.now);
    NotRevoked(s.history, f);
  }

  lemma IssueSessionKeeps(c: Config, s: State, id: Uuid, role: Role, access: Uuid, refresh: Uuid, family: Uuid)
    requires Inv(c, s) && FreshPair(s.history, access, refresh)
    requires id in s.users && role == s.users[id].role && WasVerified(s.history, id)
    requires family == refresh || KnownJti(s.history, family)
    requires Vacant(s.history, family)
    ensures Inv(c, IssueSession(c, s, id, role, access, refresh, family).0)
  {
    var pair := GenerateTokenPair(c, s.now, id, role, access, refresh);
    var f := Minted(pair.access, pair.refresh, family);
    TokenMint(c, s.history, s.now, id, role, access, refresh, family);
    EpochFrame(c, s.history, f, s.keys.revoked, s.now);
    BlacklistMint(s.history, s.keys.blacklist, s.now, pair.access, pair.refresh, family);
    HashStore(c, s.history, s.keys, s.now, id, role, access, refresh, family);
    FamilyMint(s.history, pair.access, pair.refresh, family);
    AccountMint(s.history, s.users, s.now, pair.access, pair.refresh, family);
    NotRevoked(s.history, f);
  }

  /** An account may change in anything but the role, and address verification is never taken back. */
  lemma SetAccountKeeps(c: Config, s: State, id: Uuid, a: Account)
    requires Inv(c, s) && id in s.users && a.role == s.users[id].role && a.verified == s.users[id].verified
    ensures Inv(c, SetAccount(s, id, a))
  {
  }

  /** A changed role leaves every token of the account in or before the second of the change. */
  lemma ChangeRoleKeeps(c: Config, s: State, id: Uuid, a: Account)
    requires Inv(c, s) && id in s.users && a.verified == s.users[id].verified
    ensures Core(c, Record(SetAccount(s, id, a), RoleChanged(id, s.now)))
    ensures forall u :: u != id ==>
      LastRoleChange(Then(s.history, RoleChanged(id, s.now)), u) == LastRoleChange(s.history, u)
    ensures forall u :: LastRevocation(Then(s.history, RoleChanged(id, s.now)), u) == LastRevocation(s.history, u)
  {
    var f := RoleChanged(id, s.now);
    TokenFrame(c, s.history, f, s.now);
    EpochFrame(c, s.history, f, s.keys.revoked, s.now);
    BlacklistFrame(s.history, f, s.keys.blacklist, s.now);
    HashFrame(c, s.history, f, s.keys.sessions, s.now);
    FamilyFrame(s.history, f);
    NotRevoked(s.history, f);
    RoleOfOneChanges(s.history, s.users, s.now, id, a);
  }

  lemma RoleOfOneChanges(h: History, users: map<Uuid, Account>, now: Time, id: Uuid, a: Account)
    requires AccountInv(h, users, now) && id in users && a.verified == users[id].verified
    requires forall t :: Issued(h, t) ==> t.iat <= Unix(now)
    ensures AccountInv(Then(h, RoleChanged(id, now)), users[id := a], now)
    ensures forall u :: u != id ==> LastRoleChange(Then(h, RoleChanged(id, now)), u) == LastRoleChange(h, u)
  {
    var f := RoleChanged(id, now);
    NotMinted(h, f);
    assert forall u :: LastRoleChange(Then(h, f), u) == if u == id then Some(now) else LastRoleChange(h, u);
  }

  // ---- The service calls ------------------------------------------------------

  lemma RegisterKeeps(c: Config, s: State, id: Uuid, password: string, fullName: string, role: Role)
    requires Inv(c, s) && !KnownId(s.history, id)
    ensures Inv(c, DoRegister(s, id, password, fullName, role).0)
  {
    var f := AccountMade(id);
    TokenFrame(c, s.history, f, s.now);
    EpochFrame(c, s.history, f, s.keys.revoked, s.now);
    BlacklistFrame(s.history, f, s.keys.blacklist, s.now);
    HashFrame(c, s.history, f, s.keys.sessions, s.now);
    FamilyFrame(s.history, f);
    NotMinted(s.history, f);
    NotRevoked(s.history, f);
  }

  lemma VerifyEmailKeeps(c: Config, s: State, id: Uuid)
    requires Inv(c, s)
    ensures Inv(c, DoVerifyEmail(s, id).0)
  {
    var f := EmailVerified(id);
    TokenFrame(c, s.history, f, s.now);
    EpochFrame(c, s.history, f, s.keys.revoked, s.now);
    BlacklistFrame(s.history, f, s.keys.blacklist, s.now);
    HashFrame(c, s.history, f, s.keys.sessions, s.now);
    FamilyFrame(s.history, f);
    NotMinted(s.history, f);
    NotRevoked(s.history, f);
  }

  /** Revoking everything makes the clean-up of an expired field invisible. */
  lemma CleanUpIsAbsorbed(c: Config, s: State, id: Uuid, jti: Uuid)
    ensures RevokeAll(c, s.(keys := AfterActiveCheck(s.keys, s.now, id, jti)), id) == RevokeAll(c, s, id)
  {
    assert AfterActiveCheck(s.keys, s.now, id, jti).sessions - {id} == s.keys.sessions - {id};
  }

  lemma RotateKeeps(c: Config, s: State, token: Claims, access: Uuid, refresh: Uuid)
    requires Inv(c, s) && FreshPair(s.history, access, refresh)
    requires Issued(s.history, token) && token.typ == Refresh && token.subject in s.users
    requires Registered(s.history, token.subject, token.jti)
    ensures var id := token.subject; var family := FamilyOf(s.history, token.jti);
      family.Some?
      && Inv(c, IssueSession(c, RevokeOne(s, id, token.jti), id, s.users[id].role, access, refresh, family.value).0)
  {
    var id := token.subject;
    var family := FamilyOf(s.history, token.jti).value;
    var s1 := RevokeOne(s, id, token.jti);
    RevokeOneKeeps(c, s, id, token.jti);
    NotMinted(s.history, RefreshRevoked(id, token.jti));
    assert WasVerified(s1.history, id);
    assert forall u, j :: Registered(s1.history, u, j) ==>
      Registered(s.history, u, j) && FamilyOf(s1.history, j) == FamilyOf(s.history, j) && !(u == id && j == token.jti);
    IssueSessionKeeps(c, s1, id, s.users[id].role, access, refresh, family);
  }

  lemma RefreshKeeps(c: Config, s: State, token: Claims, access: Uuid, refresh: Uuid)
    requires Inv(c, s) && FreshPair(s.history, access, refresh)
    ensures Inv(c, DoRefresh(c, s, token, access, refresh).0)
  {
    if Parse(token, Issued(s.history, token), Refresh, s.now).Ok? {
      var id := token.subject;
      CleanUpIsAbsorbed(c, s, id, token.jti);
      if !IsRefreshTokenActive(s.keys, s.now, id, token.jti) || (id in s.users && !s.users[id].active) {
        RevokeAllKeeps(c, s, id);
      } else if id in s.users {
        RotateKeeps(c, s, token, access, refresh);
      }
    }
  }

  lemma LogoutKeeps(c: Config, s: State, bearer: Claims, refreshToken: Option<Claims>)
    requires Inv(c, s)
    ensures Inv(c, DoLogout(s, bearer, refreshToken).0)
  {
    if Authenticate(s, bearer, s.now) {
      if refreshToken.Some? {
        RevokeOneKeeps(c, s, bearer.subject, refreshToken.value.jti);
        NotMinted(s.history, RefreshRevoked(bearer.subject, refreshToken.value.jti));
        BlacklistKeeps(c, RevokeOne(s, bearer.subject, refreshToken.value.jti), bearer);
      }
      BlacklistKeeps(c, s, bearer);
    }
  }

  lemma RevokeThenIssueKeeps(c: Config, s: State, id: Uuid, role: Role, access: Uuid, refresh: Uuid)
    requires Inv(c, s) && FreshPair(s.history, access, refresh)
    requires id in s.users && role == s.users[id].role && WasVerified(s.history, id)
    ensures Inv(c, IssueSession(c, RevokeAll(c, s, id), id, role, access, refresh, refresh).0)
  {
    RevokeAllKeeps(c, s, id);
    NotMinted(s.history, AllRevoked(id, s.now));
    NewFamilyIsVacant(RevokeAll(c, s, id).history, refresh);
    IssueSessionKeeps(c, RevokeAll(c, s, id), id, role, access, refresh, refresh);
  }

  lemma NewPasswordKeeps(c: Config, s: State, id: Uuid, next: string, access: Uuid, refresh: Uuid)
    requires Inv(c, s) && FreshPair(s.history, access, refresh) && id in s.users && WasVerified(s.history, id)
    ensures var a := s.users[id].(password := Some(next));
      Inv(c, IssueSession(c, RevokeAll(c, SetAccount(s, id, a), id), id, a.role, access, refresh, refresh).0)
  {
    var a := s.users[id].(password := Some(next));
    SetAccountKeeps(c, s, id, a);
    RevokeThenIssueKeeps(c, SetAccount(s, id, a), id, a.role, access, refresh);
  }

  lemma ChangePasswordKeeps(
      c: Config, s: State, bearer: Claims, current: string, next: string, access: Uuid, refresh: Uuid)
    requires Inv(c, s) && FreshPair(s.history, access, refresh)
    ensures Inv(c, DoChangePassword(c, s, bearer, current, next, access, refresh).0)
  {
    if Authenticate(s, bearer, s.now) && bearer.subject in s.users {
      NewPasswordKeeps(c, s, bearer.subject, next, access, refresh);
    }
  }

  lemma ChangedKeeps(c: Config, s: State, id: Uuid, a: Account)
    requires Inv(c, s) && id in s.users && a.verified == s.users[id].verified
    ensures a.role == s.users[id].role ==> Inv(c, Changed(s, id, a))
    ensures Inv(c, RevokeAll(c, Changed(s, id, a), id))
  {
    if a.role == s.users[id].role {
      SetAccountKeeps(c, s, id, a);
    } else {
      ChangeRoleKeeps(c, s, id, a);
    }
    RevokeAllKeeps(c, Changed(s, id, a), id);
  }

  lemma UpdateUserShape(c: Config, s: State, bearer: Claims, id: Uuid, change: Change)
    ensures var s' := DoUpdateUser(c, s, bearer, id, change).0;
      s' == s || (id in s.users && (
        var a := Updated(s.users[id], change);
        s' == RevokeAll(c, Changed(s, id, a), id) || (a.role == s.users[id].role && s' == Changed(s, id, a))))
  {
  }

  lemma UpdateUserKeeps(c: Config, s: State, bearer: Claims, id: Uuid, change: Change)
    requires Inv(c, s)
    ensures Inv(c, DoUpdateUser(c, s, bearer, id, change).0)
  {
    UpdateUserShape(c, s, bearer, id, change);
    if id in s.users {
      ChangedKeeps(c, s, id, Updated(s.users[id], change));
    }
  }

  lemma LoginKeeps(c: Config, s: State, id: Uuid, password: string, access: Uuid, refresh: Uuid)
    requires Inv(c, s) && FreshPair(s.history, access, refresh)
    ensures Inv(c, DoLogin(c, s, id, password, access, refresh).0)
  {
    if id in s.users && s.users[id].verified {
      NewFamilyIsVacant(s.history, refresh);
      IssueSessionKeeps(c, s, id, s.users[id].role, access, refresh, refresh);
    }
  }

  lemma LogoutAllKeeps(c: Config, s: State, bearer: Claims)
    requires Inv(c, s)
    ensures Inv(c, DoLogoutAll(c, s, bearer).0)
  {
    RevokeAllKeeps(c, s, bearer.subject);
  }

  lemma ResetPasswordKeeps(c: Config, s: State, id: Uuid, next: string)
    requires Inv(c, s)
    ensures Inv(c, DoResetPassword(c, s, id, next).0)
  {
    if id in s.users {
      var a := s.users[id].(password := Some(next));
      SetAccountKeeps(c, s, id, a);
      RevokeAllKeeps(c, SetAccount(s, id, a), id);
    }
  }

  lemma DeleteUserKeeps(c: Config, s: State, bearer: Claims, id: Uuid)
    requires Inv(c, s)
    ensures Inv(c, DoDeleteUser(c, s, bearer, id).0)
  {
    RevokeAllKeeps(c, s.(users := s.users - {id}), id);
  }

  lemma LeavingKeeps(c: Config, s: State, e: Event)
    requires Inv(c, s) && Enabled(s, e) && (e.op.Logout? || e.op.LogoutAll? || e.op.DeleteUser?)
    ensures Inv(c, Do(c, s, e.op).0)
  {
    match e.op
    case Logout(bearer, refreshToken) => LogoutKeeps(c, s, bearer, refreshToken);
    case LogoutAll(bearer) => LogoutAllKeeps(c, s, bearer);
    case DeleteUser(bearer, id) => DeleteUserKeeps(c, s, bearer, id);
  }

  lemma ChangingKeeps(c: Config, s: State, e: Event)
    requires Inv(c, s) && Enabled(s, e) && (e.op.ChangePassword? || e.op.UpdateUser?)
    ensures Inv(c, Do(c, s, e.op).0)
  {
    match e.op
    case ChangePassword(bearer, current, next, access, refresh) =>
      ChangePasswordKeeps(c, s, bearer, current, next, access, refresh);
    case UpdateUser(bearer, id, change) => UpdateUserKeeps(c, s, bearer, id, change);
  }

  lemma DoKeeps(c: Config, s: State, e: Event)
    requires Inv(c, s) && Enabled(s, e)
    ensures Inv(c, Do(c, s, e.op).0)
  {
    match e.op
    case Register(id, password, fullName, role) => RegisterKeeps(c, s, id, password, fullName, role);
    case VerifyEmail(id) => VerifyEmailKeeps(c, s, id);
    case Login(id, password, access, refresh) => LoginKeeps(c, s, id, password, access, refresh);
    case RefreshSession(token, access, refresh) => RefreshKeeps(c, s, token, access, refresh);
    case ResetPassword(id, next) => ResetPasswordKeeps(c, s, id, next);
    case ChangePassword(_, _, _, _, _) => ChangingKeeps(c, s, e);
    case UpdateUser(_, _, _) => ChangingKeeps(c, s, e);
    case _ => LeavingKeeps(c, s, e);
  }

  lemma StepKeeps(c: Config, s: State, e: Event)
    requires Inv(c, s)
    ensures Inv(c, Next(c, s, e))
  {
    if Enabled(s, e) {
      TimePasses(c, s, e.at);
      DoKeeps(c, s.(now := e.at), e);
    }
  }

  lemma TimePasses(c: Config, s: State, at: Time)
    requires Inv(c, s) && s.now <= at
    ensures Inv(c, s.(now := at))
  {
  }

  lemma {:induction false} RunKeeps(c: Config, s: State, events: seq<Event>)
    requires Inv(c, s)
    ensures Inv(c, Run(c, s, events))
    decreases |events|
  {
    if events != [] {
      StepKeeps(c, s, events[0]);
      RunKeeps(c, Next(c, s, events[0]), events[1..]);
    }
  }

  lemma StartIsGood(c: Config, at: Time)
    ensures Inv(c, Start(at))
  {
  }
}
