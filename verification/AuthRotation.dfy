/**
 * Rotation families when refreshes interleave: which runs keep the promise of
 * one live refresh token per sign-in, and a run that breaks it.
 */
module AuthRotation {
  import opened Clock
  import opened Wrappers
  import opened Jwt
  import opened SessionKeys
  import opened AuthProtocol
  import AuthInvariant
  import I = AuthInterleaving

  type Calls = map<int, I.Call>

  /** The call found the token active and has not revoked it yet. */
  predicate HasFound(call: I.Call, jti: Uuid) {
    (call.Found? || call.Rotating?) && call.token.jti == jti
  }

  predicate Stores(call: I.Call, jti: Uuid) {
    call.Storing? && call.token.jti == jti
  }

  predicate WasStored(h: History, jti: Uuid) {
    match h
    case Nothing => false
    case Then(past, Stored(_, j)) => j == jti || WasStored(past, jti)
    case Then(past, _) => WasStored(past, jti)
  }

  /** A token is not looked up while a call that found it active has yet to revoke it. */
  ghost predicate Alone(m: I.Machine, a: I.Action) {
    a.Advance? && a.call in m.calls && m.calls[a.call].Presented? ==>
      forall i :: i in m.calls ==> !HasFound(m.calls[i], m.calls[a.call].token.jti)
  }

  ghost predicate AloneRun(c: Config, m: I.Machine, actions: seq<I.Action>)
    decreases |actions|
  {
    actions != [] ==> Alone(m, actions[0]) && AloneRun(c, I.Next(c, m, actions[0]), actions[1..])
  }

  // ---- Who can still bring a family forward --------------------------------------------------

  /** A token that is registered or in a call's hands, or a call that is about to sign a successor. */
  datatype Slot = Token(jti: Uuid) | Caller(call: int)

  ghost predicate KeptBySome(h: History, jti: Uuid) {
    exists u :: I.Kept(h, u, jti)
  }

  ghost predicate HeldBySome(calls: Calls, jti: Uuid) {
    exists i :: i in calls && (HasFound(calls[i], jti) || Stores(calls[i], jti))
  }

  ghost predicate Occupies(h: History, calls: Calls, x: Slot, family: Uuid) {
    match x
    case Token(jti) => FamilyOf(h, jti) == Some(family) && (KeptBySome(h, jti) || HeldBySome(calls, jti))
    case Caller(i) => i in calls && calls[i].Minting? && calls[i].family == Some(family)
  }

  ghost predicate OneSlot(h: History, calls: Calls) {
    forall family, x, y :: Occupies(h, calls, x, family) && Occupies(h, calls, y, family) ==> x == y
  }

  ghost predicate CallsInv(h: History, calls: Calls) {
    && (forall i, k, j :: i in calls && k in calls && HasFound(calls[i], j) && HasFound(calls[k], j) ==> i == k)
    && (forall i, k, j :: i in calls && k in calls && Stores(calls[i], j) && Stores(calls[k], j) ==> i == k)
    && (forall i, j :: i in calls && Stores(calls[i], j) ==> !WasStored(h, j) && KnownJti(h, j))
    && (forall i, j :: i in calls && HasFound(calls[i], j) ==> WasStored(h, j))
    && (forall i :: i in calls && calls[i].Minting? && calls[i].family.Some? ==> KnownJti(h, calls[i].family.value))
  }

  ghost predicate HistoryInv(h: History) {
    && (forall u, j :: I.Kept(h, u, j) ==> WasStored(h, j))
    && (forall t, u :: Issued(h, t) && I.Kept(h, u, t.jti) ==> u == t.subject)
    && (forall j :: WasStored(h, j) ==> KnownJti(h, j) && FamilyOf(h, j).Some?)
    && (forall j :: FamilyOf(h, j).Some? ==> KnownJti(h, j) && KnownJti(h, FamilyOf(h, j).value))
    && (forall t :: Issued(h, t) && t.typ == Refresh ==> FamilyOf(h, t.jti).Some?)
  }

  ghost predicate FamilyInv(m: I.Machine) {
    HistoryInv(m.s.history) && CallsInv(m.s.history, m.calls) && OneSlot(m.s.history, m.calls)
  }

  /** Nothing that was not there before is in the way. */
  lemma FewerSlots(h': History, calls': Calls, h: History, calls: Calls)
    requires OneSlot(h, calls)
    requires forall x, family :: Occupies(h', calls', x, family) ==> Occupies(h, calls, x, family)
    ensures OneSlot(h', calls')
  {
  }

  // ---- Steps that sign and store nothing ---------------------------------------------------------

  /** The call holds no token and is about to extend no family. */
  predicate Harmless(call: I.Call) {
    !call.Storing? && !call.Found? && !call.Rotating? && (call.Minting? ==> call.family.None?)
  }

  /** The call goes on without a new hold on any token. */
  predicate GoesOn(next: I.Call, call: I.Call) {
    next == call || Harmless(next) || (call.Found? && next.Rotating? && next.token == call.token)
  }

  ghost predicate QuietCalls(calls': Calls, calls: Calls) {
    forall i :: i in calls' ==> Harmless(calls'[i]) || (i in calls && GoesOn(calls'[i], calls[i]))
  }

  /** The same tokens were signed and stored, and no more of them are kept. */
  ghost predicate QuietHistory(h': History, h: History) {
    && (forall t :: Issued(h', t) <==> Issued(h, t))
    && (forall j :: KnownJti(h', j) <==> KnownJti(h, j))
    && (forall j :: WasStored(h', j) <==> WasStored(h, j))
    && (forall j :: FamilyOf(h', j) == FamilyOf(h, j))
    && (forall u, j :: I.Kept(h', u, j) ==> I.Kept(h, u, j))
  }

  lemma QuietFact(h: History, f: Fact)
    requires !f.Minted? && !f.Stored?
    ensures QuietHistory(Then(h, f), h)
  {
  }

  lemma QuietSlots(h': History, calls': Calls, h: History, calls: Calls, x: Slot, family: Uuid)
    requires QuietHistory(h', h) && QuietCalls(calls', calls) && Occupies(h', calls', x, family)
    ensures Occupies(h, calls, x, family)
  {
    if x.Token? {
      if KeptBySome(h', x.jti) {
        var u :| I.Kept(h', u, x.jti);
        assert I.Kept(h, u, x.jti);
      } else {
        var i :| i in calls' && (HasFound(calls'[i], x.jti) || Stores(calls'[i], x.jti));
        assert HasFound(calls[i], x.jti) || Stores(calls[i], x.jti);
      }
    }
  }

  lemma QuietKeeps(h': History, calls': Calls, h: History, calls: Calls)
    requires HistoryInv(h) && CallsInv(h, calls) && OneSlot(h, calls)
    requires QuietHistory(h', h) && QuietCalls(calls', calls)
    ensures HistoryInv(h') && CallsInv(h', calls') && OneSlot(h', calls')
  {
    assert forall i, j :: i in calls' && HasFound(calls'[i], j) ==> i in calls && HasFound(calls[i], j);
    assert forall i, j :: i in calls' && Stores(calls'[i], j) ==> i in calls && Stores(calls[i], j);
    forall x, family | Occupies(h', calls', x, family) ensures Occupies(h, calls, x, family) {
      QuietSlots(h', calls', h, calls, x, family);
    }
    FewerSlots(h', calls', h, calls);
  }

  // ---- The four steps that matter -------------------------------------------------------------------

  /** A look-up that finds a kept token puts it in no more hands than its own slot. */
  lemma LookUpKeeps(h: History, calls: Calls, i: int, t: Claims)
    requires HistoryInv(h) && CallsInv(h, calls) && OneSlot(h, calls)
    requires i in calls && calls[i] == I.Presented(t) && I.Kept(h, t.subject, t.jti)
    requires forall k :: k in calls ==> !HasFound(calls[k], t.jti)
    ensures CallsInv(h, calls[i := I.Found(t)]) && OneSlot(h, calls[i := I.Found(t)])
  {
    var calls' := calls[i := I.Found(t)];
    forall x, family | Occupies(h, calls', x, family) ensures Occupies(h, calls, x, family) {
      if x.Token? && !KeptBySome(h, x.jti) {
        var k :| k in calls' && (HasFound(calls'[k], x.jti) || Stores(calls'[k], x.jti));
        assert k != i;
      }
    }
    FewerSlots(h, calls', h, calls);
  }

  /** The revoked token's slot passes to the call that revoked it. */
  lemma RotateKeeps(h: History, calls: Calls, i: int, t: Claims, read: I.Read)
    requires HistoryInv(h) && CallsInv(h, calls) && OneSlot(h, calls)
    requires i in calls && calls[i] == I.Rotating(t, read) && Issued(h, t)
    ensures var h' := Then(h, RefreshRevoked(t.subject, t.jti));
      var calls' := calls[i := I.Minting(t.subject, read, FamilyOf(h, t.jti))];
      HistoryInv(h') && CallsInv(h', calls') && OneSlot(h', calls')
  {
    var f := RefreshRevoked(t.subject, t.jti);
    var h', calls' := Then(h, f), calls[i := I.Minting(t.subject, read, FamilyOf(h, t.jti))];
    QuietFact(h, f);
    assert HasFound(calls[i], t.jti);
    var family := FamilyOf(h, t.jti).value;
    assert Occupies(h, calls, Token(t.jti), family) by {
      assert HeldBySome(calls, t.jti);
    }
    assert !I.Kept(h', t.subject, t.jti);
    assert forall k :: k in calls' && k != i ==> calls'[k] == calls[k];
    forall x, g | Occupies(h', calls', x, g)
      ensures (x == Caller(i) && g == family) || (x != Token(t.jti) && Occupies(h, calls, x, g))
    {
      RotatedSlots(h, calls, i, t, read, x, g);
    }
    PassedOn(h', calls', h, calls, Caller(i), Token(t.jti), family);
  }

  lemma RotatedSlots(h: History, calls: Calls, i: int, t: Claims, read: I.Read, x: Slot, g: Uuid)
    requires HistoryInv(h) && CallsInv(h, calls)
    requires i in calls && calls[i] == I.Rotating(t, read) && Issued(h, t) && FamilyOf(h, t.jti).Some?
    requires Occupies(
      Then(h, RefreshRevoked(t.subject, t.jti)), calls[i := I.Minting(t.subject, read, FamilyOf(h, t.jti))], x, g)
    ensures (x == Caller(i) && g == FamilyOf(h, t.jti).value) || (x != Token(t.jti) && Occupies(h, calls, x, g))
  {
    var f := RefreshRevoked(t.subject, t.jti);
    var h', calls' := Then(h, f), calls[i := I.Minting(t.subject, read, FamilyOf(h, t.jti))];
    QuietFact(h, f);
    assert HasFound(calls[i], t.jti);
    if x.Token? {
      if KeptBySome(h', x.jti) {
        var u :| I.Kept(h', u, x.jti);
        assert I.Kept(h, u, x.jti) && !(u == t.subject && x.jti == t.jti);
      } else {
        var k :| k in calls' && (HasFound(calls'[k], x.jti) || Stores(calls'[k], x.jti));
        assert k != i && calls'[k] == calls[k];
      }
    }
  }

  /** One slot of a family gives way to another. */
  lemma PassedOn(h': History, calls': Calls, h: History, calls: Calls, next: Slot, last: Slot, family: Uuid)
    requires OneSlot(h, calls) && Occupies(h, calls, last, family)
    requires forall x, g :: Occupies(h', calls', x, g) ==>
      (x == next && g == family) || (x != last && Occupies(h, calls, x, g))
    ensures OneSlot(h', calls')
  {
  }

  lemma MintedSlots(
      h: History, calls: Calls, i: int, a: Claims, r: Claims, family: Uuid, expiresAt: Time, x: Slot, g: Uuid)
    requires FreshPair(h, a.jti, r.jti) && i in calls && HistoryInv(h) && CallsInv(h, calls)
    requires Occupies(Then(h, Minted(a, r, family)), calls[i := I.Storing(r, expiresAt)], x, g)
    ensures (x == Token(r.jti) && g == family) || (x != Caller(i) && Occupies(h, calls, x, g))
  {
    var h', calls' := Then(h, Minted(a, r, family)), calls[i := I.Storing(r, expiresAt)];
    AuthInvariant.OneMinted(h, a, r, family);
    if x.Token? && x.jti != r.jti {
      if KeptBySome(h', x.jti) {
        var u :| I.Kept(h', u, x.jti);
        assert I.Kept(h, u, x.jti);
      } else {
        var k :| k in calls' && (HasFound(calls'[k], x.jti) || Stores(calls'[k], x.jti));
        assert k != i && calls'[k] == calls[k];
      }
    }
  }

  /** The call's slot passes to the token it signed; a sign-in opens a family that nobody is in. */
  lemma MintKeeps(h: History, calls: Calls, i: int, a: Claims, r: Claims, expiresAt: Time)
    requires HistoryInv(h) && CallsInv(h, calls) && OneSlot(h, calls) && FreshPair(h, a.jti, r.jti)
    requires i in calls && calls[i].Minting? && a.typ == Access
    ensures var h' := Then(h, Minted(a, r, Coalesce(calls[i].family, r.jti)));
      var calls' := calls[i := I.Storing(r, expiresAt)];
      HistoryInv(h') && CallsInv(h', calls') && OneSlot(h', calls')
  {
    var family := Coalesce(calls[i].family, r.jti);
    var h', calls' := Then(h, Minted(a, r, family)), calls[i := I.Storing(r, expiresAt)];
    MintingKeepsHistory(h, a, r, family);
    assert forall k :: k in calls' && k != i ==> calls'[k] == calls[k];
    assert forall j :: WasStored(h', j) <==> WasStored(h, j);
    AuthInvariant.OneMinted(h, a, r, family);
    forall x, g | Occupies(h', calls', x, g)
      ensures (x == Token(r.jti) && g == family) || (x != Caller(i) && Occupies(h, calls, x, g))
    {
      MintedSlots(h, calls, i, a, r, family, expiresAt, x, g);
    }
    if calls[i].family.Some? {
      PassedOn(h', calls', h, calls, Token(r.jti), Caller(i), family);
    } else {
      assert forall x :: !Occupies(h, calls, x, r.jti);
    }
  }

  lemma MintingKeepsHistory(h: History, a: Claims, r: Claims, family: Uuid)
    requires HistoryInv(h) && FreshPair(h, a.jti, r.jti) && a.typ == Access && (family == r.jti || KnownJti(h, family))
    ensures HistoryInv(Then(h, Minted(a, r, family)))
  {
    var h' := Then(h, Minted(a, r, family));
    AuthInvariant.OneMinted(h, a, r, family);
    assert forall j :: WasStored(h', j) <==> WasStored(h, j);
    assert forall u, j :: I.Kept(h', u, j) <==> I.Kept(h, u, j);
  }

  /** The stored token's slot stays its own. */
  lemma StoreKeeps(c: Config, h: History, calls: Calls, now: Time, i: int, t: Claims, expiresAt: Time)
    requires HistoryInv(h) && CallsInv(h, calls) && OneSlot(h, calls) && AuthInvariant.TokenInv(c, h, now)
    requires i in calls && calls[i] == I.Storing(t, expiresAt) && Issued(h, t) && t.typ == Refresh
    ensures var h' := Then(h, Stored(t.subject, t.jti)); var calls' := calls[i := I.Over];
      HistoryInv(h') && CallsInv(h', calls') && OneSlot(h', calls')
  {
    var h', calls' := Then(h, Stored(t.subject, t.jti)), calls[i := I.Over];
    StoringKeepsHistory(c, h, now, t);
    StoringKeepsCalls(h, calls, i, t, expiresAt);
    forall x, g | Occupies(h', calls', x, g) ensures Occupies(h, calls, x, g) {
      StoredSlots(h, calls, i, t, expiresAt, x, g);
    }
    FewerSlots(h', calls', h, calls);
  }

  lemma StoringKeepsCalls(h: History, calls: Calls, i: int, t: Claims, expiresAt: Time)
    requires CallsInv(h, calls) && i in calls && calls[i] == I.Storing(t, expiresAt)
    ensures CallsInv(Then(h, Stored(t.subject, t.jti)), calls[i := I.Over])
  {
    var f := Stored(t.subject, t.jti);
    var h', calls' := Then(h, f), calls[i := I.Over];
    assert forall j :: WasStored(h', j) <==> j == t.jti || WasStored(h, j);
    AuthInvariant.NotMinted(h, f);
    assert forall k :: k in calls' && k != i ==> calls'[k] == calls[k];
    assert Stores(calls[i], t.jti);
  }

  lemma StoringKeepsHistory(c: Config, h: History, now: Time, t: Claims)
    requires HistoryInv(h) && AuthInvariant.TokenInv(c, h, now) && Issued(h, t) && t.typ == Refresh
    ensures HistoryInv(Then(h, Stored(t.subject, t.jti)))
  {
    var f := Stored(t.subject, t.jti);
    AuthInvariant.NotMinted(h, f);
    assert forall j :: WasStored(Then(h, f), j) <==> j == t.jti || WasStored(h, j);
    assert forall u, j :: I.Kept(Then(h, f), u, j) <==> (u == t.subject && j == t.jti) || I.Kept(h, u, j);
  }

  lemma StoredSlots(h: History, calls: Calls, i: int, t: Claims, expiresAt: Time, x: Slot, g: Uuid)
    requires i in calls && calls[i] == I.Storing(t, expiresAt)
    requires Occupies(Then(h, Stored(t.subject, t.jti)), calls[i := I.Over], x, g)
    ensures Occupies(h, calls, x, g)
  {
    var h', calls' := Then(h, Stored(t.subject, t.jti)), calls[i := I.Over];
    if x.Token? {
      if x.jti == t.jti {
        assert Stores(calls[i], x.jti);
      } else if KeptBySome(h', x.jti) {
        var u :| I.Kept(h', u, x.jti);
        assert I.Kept(h, u, x.jti);
      } else {
        var k :| k in calls' && (HasFound(calls'[k], x.jti) || Stores(calls'[k], x.jti));
        assert k != i && calls'[k] == calls[k];
      }
    }
  }

  // ---- Every action -----------------------------------------------------------------------------------

  lemma OtherStepIsQuiet(c: Config, s: State, call: I.Call, access: Uuid, refresh: Uuid)
    requires !call.Minting? && !call.Storing? && !call.Rotating?
    requires call.Presented? ==> !IsRefreshTokenActive(s.keys, s.now, call.token.subject, call.token.jti)
    ensures QuietHistory(I.Step(c, s, call, access, refresh).0.history, s.history)
    ensures GoesOn(I.Step(c, s, call, access, refresh).1, call)
  {
    match call
    case Dropping(id, _) => QuietFact(s.history, AllRevoked(id, s.now));
    case SigningOut(bearer, r) => if r.Some? { QuietFact(s.history, RefreshRevoked(bearer.subject, r.value.jti)); }
    case Blacklisting(bearer, _) => QuietFact(s.history, AccessRevoked(bearer.jti));
    case UpdatingUser(id, _) => QuietFact(s.history, RoleChanged(id, s.now));
    case _ =>
  }

  lemma BeginIsQuiet(s: State, op: Op)
    ensures QuietHistory(I.Started(s, op).history, s.history) && Harmless(I.First(s, op))
  {
    match op
    case Register(id, _, _, _) => QuietFact(s.history, AccountMade(id));
    case VerifyEmail(id) => QuietFact(s.history, EmailVerified(id));
    case _ =>
  }

  lemma AdvanceKeeps(c: Config, m: I.Machine, i: int, access: Uuid, refresh: Uuid)
    requires I.Inv(c, m) && FamilyInv(m) && i in m.calls && Alone(m, I.Advance(i, access, refresh))
    ensures FamilyInv(I.Next(c, m, I.Advance(i, access, refresh)))
  {
    var h, calls, call := m.s.history, m.calls, m.calls[i];
    assert I.Sound(c, m.s, call);
    match call
    case Minting(id, read, family) =>
      if FreshPair(h, access, refresh) {
        var pair := GenerateTokenPair(c, m.s.now, id, read.role, access, refresh);
        MintKeeps(h, calls, i, pair.access, pair.refresh, pair.refreshExpiresAt);
      } else {
        assert calls[i := call] == calls;
      }
    case Storing(t, expiresAt) => StoreKeeps(c, h, calls, m.s.now, i, t, expiresAt);
    case Rotating(t, read) => RotateKeeps(h, calls, i, t, read);
    case Presented(t) =>
      if IsRefreshTokenActive(m.s.keys, m.s.now, t.subject, t.jti) {
        I.HashDecides(c, m.s, t, m.s.now);
        LookUpKeeps(h, calls, i, t);
      } else {
        OtherAdvanceKeeps(c, m, i, access, refresh);
      }
    case _ => OtherAdvanceKeeps(c, m, i, access, refresh);
  }

  lemma OtherAdvanceKeeps(c: Config, m: I.Machine, i: int, access: Uuid, refresh: Uuid)
    requires FamilyInv(m) && i in m.calls && !m.calls[i].Minting? && !m.calls[i].Storing? && !m.calls[i].Rotating?
    requires m.calls[i].Presented? ==>
      !IsRefreshTokenActive(m.s.keys, m.s.now, m.calls[i].token.subject, m.calls[i].token.jti)
    ensures FamilyInv(I.Next(c, m, I.Advance(i, access, refresh)))
  {
    var (s', next) := I.Step(c, m.s, m.calls[i], access, refresh);
    OtherStepIsQuiet(c, m.s, m.calls[i], access, refresh);
    QuietKeeps(s'.history, m.calls[i := next], m.s.history, m.calls);
  }

  lemma NextKeeps(c: Config, m: I.Machine, a: I.Action)
    requires I.Inv(c, m) && FamilyInv(m) && Alone(m, a)
    ensures FamilyInv(I.Next(c, m, a))
  {
    var h, calls := m.s.history, m.calls;
    match a
    case Begin(i, op) =>
      if i !in calls {
        BeginIsQuiet(m.s, op);
        QuietKeeps(I.Started(m.s, op).history, calls[i := I.First(m.s, op)], h, calls);
      }
    case Advance(i, access, refresh) => if i in calls { AdvanceKeeps(c, m, i, access, refresh); }
    case Stop(i) => QuietKeeps(h, calls - {i}, h, calls);
    case Wait(_) =>
  }

  lemma {:induction false} RunKeeps(c: Config, m: I.Machine, actions: seq<I.Action>)
    requires I.Inv(c, m) && FamilyInv(m) && AloneRun(c, m, actions)
    ensures I.Inv(c, I.Run(c, m, actions)) && FamilyInv(I.Run(c, m, actions))
    decreases |actions|
  {
    if actions != [] {
      I.NextKeeps(c, m, actions[0]);
      NextKeeps(c, m, actions[0]);
      RunKeeps(c, I.Next(c, m, actions[0]), actions[1..]);
    }
  }

  lemma IdleIsGood(at: Time)
    ensures FamilyInv(I.Idle(at))
  {
  }

  /**
   * As long as no token is looked up while a call that found it has yet to
   * revoke it, a family has at most one registered refresh token, however
   * calls interleave and wherever they stop.
   */
  lemma OneKeptPerFamily(c: Config, start: Time, actions: seq<I.Action>, u: Uuid, j: Uuid, u': Uuid, j': Uuid)
    requires AloneRun(c, I.Idle(start), actions)
    requires var h := I.Run(c, I.Idle(start), actions).s.history;
      I.Kept(h, u, j) && I.Kept(h, u', j') && FamilyOf(h, j) == FamilyOf(h, j')
    ensures j == j'
  {
    I.IdleIsGood(c, start);
    IdleIsGood(start);
    RunKeeps(c, I.Idle(start), actions);
    var m := I.Run(c, I.Idle(start), actions);
    var h := m.s.history;
    assert WasStored(h, j);
    assert Occupies(h, m.calls, Token(j), FamilyOf(h, j).value) by { assert KeptBySome(h, j); }
    assert Occupies(h, m.calls, Token(j'), FamilyOf(h, j).value) by { assert KeptBySome(h, j'); }
  }

  // ---- Without that condition ---------------------------------------------------------------------------

  ghost predicate Reached(c: Config, m: I.Machine) {
    exists actions :: I.Run(c, I.Idle(0), actions) == m
  }

  lemma {:induction false} RunOneMore(c: Config, m: I.Machine, actions: seq<I.Action>, a: I.Action)
    ensures I.Run(c, m, actions + [a]) == I.Next(c, I.Run(c, m, actions), a)
    decreases |actions|
  {
    if actions == [] {
      assert I.Run(c, I.Next(c, m, a), []) == I.Next(c, m, a);
      assert [] + [a] == [a];
    } else {
      assert (actions + [a])[1..] == actions[1..] + [a];
      RunOneMore(c, I.Next(c, m, actions[0]), actions[1..], a);
    }
  }

  lemma ReachedNext(c: Config, m: I.Machine, a: I.Action) returns (m': I.Machine)
    requires Reached(c, m)
    ensures m' == I.Next(c, m, a) && Reached(c, m')
  {
    m' := I.Next(c, m, a);
    var actions :| I.Run(c, I.Idle(0), actions) == m;
    RunOneMore(c, I.Idle(0), actions, a);
  }

  /** Presenting an active token and reading the account changes nothing but the call. */
  lemma ComesToRotate(c: Config, m: I.Machine, i: int, t: Claims) returns (m': I.Machine)
    requires Reached(c, m) && i !in m.calls && t.subject in m.s.users && m.s.users[t.subject].active
    requires Parse(t, Issued(m.s.history, t), Refresh, m.s.now).Ok?
    requires IsRefreshTokenActive(m.s.keys, m.s.now, t.subject, t.jti)
    ensures Reached(c, m') && m'.s == m.s
    ensures m'.calls == m.calls[i := I.Rotating(t, I.Read(m.s.users[t.subject].role, m.s.now))]
  {
    m' := ReachedNext(c, m, I.Begin(i, RefreshSession(t, 0, 0)));
    assert m'.s == m.s && m'.calls[i] == I.Presented(t);
    m' := ReachedNext(c, m', I.Advance(i, 0, 0));
    assert m'.s == m.s && m'.calls[i] == I.Found(t);
    m' := ReachedNext(c, m', I.Advance(i, 0, 0));
  }

  /** From there the call revokes the token, signs a successor of the same family, and registers it. */
  lemma RotatesToTheEnd(c: Config, m: I.Machine, i: int, t: Claims, access: Uuid, refresh: Uuid) returns (m': I.Machine)
    requires Reached(c, m) && i in m.calls && m.calls[i].Rotating? && m.calls[i].token == t
    requires FreshPair(m.s.history, access, refresh) && FamilyOf(m.s.history, t.jti).Some?
    ensures Reached(c, m') && m'.calls == m.calls[i := I.Over]
    ensures var pair := GenerateTokenPair(c, m.s.now, t.subject, m.calls[i].read.role, access, refresh);
      m'.s.history ==
        Rotation(m.s.history, t.subject, t.jti, pair.access, pair.refresh, FamilyOf(m.s.history, t.jti).value)
    ensures m'.s.now == m.s.now
  {
    var family := FamilyOf(m.s.history, t.jti);
    m' := ReachedNext(c, m, I.Advance(i, 0, 0));
    assert m'.calls[i] == I.Minting(t.subject, m.calls[i].read, family);
    AuthInvariant.NotMinted(m.s.history, RefreshRevoked(t.subject, t.jti));
    m' := ReachedNext(c, m', I.Advance(i, access, refresh));
    m' := ReachedNext(c, m', I.Advance(i, 0, 0));
  }

  function Rotation(h: History, u: Uuid, j: Uuid, a: Claims, r: Claims, family: Uuid): History {
    Then(Then(Then(h, RefreshRevoked(u, j)), Minted(a, r, family)), Stored(u, r.jti))
  }

  lemma RotationFacts(h: History, u: Uuid, j: Uuid, a: Claims, r: Claims, family: Uuid)
    ensures var h' := Rotation(h, u, j, a, r, family);
      && (forall x :: KnownJti(h', x) <==> x == a.jti || x == r.jti || KnownJti(h, x))
      && (forall x :: FamilyOf(h', x) == if x == r.jti then Some(family) else FamilyOf(h, x))
      && (forall v, x :: I.Kept(h', v, x) <==> (v == u && x == r.jti) || (I.Kept(h, v, x) && !(v == u && x == j)))
  {
    var h1 := Then(h, RefreshRevoked(u, j));
    var h2 := Then(h1, Minted(a, r, family));
    AuthInvariant.NotMinted(h, RefreshRevoked(u, j));
    AuthInvariant.OneMinted(h1, a, r, family);
    AuthInvariant.NotMinted(h2, Stored(u, r.jti));
    assert forall v, x :: I.Kept(h1, v, x) <==> I.Kept(h, v, x) && !(v == u && x == j);
    assert forall v, x :: I.Kept(h2, v, x) <==> I.Kept(h1, v, x);
  }

  ghost predicate Forked(h: History, u: Uuid, j: Uuid, j': Uuid) {
    j != j' && I.Kept(h, u, j) && I.Kept(h, u, j') && FamilyOf(h, j).Some? && FamilyOf(h, j) == FamilyOf(h, j')
  }

  /**
   * Wherever a run has come: an active token that two calls present, and both
   * look up before either revokes it, can end as two registered tokens of one
   * family.
   */
  lemma TwoRefreshesFork(c: Config, m: I.Machine, t: Claims, i: int, k: int, ids: seq<Uuid>) returns (m': I.Machine)
    requires Reached(c, m) && i != k && i !in m.calls && k !in m.calls
    requires t.subject in m.s.users && m.s.users[t.subject].active
    requires Parse(t, Issued(m.s.history, t), Refresh, m.s.now).Ok?
    requires IsRefreshTokenActive(m.s.keys, m.s.now, t.subject, t.jti)
    requires FamilyOf(m.s.history, t.jti).Some? && KnownJti(m.s.history, t.jti)
    requires |ids| == 4 && FreshPair(m.s.history, ids[0], ids[1]) && FreshPair(m.s.history, ids[2], ids[3])
    requires ids[0] != ids[2] && ids[0] != ids[3] && ids[1] != ids[2] && ids[1] != ids[3]
    ensures Reached(c, m') && Forked(m'.s.history, t.subject, ids[1], ids[3])
  {
    m' := ComesToRotate(c, m, i, t);
    m' := ComesToRotate(c, m', k, t);
    var h0, now, role := m'.s.history, m'.s.now, m'.calls[i].read.role;
    var family := FamilyOf(h0, t.jti).value;
    var one := GenerateTokenPair(c, now, t.subject, role, ids[0], ids[1]);
    var two := GenerateTokenPair(c, now, t.subject, role, ids[2], ids[3]);
    m' := RotatesToTheEnd(c, m', i, t, ids[0], ids[1]);
    RotationFacts(h0, t.subject, t.jti, one.access, one.refresh, family);
    var h1 := m'.s.history;
    m' := RotatesToTheEnd(c, m', k, t, ids[2], ids[3]);
    RotationFacts(h1, t.subject, t.jti, two.access, two.refresh, family);
  }

  /** The account of the witness run, its address verified. */
  lemma SignUp(c: Config) returns (m: I.Machine)
    ensures Reached(c, m) && m.calls == map[0 := I.Over, 1 := I.Over] && m.s.now == 0 && m.s.keys == NO_KEYS
    ensures m.s.users == map[1 := Account(Some("secret"), "", RoleUser, true, true)]
    ensures m.s.history == Then(Then(Nothing, AccountMade(1)), EmailVerified(1))
  {
    assert I.Run(c, I.Idle(0), []) == I.Idle(0);
    m := ReachedNext(c, I.Idle(0), I.Begin(0, Register(1, "secret", "", RoleUser)));
    m := ReachedNext(c, m, I.Begin(1, VerifyEmail(1)));
  }

  lemma SignIn(c: Config) returns (m: I.Machine)
    requires c.refresh >= SECOND
    ensures var pair := GenerateTokenPair(c, 0, 1, RoleUser, 10, 11); var t := pair.refresh;
      && Reached(c, m) && m.calls.Keys == {0, 1, 2} && m.s.now == 0 && 1 in m.s.users && m.s.users[1].active
      && IsRefreshTokenActive(m.s.keys, 0, 1, 11)
      && m.s.history ==
        Then(Then(Then(Then(Nothing, AccountMade(1)), EmailVerified(1)), Minted(pair.access, t, 11)), Stored(1, 11))
  {
    m := SignUp(c);
    m := ReachedNext(c, m, I.Begin(2, Login(1, "secret", 0, 0)));
    m := ReachedNext(c, m, I.Advance(2, 0, 0));
    assert m.calls[2] == I.Minting(1, I.Read(RoleUser, 0), None);
    assert FreshPair(m.s.history, 10, 11);
    m := ReachedNext(c, m, I.Advance(2, 10, 11));
    m := ReachedNext(c, m, I.Advance(2, 0, 0));
  }

  lemma SignInFacts(c: Config, h: History)
    requires var pair := GenerateTokenPair(c, 0, 1, RoleUser, 10, 11);
      h ==
        Then(Then(Then(Then(Nothing, AccountMade(1)), EmailVerified(1)), Minted(pair.access, pair.refresh, 11)),
             Stored(1, 11))
    ensures Issued(h, GenerateTokenPair(c, 0, 1, RoleUser, 10, 11).refresh) && FamilyOf(h, 11) == Some(11)
    ensures forall j :: KnownJti(h, j) <==> j == 10 || j == 11
  {
    var pair := GenerateTokenPair(c, 0, 1, RoleUser, 10, 11);
    var h1 := Then(Nothing, AccountMade(1));
    var h2 := Then(h1, EmailVerified(1));
    AuthInvariant.NotMinted(Nothing, AccountMade(1));
    AuthInvariant.NotMinted(h1, EmailVerified(1));
    AuthInvariant.OneMinted(h2, pair.access, pair.refresh, 11);
    AuthInvariant.NotMinted(Then(h2, Minted(pair.access, pair.refresh, 11)), Stored(1, 11));
  }

  /** So the condition of OneKeptPerFamily is needed: a run without it, for all lifetimes that outlast a second. */
  lemma SomeRunForksAFamily(c: Config)
    requires c.refresh >= SECOND
    ensures exists actions, j, j' :: Forked(I.Run(c, I.Idle(0), actions).s.history, 1, j, j')
  {
    var m := SignIn(c);
    SignInFacts(c, m.s.history);
    m := TwoRefreshesFork(c, m, GenerateTokenPair(c, 0, 1, RoleUser, 10, 11).refresh, 3, 4, [20, 21, 30, 31]);
    var actions :| I.Run(c, I.Idle(0), actions) == m;
    assert Forked(I.Run(c, I.Idle(0), actions).s.history, 1, 21, 31);
  }
}
