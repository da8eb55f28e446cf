/**
 * The two machines of the session calls agree: a call whose store calls run
 * without anything in between does what the one-step protocol says.
 */
module AuthAlone {
  import opened Clock
  import opened Wrappers
  import opened Jwt
  import opened SessionKeys
  import P = AuthProtocol
  import opened AuthInterleaving

  /** The identifiers that the call's pair gets. */
  function AccessOf(op: P.Op): Uuid {
    match op
    case Login(_, _, access, _) => access
    case RefreshSession(_, access, _) => access
    case ChangePassword(_, _, _, access, _) => access
    case _ => 0
  }

  function RefreshOf(op: P.Op): Uuid {
    match op
    case Login(_, _, _, refresh) => refresh
    case RefreshSession(_, _, refresh) => refresh
    case ChangePassword(_, _, _, _, refresh) => refresh
    case _ => 0
  }

  function Advances(c: Config, s: P.State, call: Call, access: Uuid, refresh: Uuid, n: nat): (P.State, Call)
    decreases n
  {
    if n == 0 then (s, call)
    else
      var (s', call') := Step(c, s, call, access, refresh);
      Advances(c, s', call', access, refresh, n - 1)
  }

  /** From its start through five store calls, which is as many as any call makes. */
  function Alone(c: Config, s: P.State, op: P.Op): (P.State, Call) {
    Advances(c, Started(s, op), First(s, op), AccessOf(op), RefreshOf(op), 5)
  }

  /** The split machine also records where a token was registered. */
  function WithStored(s: P.State, reply: P.Reply): P.State {
    if reply.Tokens? then P.Record(s, P.Stored(reply.pair.refresh.subject, reply.pair.refresh.jti)) else s
  }

  ghost predicate Agrees(c: Config, s: P.State, op: P.Op) {
    Alone(c, s, op) == (WithStored(P.Do(c, s, op).0, P.Do(c, s, op).1), Over)
  }

  lemma Unfold(c: Config, s: P.State, call: Call, access: Uuid, refresh: Uuid)
    ensures var (s1, c1) := Step(c, s, call, access, refresh);
      var (s2, c2) := Step(c, s1, c1, access, refresh);
      var (s3, c3) := Step(c, s2, c2, access, refresh);
      var (s4, c4) := Step(c, s3, c3, access, refresh);
      Advances(c, s, call, access, refresh, 5) == Step(c, s4, c4, access, refresh)
  {
    var (s1, c1) := Step(c, s, call, access, refresh);
    var (s2, c2) := Step(c, s1, c1, access, refresh);
    var (s3, c3) := Step(c, s2, c2, access, refresh);
    var (s4, c4) := Step(c, s3, c3, access, refresh);
    var (s5, c5) := Step(c, s4, c4, access, refresh);
    assert Advances(c, s5, c5, access, refresh, 0) == (s5, c5);
    assert Advances(c, s4, c4, access, refresh, 1) == Advances(c, s5, c5, access, refresh, 0);
    assert Advances(c, s3, c3, access, refresh, 2) == Advances(c, s4, c4, access, refresh, 1);
    assert Advances(c, s2, c2, access, refresh, 3) == Advances(c, s3, c3, access, refresh, 2);
    assert Advances(c, s1, c1, access, refresh, 4) == Advances(c, s2, c2, access, refresh, 3);
  }

  lemma OneStepCallsAgree(c: Config, s: P.State, op: P.Op)
    requires op.Register? || op.VerifyEmail? || op.ResetPassword? || op.LogoutAll? || op.DeleteUser?
    requires op.Register? ==> !P.KnownId(s.history, op.id)
    ensures Agrees(c, s, op)
  {
    Unfold(c, Started(s, op), First(s, op), AccessOf(op), RefreshOf(op));
  }

  lemma LogoutAgrees(c: Config, s: P.State, op: P.Op)
    requires op.Logout?
    ensures Agrees(c, s, op)
  {
    Unfold(c, Started(s, op), First(s, op), AccessOf(op), RefreshOf(op));
  }

  lemma UpdateAgrees(c: Config, s: P.State, op: P.Op)
    requires op.UpdateUser?
    ensures Agrees(c, s, op)
  {
    Unfold(c, Started(s, op), First(s, op), AccessOf(op), RefreshOf(op));
  }

  lemma LoginAgrees(c: Config, s: P.State, op: P.Op)
    requires op.Login? && P.FreshPair(s.history, AccessOf(op), RefreshOf(op))
    ensures Agrees(c, s, op)
  {
    Unfold(c, Started(s, op), First(s, op), AccessOf(op), RefreshOf(op));
  }

  lemma ChangePasswordAgrees(c: Config, s: P.State, op: P.Op)
    requires op.ChangePassword? && P.FreshPair(s.history, AccessOf(op), RefreshOf(op))
    ensures Agrees(c, s, op)
  {
    Unfold(c, Started(s, op), First(s, op), AccessOf(op), RefreshOf(op));
  }

  lemma RefreshAgrees(c: Config, s: P.State, op: P.Op)
    requires op.RefreshSession? && P.FreshPair(s.history, AccessOf(op), RefreshOf(op))
    ensures Agrees(c, s, op)
  {
    Unfold(c, Started(s, op), First(s, op), AccessOf(op), RefreshOf(op));
  }

  /** Left alone, every call ends, with the users, the keys and the history of the one-step protocol. */
  lemma UninterruptedCallIsServed(c: Config, s: P.State, op: P.Op)
    requires P.Enabled(s, P.Event(s.now, op))
    ensures Alone(c, s, op) == (WithStored(P.Do(c, s, op).0, P.Do(c, s, op).1), Over)
  {
    match op
    case Login(_, _, _, _) => LoginAgrees(c, s, op);
    case RefreshSession(_, _, _) => RefreshAgrees(c, s, op);
    case ChangePassword(_, _, _, _, _) => ChangePasswordAgrees(c, s, op);
    case Logout(_, _) => LogoutAgrees(c, s, op);
    case UpdateUser(_, _, _) => UpdateAgrees(c, s, op);
    case _ => OneStepCallsAgree(c, s, op);
  }

  /** ... and that is what the machine does, with any other calls waiting meanwhile. */
  lemma MachineServesAlone(c: Config, m: Machine, i: int, op: P.Op)
    requires i !in m.calls && P.Enabled(m.s, P.Event(m.s.now, op))
    ensures var a := Advance(i, AccessOf(op), RefreshOf(op));
      var m' := Next(c, Next(c, Next(c, Next(c, Next(c, Next(c, m, Begin(i, op)), a), a), a), a), a);
      && m'.s == WithStored(P.Do(c, m.s, op).0, P.Do(c, m.s, op).1)
      && m'.calls == m.calls[i := Over]
  {
    var access, refresh := AccessOf(op), RefreshOf(op);
    var a := Advance(i, access, refresh);
    UninterruptedCallIsServed(c, m.s, op);
    Unfold(c, Started(m.s, op), First(m.s, op), access, refresh);
    var m0 := Next(c, m, Begin(i, op));
    var m1 := Next(c, m0, a);
    AdvanceSteps(c, m0, i, access, refresh);
    var m2 := Next(c, m1, a);
    AdvanceSteps(c, m1, i, access, refresh);
    var m3 := Next(c, m2, a);
    AdvanceSteps(c, m2, i, access, refresh);
    var m4 := Next(c, m3, a);
    AdvanceSteps(c, m3, i, access, refresh);
    AdvanceSteps(c, m4, i, access, refresh);
    assert Next(c, m4, a).calls == m.calls[i := Over];
  }

  lemma AdvanceSteps(c: Config, m: Machine, i: int, access: Uuid, refresh: Uuid)
    requires i in m.calls
    ensures var m' := Next(c, m, Advance(i, access, refresh));
      (m'.s, m'.calls[i]) == Step(c, m.s, m.calls[i], access, refresh) && m'.calls == m.calls[i := m'.calls[i]]
  {
  }
}
