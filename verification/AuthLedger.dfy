/**
 * What the calls and their replies say about accounts, without looking at any
 * state: every column of an account's row, and every reply, as a function of
 * what was asked and answered before.
 */
module AuthLedger {
  import opened Clock
  import opened Wrappers
  import opened Text
  import opened Jwt
  import opened AuthProtocol
  import AuthTheorems
  import SessionKeys

  /** A call that was served, and its reply. */
  datatype Entry = Entry(event: Event, reply: Reply)

  /** The service beside the log of its calls. */
  datatype Ledger = Ledger(s: State, log: seq<Entry>)

  function Serve(c: Config, l: Ledger, e: Event): Ledger {
    if !Enabled(l.s, e) then l
    else
      var (s, reply) := Do(c, l.s.(now := e.at), e.op);
      Ledger(s, l.log + [Entry(e, reply)])
  }

  function ServeAll(c: Config, l: Ledger, events: seq<Event>): Ledger
    decreases |events|
  {
    if events == [] then l else ServeAll(c, Serve(c, l, events[0]), events[1..])
  }

  /** The ledger after a run of an empty service. */
  function After(c: Config, start: Time, events: seq<Event>): Ledger {
    ServeAll(c, Ledger(Start(start), []), events)
  }

  // ---- What one entry sets ------------------------------------------------------------------

  function SetsPassword(id: Uuid): Entry -> Option<string> {
    (e: Entry) =>
      match e.event.op
      case Register(u, password, _, _) => if u == id then Some(password) else None
      case ChangePassword(bearer, _, next, _, _) =>
        if bearer.subject == id && e.reply.Tokens? then Some(next) else None
      case ResetPassword(u, next) => if u == id && e.reply.Success? then Some(next) else None
      case _ => None
  }

  function SetsName(id: Uuid): Entry -> Option<string> {
    (e: Entry) =>
      match e.event.op
      case Register(u, _, fullName, _) => if u == id then Some(TrimSpace(fullName)) else None
      case UpdateUser(_, u, change) =>
        if u == id && e.reply.Success? && change.fullName.Some? then Some(TrimSpace(change.fullName.value)) else None
      case _ => None
  }

  function SetsRole(id: Uuid): Entry -> Option<Role> {
    (e: Entry) =>
      match e.event.op
      case Register(u, _, _, role) => if u == id then Some(role) else None
      case UpdateUser(_, u, change) =>
        if u == id && e.reply.Success? && change.role.Some? && change.role.value.Named?
        then Some(change.role.value.role) else None
      case _ => None
  }

  function SetsActive(id: Uuid): Entry -> Option<bool> {
    (e: Entry) =>
      match e.event.op
      case Register(u, _, _, _) => if u == id then Some(true) else None
      case UpdateUser(_, u, change) => if u == id && e.reply.Success? then change.active else None
      case _ => None
  }

  function SetsVerified(id: Uuid): Entry -> Option<bool> {
    (e: Entry) =>
      match e.event.op
      case Register(u, _, _, _) => if u == id then Some(false) else None
      case VerifyEmail(u) => if u == id && e.reply.Success? then Some(true) else None
      case _ => None
  }

  function SetsPresence(id: Uuid): Entry -> Option<bool> {
    (e: Entry) =>
      match e.event.op
      case Register(u, _, _, _) => if u == id then Some(true) else None
      case DeleteUser(_, u) => if u == id && e.reply.Success? then Some(false) else None
      case _ => None
  }

  /** What the latest entry that sets anything sets. */
  function Last<T>(sets: Entry -> Option<T>, log: seq<Entry>): Option<T> {
    if log == [] then None
    else if sets(log[|log| - 1]).Some? then sets(log[|log| - 1])
    else Last(sets, log[..|log| - 1])
  }

  lemma LastGrows<T>(sets: Entry -> Option<T>, log: seq<Entry>, e: Entry)
    ensures Last(sets, log + [e]) == if sets(e).Some? then sets(e) else Last(sets, log)
  {
    assert (log + [e])[..|log|] == log;
  }

  /** Entries that set nothing change nothing. */
  lemma {:induction false} LastStays<T>(sets: Entry -> Option<T>, log: seq<Entry>, more: seq<Entry>)
    requires forall i :: 0 <= i < |more| ==> sets(more[i]) == None
    ensures Last(sets, log + more) == Last(sets, log)
  {
    if more == [] {
      assert log + more == log;
    } else {
      var n := |more| - 1;
      assert (log + more)[..|log| + n] == log + more[..n];
      LastStays(sets, log, more[..n]);
    }
  }

  predicate Exists(log: seq<Entry>, id: Uuid) {
    Last(SetsPresence(id), log) == Some(true)
  }

  // ---- Every row is what the log says ----------------------------------------------------------

  ghost predicate RowAgrees(l: Ledger, id: Uuid) {
    && (id in l.s.users <==> Exists(l.log, id))
    && (id in l.s.users ==>
          && l.s.users[id].password == Last(SetsPassword(id), l.log)
          && Last(SetsName(id), l.log) == Some(l.s.users[id].fullName)
          && Last(SetsRole(id), l.log) == Some(l.s.users[id].role)
          && Last(SetsActive(id), l.log) == Some(l.s.users[id].active)
          && Last(SetsVerified(id), l.log) == Some(l.s.users[id].verified))
  }

  /** The entry sets columns of the row, or of none. */
  ghost predicate Follows(users': map<Uuid, Account>, users: map<Uuid, Account>, entry: Entry, id: Uuid) {
    && (id in users' <==> Coalesce(SetsPresence(id)(entry), id in users))
    && (id in users' ==>
          && (id !in users ==> entry.event.op.Register?)
          && (SetsPassword(id)(entry).Some? ==> users'[id].password == SetsPassword(id)(entry))
          && (SetsPassword(id)(entry).None? ==> id in users && users'[id].password == users[id].password)
          && (SetsName(id)(entry).Some? ==> Some(users'[id].fullName) == SetsName(id)(entry))
          && (SetsName(id)(entry).None? ==> id in users && users'[id].fullName == users[id].fullName)
          && (SetsRole(id)(entry).Some? ==> Some(users'[id].role) == SetsRole(id)(entry))
          && (SetsRole(id)(entry).None? ==> id in users && users'[id].role == users[id].role)
          && (SetsActive(id)(entry).Some? ==> Some(users'[id].active) == SetsActive(id)(entry))
          && (SetsActive(id)(entry).None? ==> id in users && users'[id].active == users[id].active)
          && (SetsVerified(id)(entry).Some? ==> Some(users'[id].verified) == SetsVerified(id)(entry))
          && (SetsVerified(id)(entry).None? ==> id in users && users'[id].verified == users[id].verified))
  }

  lemma AccountCallsFollow(c: Config, s: State, e: Event, id: Uuid)
    requires e.op.Register? || e.op.VerifyEmail? || e.op.ResetPassword? || e.op.DeleteUser?
    ensures Follows(Served(c, s, e).users, s.users, Entry(e, ReplyTo(c, s, e)), id)
  {
  }

  lemma PasswordChangeFollows(c: Config, s: State, e: Event, id: Uuid)
    requires e.op.ChangePassword?
    ensures Follows(Served(c, s, e).users, s.users, Entry(e, ReplyTo(c, s, e)), id)
  {
  }

  lemma UpdateFollows(c: Config, s: State, e: Event, id: Uuid)
    requires e.op.UpdateUser?
    ensures Follows(Served(c, s, e).users, s.users, Entry(e, ReplyTo(c, s, e)), id)
  {
  }

  lemma SessionCallsFollow(c: Config, s: State, e: Event, id: Uuid)
    requires e.op.Login? || e.op.RefreshSession? || e.op.Logout? || e.op.LogoutAll?
    ensures Follows(Served(c, s, e).users, s.users, Entry(e, ReplyTo(c, s, e)), id)
  {
    assert Served(c, s, e).users == s.users;
  }

  /** The state after a call that is served. */
  function Served(c: Config, s: State, e: Event): State {
    Do(c, s.(now := e.at), e.op).0
  }

  lemma CallFollows(c: Config, s: State, e: Event, id: Uuid)
    ensures Follows(Served(c, s, e).users, s.users, Entry(e, ReplyTo(c, s, e)), id)
  {
    match e.op
    case ChangePassword(_, _, _, _, _) => PasswordChangeFollows(c, s, e, id);
    case UpdateUser(_, _, _) => UpdateFollows(c, s, e, id);
    case Login(_, _, _, _) => SessionCallsFollow(c, s, e, id);
    case RefreshSession(_, _, _) => SessionCallsFollow(c, s, e, id);
    case Logout(_, _) => SessionCallsFollow(c, s, e, id);
    case LogoutAll(_) => SessionCallsFollow(c, s, e, id);
    case _ => AccountCallsFollow(c, s, e, id);
  }

  lemma RowStaysAgreed(c: Config, l: Ledger, e: Event, id: Uuid)
    requires RowAgrees(l, id) && Enabled(l.s, e)
    ensures RowAgrees(Serve(c, l, e), id)
  {
    var (s', reply) := Do(c, l.s.(now := e.at), e.op);
    CallFollows(c, l.s, e, id);
    FollowingAgrees(l, s', Entry(e, reply), id);
  }

  lemma FollowingAgrees(l: Ledger, s': State, entry: Entry, id: Uuid)
    requires RowAgrees(l, id) && Follows(s'.users, l.s.users, entry, id)
    ensures RowAgrees(Ledger(s', l.log + [entry]), id)
  {
    LastGrows(SetsPresence(id), l.log, entry);
    LastGrows(SetsPassword(id), l.log, entry);
    LastGrows(SetsName(id), l.log, entry);
    LastGrows(SetsRole(id), l.log, entry);
    LastGrows(SetsActive(id), l.log, entry);
    LastGrows(SetsVerified(id), l.log, entry);
  }

  lemma {:induction false} RowsStayAgreed(c: Config, l: Ledger, events: seq<Event>, id: Uuid)
    requires RowAgrees(l, id)
    ensures RowAgrees(ServeAll(c, l, events), id)
    decreases |events|
  {
    if events != [] {
      if Enabled(l.s, events[0]) {
        RowStaysAgreed(c, l, events[0], id);
      }
      RowsStayAgreed(c, Serve(c, l, events[0]), events[1..], id);
    }
  }

  lemma {:induction false} LedgerRuns(c: Config, l: Ledger, events: seq<Event>)
    ensures ServeAll(c, l, events).s == Run(c, l.s, events)
    decreases |events|
  {
    if events != [] {
      LedgerRuns(c, Serve(c, l, events[0]), events[1..]);
    }
  }

  /** After every run an account is there, and its columns are, what the latest call that set them made of them. */
  lemma RowIsWhatTheLogSays(c: Config, start: Time, events: seq<Event>, id: Uuid)
    ensures RowAgrees(After(c, start, events), id)
    ensures AuthTheorems.Reachable(c, After(c, start, events).s)
  {
    RowsStayAgreed(c, Ledger(Start(start), []), events, id);
    LedgerRuns(c, Ledger(Start(start), []), events);
  }

  // ---- Every reply is decided by the log and the history -----------------------------------------

  /** The bearer token is genuine, of the right kind, unexpired, not logged out and not revoked. */
  predicate Accepted(h: History, t: Claims, at: Time) {
    Issued(h, t) && t.typ == Access && at < t.exp * SECOND && !LoggedOut(h, t.jti) && !RevokedAfter(h, t.subject, t.iat)
  }

  /** Forged tokens and refresh tokens are never accepted as bearers. */
  lemma BearerIsDecided(c: Config, s: State, t: Claims, at: Time)
    requires AuthTheorems.Reachable(c, s) && s.now <= at
    ensures Authenticate(s, t, at) <==> Accepted(s.history, t, at)
  {
    if Issued(s.history, t) && t.typ == Access {
      AuthTheorems.AcceptedIffHistoryAllows(c, s, t, at);
    }
  }

  /** A token that was not issued, or is no refresh token, refreshes nothing and changes nothing. */
  lemma OnlyRefreshTokensRefresh(c: Config, s: State, t: Claims, access: Uuid, refresh: Uuid)
    requires !Issued(s.history, t) || t.typ != Refresh
    ensures DoRefresh(c, s, t, access, refresh) == (s, Unauthorized)
  {
  }

  /** Whether the account may sign in with that password, by the log alone. */
  predicate MaySignIn(log: seq<Entry>, id: Uuid, password: string) {
    && Exists(log, id)
    && Last(SetsPassword(id), log) == Some(password)
    && Last(SetsActive(id), log) == Some(true)
    && Last(SetsVerified(id), log) == Some(true)
  }

  function ReplyTo(c: Config, s: State, e: Event): Reply {
    Do(c, s.(now := e.at), e.op).1
  }

  /**
   * Signing in succeeds exactly with the password set last, for an existing
   * account that is active and verified; a wrong password and an unknown
   * account are not told apart.
   */
  lemma SignInLaw(c: Config, start: Time, events: seq<Event>, e: Event)
    requires e.op.Login? && Enabled(After(c, start, events).s, e)
    ensures var l := After(c, start, events); var reply := ReplyTo(c, l.s, e); var id := e.op.id;
      && (reply.Tokens? <==> MaySignIn(l.log, id, e.op.password))
      && (reply.Unauthorized? <==> !Exists(l.log, id) || Last(SetsPassword(id), l.log) != Some(e.op.password))
      && (reply.Tokens? || reply.Unauthorized? || reply.Forbidden?)
  {
    RowIsWhatTheLogSays(c, start, events, e.op.id);
  }

  lemma {:induction false} LogExtends(c: Config, l: Ledger, events: seq<Event>)
    ensures l.log <= ServeAll(c, l, events).log
    decreases |events|
  {
    if events != [] {
      LogExtends(c, Serve(c, l, events[0]), events[1..]);
    }
  }

  /** No entry from the n-th on sets the account's password, presence, activity or verification. */
  ghost predicate LeavesSignInAlone(log: seq<Entry>, n: int, id: Uuid) {
    forall i :: 0 <= n <= i < |log| ==>
      && SetsPassword(id)(log[i]) == None && SetsPresence(id)(log[i]) == None
      && SetsActive(id)(log[i]) == None && SetsVerified(id)(log[i]) == None
  }

  lemma SameSignIn(log: seq<Entry>, later: seq<Entry>, id: Uuid)
    requires log <= later && LeavesSignInAlone(later, |log|, id)
    ensures forall password :: MaySignIn(later, id, password) <==> MaySignIn(log, id, password)
  {
    var rest := later[|log|..];
    assert later == log + rest;
    assert forall i :: 0 <= i < |rest| ==> rest[i] == later[|log| + i];
    LastStays(SetsPassword(id), log, rest);
    LastStays(SetsPresence(id), log, rest);
    LastStays(SetsActive(id), log, rest);
    LastStays(SetsVerified(id), log, rest);
  }

  /** The call gave the account a password: at registration, by a change or by a reset. */
  predicate Gives(entry: Entry, id: Uuid, password: string) {
    SetsPassword(id)(entry) == Some(password)
  }

  /**
   * Once an account that can sign in was given a password, exactly that
   * password signs in, through everything that happens later and does not
   * concern its password, presence, activity or verification.
   */
  lemma NewPasswordSignsIn(
      c: Config, start: Time, before: seq<Event>, given: Event, password: string, more: seq<Event>, e: Event)
    requires var l := After(c, start, before + [given]);
      && e.op.Login? && l.log != [] && Gives(l.log[|l.log| - 1], e.op.id, password)
      && Exists(l.log, e.op.id) && Last(SetsActive(e.op.id), l.log) == Some(true)
      && Last(SetsVerified(e.op.id), l.log) == Some(true)
    requires var later := After(c, start, before + [given] + more);
      LeavesSignInAlone(later.log, |After(c, start, before + [given]).log|, e.op.id) && Enabled(later.s, e)
    ensures ReplyTo(c, After(c, start, before + [given] + more).s, e).Tokens? <==> e.op.password == password
  {
    var id, l := e.op.id, After(c, start, before + [given]);
    var later := After(c, start, before + [given] + more);
    ServeAppends(c, Ledger(Start(start), []), before + [given], more);
    LogExtends(c, l, more);
    SameSignIn(l.log, later.log, id);
    SignInLaw(c, start, before + [given] + more, e);
  }

  lemma {:induction false} ServeAppends(c: Config, l: Ledger, first: seq<Event>, more: seq<Event>)
    ensures ServeAll(c, l, first + more) == ServeAll(c, ServeAll(c, l, first), more)
    decreases |first|
  {
    if first == [] {
      assert first + more == more;
    } else {
      assert (first + more)[1..] == first[1..] + more;
      ServeAppends(c, Serve(c, l, first[0]), first[1..], more);
    }
  }

  /** From nothing: a registered and verified account signs in with the password it registered with, and no other. */
  lemma RegisteredAccountSignsIn(c: Config, start: Time, events: seq<Event>, r: Event, v: Event, e: Event)
    requires r.op.Register? && Enabled(After(c, start, events).s, r) && r.at <= v.at <= e.at
    requires v.op == VerifyEmail(r.op.id) && e.op.Login? && e.op.id == r.op.id
    requires Enabled(After(c, start, events + [r, v]).s, e)
    ensures ReplyTo(c, After(c, start, events + [r, v]).s, e).Tokens? <==> e.op.password == r.op.password
  {
    var l0 := After(c, start, events);
    ServeAppends(c, Ledger(Start(start), []), events, [r, v]);
    var l1 := Serve(c, l0, r);
    var l2 := Serve(c, l1, v);
    assert [r, v][1..] == [v] && [v][1..] == [];
    assert ServeAll(c, l0, [r, v]) == ServeAll(c, l1, [v]) == ServeAll(c, l2, []) == l2;
    assert Enabled(l1.s, v) && e.op.id in l1.s.users;
    TwoEntries(l0.log, l1.log[|l0.log|], l2.log[|l1.log|], e.op.id);
    SignInLaw(c, start, events + [r, v], e);
  }

  lemma TwoEntries(log: seq<Entry>, r: Entry, v: Entry, id: Uuid)
    requires r.event.op.Register? && r.event.op.id == id && v.event.op == VerifyEmail(id) && v.reply.Success?
    ensures forall password :: MaySignIn(log + [r] + [v], id, password) <==> password == r.event.op.password
  {
    LastGrows(SetsPresence(id), log, r);
    LastGrows(SetsPresence(id), log + [r], v);
    LastGrows(SetsPassword(id), log, r);
    LastGrows(SetsPassword(id), log + [r], v);
    LastGrows(SetsActive(id), log, r);
    LastGrows(SetsActive(id), log + [r], v);
    LastGrows(SetsVerified(id), log + [r], v);
  }

  // ---- Who may do what -----------------------------------------------------------------------------

  lemma ReachedBearer(c: Config, start: Time, events: seq<Event>, t: Claims, at: Time)
    requires After(c, start, events).s.now <= at
    ensures var s := After(c, start, events).s;
      Authenticate(s.(now := at), t, at) <==> Accepted(s.history, t, at)
  {
    RowIsWhatTheLogSays(c, start, events, 0);
    BearerIsDecided(c, After(c, start, events).s, t, at);
  }

  /** A password is changed exactly by an accepted bearer who knows it, and only to another one. */
  lemma ChangePasswordLaw(c: Config, start: Time, events: seq<Event>, e: Event)
    requires e.op.ChangePassword? && Enabled(After(c, start, events).s, e)
    ensures var l := After(c, start, events); var reply := ReplyTo(c, l.s, e); var id := e.op.bearer.subject;
      var known := Exists(l.log, id) && Last(SetsPassword(id), l.log) == Some(e.op.current);
      && (reply.Tokens? <==> Accepted(l.s.history, e.op.bearer, e.at) && known && e.op.current != e.op.next)
      && (reply.BadRequest? <==> Accepted(l.s.history, e.op.bearer, e.at) && known && e.op.current == e.op.next)
      && (reply.NotFound? <==> Accepted(l.s.history, e.op.bearer, e.at) && !Exists(l.log, id))
      && (reply.Tokens? || reply.BadRequest? || reply.NotFound? || reply.Unauthorized?)
  {
    RowIsWhatTheLogSays(c, start, events, e.op.bearer.subject);
    ReachedBearer(c, start, events, e.op.bearer, e.at);
  }

  /** Signing out, here or everywhere, succeeds exactly for accepted bearers. */
  lemma SignOutLaw(c: Config, start: Time, events: seq<Event>, e: Event)
    requires (e.op.Logout? || e.op.LogoutAll?) && Enabled(After(c, start, events).s, e)
    ensures var l := After(c, start, events); var reply := ReplyTo(c, l.s, e);
      reply == if Accepted(l.s.history, e.op.bearer, e.at) then Success else Unauthorized
  {
    ReachedBearer(c, start, events, e.op.bearer, e.at);
  }

  /** A consumed link works exactly for accounts that still exist. */
  lemma LinkLaw(c: Config, start: Time, events: seq<Event>, e: Event)
    requires (e.op.VerifyEmail? || e.op.ResetPassword?) && Enabled(After(c, start, events).s, e)
    ensures var l := After(c, start, events);
      ReplyTo(c, l.s, e) == if Exists(l.log, e.op.id) then Success else BadRequest
  {
    RowIsWhatTheLogSays(c, start, events, e.op.id);
  }

  /** An update is for administrators and for oneself, and only administrators change roles and activity. */
  lemma UpdateLaw(c: Config, start: Time, events: seq<Event>, e: Event)
    requires e.op.UpdateUser? && Enabled(After(c, start, events).s, e)
    ensures var l := After(c, start, events); var reply := ReplyTo(c, l.s, e);
      var t, id, change := e.op.bearer, e.op.id, e.op.change;
      var accepted := Accepted(l.s.history, t, e.at);
      var entitled := t.role == RoleAdmin || (t.subject == id && change.role == None && change.active == None);
      var sensible :=
        (change.role.Some? ==> change.role.value.Named?) && !(t.subject == id && change.active == Some(false));
      && (reply.Success? <==> accepted && entitled && sensible && Exists(l.log, id))
      && (reply.Unauthorized? <==> !accepted)
      && (reply.Forbidden? <==> accepted && !entitled)
      && (reply.BadRequest? <==> accepted && entitled && !sensible)
      && (reply.NotFound? <==> accepted && entitled && sensible && !Exists(l.log, id))
  {
    RowIsWhatTheLogSays(c, start, events, e.op.id);
    ReachedBearer(c, start, events, e.op.bearer, e.at);
  }

  /** Accounts are deleted by administrators, but for their own, and by their owners, but for administrators. */
  lemma DeleteLaw(c: Config, start: Time, events: seq<Event>, e: Event)
    requires e.op.DeleteUser? && Enabled(After(c, start, events).s, e)
    ensures var l := After(c, start, events); var reply := ReplyTo(c, l.s, e); var t, id := e.op.bearer, e.op.id;
      var accepted, admin := Accepted(l.s.history, t, e.at), t.role == RoleAdmin;
      && (reply.Success? <==> accepted && (admin <==> t.subject != id) && Exists(l.log, id))
      && (reply.Unauthorized? <==> !accepted)
      && (reply.Forbidden? <==> accepted && !admin && t.subject != id)
      && (reply.BadRequest? <==> accepted && admin && t.subject == id)
      && (reply.NotFound? <==> accepted && (admin <==> t.subject != id) && !Exists(l.log, id))
  {
    RowIsWhatTheLogSays(c, start, events, e.op.id);
    ReachedBearer(c, start, events, e.op.bearer, e.at);
  }

  /** A role or an activity that differs after a call was changed by an accepted administrator. */
  lemma OnlyAdministratorsGrant(c: Config, s: State, e: Event, id: Uuid)
    requires AuthTheorems.Reachable(c, s) && Enabled(s, e) && id in s.users && id in Next(c, s, e).users
    requires var s' := Next(c, s, e); s'.users[id].role != s.users[id].role || s'.users[id].active != s.users[id].active
    ensures e.op.UpdateUser? && e.op.id == id
    ensures Accepted(s.history, e.op.bearer, e.at) && e.op.bearer.role == RoleAdmin
  {
    RowsChangeByRight(c, s, e, id);
  }

  /** The call comes from the account's owner or an administrator, or follows a consumed link. */
  predicate ByRight(s: State, e: Event, id: Uuid) {
    match e.op
    case VerifyEmail(u) => u == id
    case ResetPassword(u, _) => u == id
    case ChangePassword(t, current, _, _, _) =>
      t.subject == id && Accepted(s.history, t, e.at) && id in s.users && s.users[id].password == Some(current)
    case UpdateUser(t, u, _) => u == id && Accepted(s.history, t, e.at) && (t.role == RoleAdmin || t.subject == id)
    case DeleteUser(t, u) => u == id && Accepted(s.history, t, e.at) && (t.role == RoleAdmin <==> t.subject != id)
    case _ => false
  }

  lemma AccountsAreKnown(c: Config, s: State, id: Uuid)
    requires AuthTheorems.Reachable(c, s) && id in s.users
    ensures KnownId(s.history, id)
  {
    AuthTheorems.ReachableInv(c, s, s.now);
  }

  /** Nobody else's call changes or removes a row. */
  lemma RowsChangeByRight(c: Config, s: State, e: Event, id: Uuid)
    requires AuthTheorems.Reachable(c, s) && Enabled(s, e) && id in s.users
    requires id !in Next(c, s, e).users || Next(c, s, e).users[id] != s.users[id]
    ensures ByRight(s, e, id)
  {
    AccountsAreKnown(c, s, id);
    match e.op
    case ChangePassword(t, _, _, _, _) => BearerIsDecided(c, s, t, e.at);
    case UpdateUser(t, _, _) => BearerIsDecided(c, s, t, e.at);
    case DeleteUser(t, _) => BearerIsDecided(c, s, t, e.at);
    case _ =>
  }

  /** An accepted administrator's update of another account sets what it names and leaves the rest. */
  lemma AdministratorsUpdate(c: Config, s: State, e: Event)
    requires AuthTheorems.Reachable(c, s) && Enabled(s, e) && e.op.UpdateUser? && e.op.id in s.users
    requires Accepted(s.history, e.op.bearer, e.at) && e.op.bearer.role == RoleAdmin && e.op.bearer.subject != e.op.id
    requires e.op.change.role.Some? ==> e.op.change.role.value.Named?
    ensures var s', change, was := Next(c, s, e), e.op.change, s.users[e.op.id];
      && ReplyTo(c, s, e) == Success && e.op.id in s'.users
      && (var row := s'.users[e.op.id];
          && (change.role.Some? ==> Named(row.role) == change.role.value)
          && (change.role.None? ==> row.role == was.role)
          && (change.active.Some? ==> Some(row.active) == change.active)
          && (change.active.None? ==> row.active == was.active)
          && (change.fullName.Some? ==> row.fullName == TrimSpace(change.fullName.value))
          && (change.fullName.None? ==> row.fullName == was.fullName)
          && row.password == was.password && row.verified == was.verified)
      && (forall u :: u != e.op.id ==>
            (u in s'.users <==> u in s.users) && (u in s.users ==> s'.users[u] == s.users[u]))
  {
    BearerIsDecided(c, s, e.op.bearer, e.at);
  }

  // ---- What a reply hands out ------------------------------------------------------------------------

  function CallerOf(op: Op): Uuid
    requires op.Login? || op.RefreshSession? || op.ChangePassword?
  {
    match op
    case Login(id, _, _, _) => id
    case RefreshSession(token, _, _) => token.subject
    case ChangePassword(bearer, _, _, _, _) => bearer.subject
  }

  /**
   * The pair belongs to the caller and carries the role of the row. The access
   * token is accepted, and the refresh token active, until the second in which
   * the configured lifetime ends.
   */
  lemma PairIsTheCallers(c: Config, s: State, e: Event, at: Time)
    requires AuthTheorems.Reachable(c, s) && Enabled(s, e) && e.at <= at && ReplyTo(c, s, e).Tokens?
    ensures e.op.Login? || e.op.RefreshSession? || e.op.ChangePassword?
    ensures var pair, id, s' := ReplyTo(c, s, e).pair, CallerOf(e.op), Next(c, s, e);
      && pair.access.subject == id && pair.refresh.subject == id
      && pair.access.jti == e.op.access && pair.refresh.jti == e.op.refresh
      && id in s.users && pair.access.role == s.users[id].role && pair.refresh.role == s.users[id].role
      && (Authenticate(s', pair.access, at) <==> Unix(at) < Unix(e.at + c.access))
      && (SessionKeysActive(s', at, pair.refresh) <==> Unix(at) < Unix(e.at + c.refresh))
  {
    AuthTheorems.FreshPairWorks(c, s, e, at);
  }

  predicate SessionKeysActive(s: State, at: Time, t: Claims) {
    SessionKeys.IsRefreshTokenActive(s.keys, at, t.subject, t.jti)
  }

  // ---- Only after verification -------------------------------------------------------------------------

  predicate Verifies(entry: Entry, id: Uuid) {
    entry.event.op == VerifyEmail(id) && entry.reply == Success
  }

  ghost predicate VerificationLogged(l: Ledger, id: Uuid) {
    WasVerified(l.s.history, id) ==> exists k :: 0 <= k < |l.log| && Verifies(l.log[k], id)
  }

  lemma VerificationStaysLogged(c: Config, l: Ledger, e: Event, id: Uuid)
    requires VerificationLogged(l, id) && Enabled(l.s, e)
    ensures VerificationLogged(Serve(c, l, e), id)
  {
    var l' := Serve(c, l, e);
    if WasVerified(l.s.history, id) {
      var k :| 0 <= k < |l.log| && Verifies(l.log[k], id);
      assert l'.log[k] == l.log[k];
    } else if WasVerified(l'.s.history, id) {
      OnlyVerificationVerifies(c, l.s, e, id);
      assert Verifies(l'.log[|l.log|], id);
    }
  }

  lemma OnlyVerificationVerifies(c: Config, s: State, e: Event, id: Uuid)
    requires Enabled(s, e) && !WasVerified(s.history, id) && WasVerified(Served(c, s, e).history, id)
    ensures e.op == VerifyEmail(id) && ReplyTo(c, s, e) == Success
  {
  }

  lemma {:induction false} VerificationsAreLogged(c: Config, l: Ledger, events: seq<Event>, id: Uuid)
    requires VerificationLogged(l, id)
    ensures VerificationLogged(ServeAll(c, l, events), id)
    decreases |events|
  {
    if events != [] {
      if Enabled(l.s, events[0]) {
        VerificationStaysLogged(c, l, events[0], id);
      }
      VerificationsAreLogged(c, Serve(c, l, events[0]), events[1..], id);
    }
  }

  /** No pair is handed out, by whatever call, before the log holds a successful verification of its account. */
  lemma TokensNeedVerification(c: Config, start: Time, events: seq<Event>, e: Event)
    requires Enabled(After(c, start, events).s, e) && ReplyTo(c, After(c, start, events).s, e).Tokens?
    ensures var l := After(c, start, events); var id := ReplyTo(c, l.s, e).pair.access.subject;
      exists k :: 0 <= k < |l.log| && Verifies(l.log[k], id)
  {
    var l := After(c, start, events);
    RowIsWhatTheLogSays(c, start, events, 0);
    PairIsTheCallers(c, l.s, e, e.at);
    var id := CallerOf(e.op);
    VerificationsAreLogged(c, Ledger(Start(start), []), events, id);
    AuthTheorems.ReachableNext(c, l.s, e);
    MintedAreVerified(c, l.s, e);
  }

  lemma MintedAreVerified(c: Config, s: State, e: Event)
    requires AuthTheorems.Reachable(c, Next(c, s, e)) && Enabled(s, e) && ReplyTo(c, s, e).Tokens?
    ensures WasVerified(s.history, ReplyTo(c, s, e).pair.access.subject)
  {
    AuthTheorems.OnlyVerifiedAccountsGetTokens(c, Next(c, s, e));
  }
}
