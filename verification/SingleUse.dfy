/**
 * Single-use links: password resets and address verifications, with any number
 * of calls interleaved. Each read and each transaction is a step of its own.
 * app/services/auth.go (ForgotPassword, ResetPassword, VerifyEmail) over the
 * token repositories.
 */
module SingleUse {
  import opened Clock
  import opened Wrappers

  /** The two kinds of token live in two tables with one scheme. */
  datatype Purpose = ResetLink | VerifyLink

  /** A link is known by the hash of its token. */
  datatype Link = Link(purpose: Purpose, hash: int)

  datatype Token = Token(user: Uuid, expiresAt: Time, usedAt: Option<Time>) {
    predicate IsUsable(now: Time) {
      usedAt.None? && now < expiresAt
    }
  }

  datatype Account = Account(password: string, active: bool, verifiedAt: Option<Time>)

  datatype Db = Db(tokens: map<Link, Token>, users: map<Uuid, Account>)

  // ---- Statements ----------------------------------------------------------------

  /** UPDATE ... SET used_at = NOW() WHERE id = $1 AND used_at IS NULL: None when no row was affected. */
  function MarkUsed(db: Db, now: Time, link: Link): Option<Db> {
    if link in db.tokens && db.tokens[link].usedAt.None?
    then Some(db.(tokens := db.tokens[link := db.tokens[link].(usedAt := Some(now))]))
    else None
  }

  function InvalidateForUser(db: Db, now: Time, purpose: Purpose, user: Uuid): Db {
    db.(tokens := map l | l in db.tokens ::
      var t := db.tokens[l];
      if l.purpose == purpose && t.user == user && t.usedAt.None? then t.(usedAt := Some(now)) else t)
  }

  /** An INSERT fails on a repeated hash and on a user who is gone. */
  function CreateToken(db: Db, link: Link, user: Uuid, expiresAt: Time): Option<Db> {
    if link !in db.tokens && user in db.users
    then Some(db.(tokens := db.tokens[link := Token(user, expiresAt, None)])) else None
  }

  /** An UPDATE of a user who is gone affects no row and is no error. */
  function ApplyLink(db: Db, now: Time, purpose: Purpose, user: Uuid, password: string): Db {
    if user !in db.users then db
    else db.(users := db.users[user := match purpose
                                        case ResetLink => db.users[user].(password := password)
                                        case VerifyLink => db.users[user].(verifiedAt := Some(now))])
  }

  /** ON DELETE CASCADE takes the tokens along. */
  function DeleteUser(db: Db, user: Uuid): Db {
    Db(map l | l in db.tokens && db.tokens[l].user != user :: db.tokens[l], db.users - {user})
  }

  function DeleteExpired(db: Db, now: Time, purpose: Purpose): Db {
    db.(tokens := map l | l in db.tokens && !(l.purpose == purpose && db.tokens[l].expiresAt < now) :: db.tokens[l])
  }

  // ---- Transactions: the database afterwards, or None for a rollback -----------------

  function RedeemTx(db: Db, now: Time, link: Link, user: Uuid, password: string): Option<Db> {
    match MarkUsed(db, now, link)
    case None => None
    case Some(marked) => Some(ApplyLink(marked, now, link.purpose, user, password))
  }

  function ForgotTx(db: Db, now: Time, link: Link, user: Uuid, expiresAt: Time): Option<Db> {
    CreateToken(InvalidateForUser(db, now, ResetLink, user), link, user, expiresAt)
  }

  // ---- Interleaved calls -------------------------------------------------------------

  /** How far a call has come. */
  datatype Call =
    | Redeeming(link: Link, password: string)                // about to read the token row
    | Checked(link: Link, user: Uuid, password: string)      // found it usable, about to run the transaction
    | Redeemed(link: Link)
    | Forgetful(user: Uuid)                                  // about to read the account
    | Granted(user: Uuid, expiresAt: Time)                   // about to run the transaction
    | Registered(user: Uuid, expiresAt: Time)                // account made, about to insert the verification token
    | Over

  datatype State = State(now: Time, db: Db, calls: map<int, Call>, owner: map<Link, Uuid>)

  datatype Action =
    | Redeem(id: int, link: Link, password: string)
    | Forgot(id: int, user: Uuid)
    | Register(id: int, user: Uuid, password: string, expiresAt: Time)
    | Advance(id: int, hash: int, expiresAt: Time, fails: bool)
    | Remove(user: Uuid)
    | Purge(purpose: Purpose)
    | Overwrite(user: Uuid, password: string)
    | Wait(until: Time)

  function Start(at: Time): State {
    State(at, Db(map[], map[]), map[], map[])
  }

  function Insert(s: State, id: int, link: Link, db: Option<Db>, user: Uuid): State {
    if db.None? || link in s.owner then s.(calls := s.calls[id := Over])
    else s.(db := db.value, owner := s.owner[link := user], calls := s.calls[id := Over])
  }

  /** The next step of a call. Generated hashes are new; a failing statement rolls its transaction back. */
  function Step(s: State, id: int, hash: int, expiresAt: Time): State
    requires id in s.calls
  {
    match s.calls[id]
    case Redeeming(link, password) =>
      if link in s.db.tokens && s.db.tokens[link].IsUsable(s.now)
      then s.(calls := s.calls[id := Checked(link, s.db.tokens[link].user, password)])
      else s.(calls := s.calls[id := Over])
    case Checked(link, user, password) =>
      (match RedeemTx(s.db, s.now, link, user, password)
       case None => s.(calls := s.calls[id := Over])
       case Some(db) => s.(db := db, calls := s.calls[id := Redeemed(link)]))
    case Forgetful(user) =>
      if user in s.db.users && s.db.users[user].active
      then s.(calls := s.calls[id := Granted(user, expiresAt)])
      else s.(calls := s.calls[id := Over])
    case Granted(user, expiry) =>
      Insert(s, id, Link(ResetLink, hash), ForgotTx(s.db, s.now, Link(ResetLink, hash), user, expiry), user)
    case Registered(user, expiry) =>
      Insert(s, id, Link(VerifyLink, hash), CreateToken(s.db, Link(VerifyLink, hash), user, expiry), user)
    case Redeemed(_) => s
    case Over => s
  }

  function Next(s: State, a: Action): State {
    match a
    case Redeem(id, link, password) =>
      if id in s.calls then s else s.(calls := s.calls[id := Redeeming(link, password)])
    case Forgot(id, user) =>
      if id in s.calls then s else s.(calls := s.calls[id := Forgetful(user)])
    case Register(id, user, password, expiresAt) =>
      if id in s.calls || user in s.db.users then s
      else s.(db := s.db.(users := s.db.users[user := Account(password, true, None)]),
              calls := s.calls[id := Registered(user, expiresAt)])
    case Advance(id, hash, expiresAt, fails) =>
      if id !in s.calls then s
      else if fails then (if s.calls[id].Redeemed? then s else s.(calls := s.calls[id := Over]))
      else Step(s, id, hash, expiresAt)
    case Remove(user) => s.(db := DeleteUser(s.db, user))
    case Purge(purpose) => s.(db := DeleteExpired(s.db, s.now, purpose))
    case Overwrite(user, password) =>
      if user !in s.db.users then s
      else s.(db := s.db.(users := s.db.users[user := s.db.users[user].(password := password)]))
    case Wait(until) => if s.now <= until then s.(now := until) else s
  }

  function Run(s: State, actions: seq<Action>): State
    decreases |actions|
  {
    if actions == [] then s else Run(Next(s, actions[0]), actions[1..])
  }

  // ---- What every interleaving keeps ---------------------------------------------------

  /** The link was handed out and can no longer be redeemed. */
  ghost predicate Spent(s: State, link: Link) {
    link in s.owner && (link in s.db.tokens ==> s.db.tokens[link].usedAt.Some?)
  }

  ghost predicate AtMostOneRedeems(s: State) {
    forall i, j :: i in s.calls && j in s.calls && s.calls[i].Redeemed? && s.calls[i] == s.calls[j] ==> i == j
  }

  predicate OpenReset(s: State, l: Link) {
    l.purpose == ResetLink && l in s.db.tokens && s.db.tokens[l].usedAt.None?
  }

  ghost predicate OneOpenResetLink(s: State) {
    forall l, l' ::
      OpenReset(s, l) && OpenReset(s, l') && s.db.tokens[l].user == s.db.tokens[l'].user ==> l == l'
  }

  ghost predicate RedeemedVerification(s: State, user: Uuid) {
    exists i :: i in s.calls && s.calls[i].Redeemed? && s.calls[i].link.purpose == VerifyLink
      && s.calls[i].link in s.owner && s.owner[s.calls[i].link] == user
  }

  ghost predicate Inv(s: State) {
    && (forall l :: l in s.db.tokens ==> l in s.owner && s.owner[l] == s.db.tokens[l].user)
    && (forall i :: i in s.calls && s.calls[i].Redeemed? ==> Spent(s, s.calls[i].link))
    && (forall i :: i in s.calls && s.calls[i].Checked? ==>
          s.calls[i].link in s.owner && s.owner[s.calls[i].link] == s.calls[i].user)
    && AtMostOneRedeems(s)
    && OneOpenResetLink(s)
    && (forall u :: u in s.db.users && s.db.users[u].verifiedAt.Some? ==> RedeemedVerification(s, u))
  }

  /** Redeemed calls and issued links are there to stay, and so is what they prove. */
  ghost predicate Later(s': State, s: State) {
    && (forall i :: i in s.calls && s.calls[i].Redeemed? ==> i in s'.calls && s'.calls[i] == s.calls[i])
    && (forall l :: l in s.owner ==> l in s'.owner && s'.owner[l] == s.owner[l])
    && (forall l :: Spent(s, l) ==> Spent(s', l))
  }

  lemma VerificationStays(s': State, s: State, user: Uuid)
    requires Later(s', s) && RedeemedVerification(s, user)
    ensures RedeemedVerification(s', user)
  {
    var i :| i in s.calls && s.calls[i].Redeemed? && s.calls[i].link.purpose == VerifyLink
      && s.calls[i].link in s.owner && s.owner[s.calls[i].link] == user;
    assert s'.calls[i] == s.calls[i];
  }

  lemma VerificationsStay(s': State, s: State)
    requires Later(s', s) && Inv(s)
    requires forall u :: u in s'.db.users && s'.db.users[u].verifiedAt.Some? ==>
      u in s.db.users && s.db.users[u].verifiedAt.Some?
    ensures forall u :: u in s'.db.users && s'.db.users[u].verifiedAt.Some? ==> RedeemedVerification(s', u)
  {
    forall u | u in s'.db.users && s'.db.users[u].verifiedAt.Some? ensures RedeemedVerification(s', u) {
      VerificationStays(s', s, u);
    }
  }

  lemma RedeemKeeps(s: State, id: int)
    requires Inv(s) && id in s.calls && s.calls[id].Checked?
    ensures Inv(Step(s, id, 0, 0)) && Later(Step(s, id, 0, 0), s)
  {
    var s' := Step(s, id, 0, 0);
    assert Later(s', s);
    var link, user := s.calls[id].link, s.calls[id].user;
    if MarkUsed(s.db, s.now, link).Some? {
      assert !Spent(s, link);
      forall u | u in s'.db.users && s'.db.users[u].verifiedAt.Some? ensures RedeemedVerification(s', u) {
        if u == user && link.purpose == VerifyLink {
          assert s'.calls[id] == Redeemed(link);
        } else {
          VerificationStays(s', s, u);
        }
      }
    } else {
      VerificationsStay(s', s);
    }
  }

  lemma InsertKeeps(s: State, id: int, link: Link, db: Db, user: Uuid)
    requires Inv(s) && id in s.calls && !s.calls[id].Redeemed? && link !in s.owner
    requires db.users == s.db.users && link in db.tokens && db.tokens[link].user == user
    requires db.tokens.Keys == s.db.tokens.Keys + {link}
    requires forall l :: l in s.db.tokens ==>
      db.tokens[l].user == s.db.tokens[l].user && (s.db.tokens[l].usedAt.Some? ==> db.tokens[l].usedAt.Some?)
    requires link.purpose == ResetLink ==>
      forall l :: l in s.db.tokens && l.purpose == ResetLink && db.tokens[l].user == user ==> db.tokens[l].usedAt.Some?
    ensures Inv(Insert(s, id, link, Some(db), user)) && Later(Insert(s, id, link, Some(db), user), s)
  {
    var s' := Insert(s, id, link, Some(db), user);
    assert Later(s', s);
    VerificationsStay(s', s);
    assert OneOpenResetLink(s') by {
      assert forall l :: OpenReset(s', l) && l != link ==> OpenReset(s, l);
    }
  }

  lemma OverKeeps(s: State, id: int, call: Call)
    requires Inv(s) && (id in s.calls ==> !s.calls[id].Redeemed?) && !call.Redeemed?
    requires call.Checked? ==> call.link in s.owner && s.owner[call.link] == call.user
    ensures Inv(s.(calls := s.calls[id := call])) && Later(s.(calls := s.calls[id := call]), s)
  {
    VerificationsStay(s.(calls := s.calls[id := call]), s);
  }

  lemma IssueKeeps(s: State, id: int, hash: int)
    requires Inv(s) && id in s.calls && (s.calls[id].Granted? || s.calls[id].Registered?)
    ensures Inv(Step(s, id, hash, 0)) && Later(Step(s, id, hash, 0), s)
  {
    var user, expiry := s.calls[id].user, s.calls[id].expiresAt;
    var link := Link(if s.calls[id].Granted? then ResetLink else VerifyLink, hash);
    var db := if s.calls[id].Granted? then ForgotTx(s.db, s.now, link, user, expiry)
      else CreateToken(s.db, link, user, expiry);
    assert Step(s, id, hash, 0) == Insert(s, id, link, db, user);
    if db.Some? && link !in s.owner {
      InsertKeeps(s, id, link, db.value, user);
    } else {
      OverKeeps(s, id, Over);
    }
  }

  lemma StepKeeps(s: State, id: int, hash: int, expiresAt: Time)
    requires Inv(s) && id in s.calls
    ensures Inv(Step(s, id, hash, expiresAt)) && Later(Step(s, id, hash, expiresAt), s)
  {
    match s.calls[id]
    case Redeeming(_, _) => OverKeeps(s, id, Step(s, id, hash, expiresAt).calls[id]);
    case Forgetful(_) => OverKeeps(s, id, Step(s, id, hash, expiresAt).calls[id]);
    case Checked(_, _, _) => RedeemKeeps(s, id);
    case Granted(_, _) => IssueKeeps(s, id, hash);
    case Registered(_, _) => IssueKeeps(s, id, hash);
    case _ =>
  }

  /** Actions that begin no call and advance none. */
  lemma OutsideKeeps(s: State, a: Action)
    requires Inv(s) && !a.Redeem? && !a.Forgot? && !a.Advance?
    ensures Inv(Next(s, a)) && Later(Next(s, a), s)
  {
    var s' := Next(s, a);
    assert Later(s', s);
    VerificationsStay(s', s);
    assert forall l :: OpenReset(s', l) ==> OpenReset(s, l) && s'.db.tokens[l].user == s.db.tokens[l].user;
  }

  lemma NextKeeps(s: State, a: Action)
    requires Inv(s)
    ensures Inv(Next(s, a)) && Later(Next(s, a), s)
  {
    match a
    case Redeem(id, link, password) =>
      if id !in s.calls { OverKeeps(s, id, Redeeming(link, password)); }
    case Forgot(id, user) =>
      if id !in s.calls { OverKeeps(s, id, Forgetful(user)); }
    case Advance(id, hash, expiresAt, fails) =>
      if id in s.calls {
        if !fails {
          StepKeeps(s, id, hash, expiresAt);
        } else if !s.calls[id].Redeemed? {
          OverKeeps(s, id, Over);
        }
      }
    case _ =>
      OutsideKeeps(s, a);
  }

  lemma {:induction false} RunKeeps(s: State, actions: seq<Action>)
    requires Inv(s)
    ensures Inv(Run(s, actions)) && Later(Run(s, actions), s)
    decreases |actions|
  {
    if actions != [] {
      NextKeeps(s, actions[0]);
      RunKeeps(Next(s, actions[0]), actions[1..]);
    }
  }

  // ---- Results ---------------------------------------------------------------------------

  /**
   * Whatever interleaves: no two calls redeem one link, an account never has
   * two open reset links, and a verified account is one for which a call
   * redeemed a verification link that was issued to it.
   */
  lemma EveryInterleavingIsSingleUse(start: Time, actions: seq<Action>)
    ensures var s := Run(Start(start), actions);
      && AtMostOneRedeems(s) && OneOpenResetLink(s)
      && forall u :: u in s.db.users && s.db.users[u].verifiedAt.Some? ==> RedeemedVerification(s, u)
  {
    RunKeeps(Start(start), actions);
  }

  /**
   * A link that is used up, invalidated or deleted is redeemed by no later call,
   * not even by one that had already checked it.
   */
  lemma SpentLinksStaySpent(start: Time, actions: seq<Action>, link: Link, more: seq<Action>, id: int)
    requires Spent(Run(Start(start), actions), link)
    requires var s := Run(Run(Start(start), actions), more); id in s.calls && s.calls[id] == Redeemed(link)
    ensures var s := Run(Start(start), actions); id in s.calls && s.calls[id] == Redeemed(link)
  {
    RunKeeps(Start(start), actions);
    NoLateRedemption(Run(Start(start), actions), link, more, id);
  }

  lemma NotRedeemedNow(s: State, link: Link, a: Action, id: int)
    requires Inv(s) && Spent(s, link)
    requires id in Next(s, a).calls && Next(s, a).calls[id] == Redeemed(link)
    ensures id in s.calls && s.calls[id] == Redeemed(link)
  {
  }

  lemma {:induction false} NoLateRedemption(s: State, link: Link, more: seq<Action>, id: int)
    requires Inv(s) && Spent(s, link)
    requires var s' := Run(s, more); id in s'.calls && s'.calls[id] == Redeemed(link)
    ensures id in s.calls && s.calls[id] == Redeemed(link)
    decreases |more|
  {
    if more != [] {
      NextKeeps(s, more[0]);
      NoLateRedemption(Next(s, more[0]), link, more[1..], id);
      NotRedeemedNow(s, link, more[0], id);
    }
  }

  /** A password changes only by a redeemed reset link of that account, or by the owner's own change of password. */
  lemma PasswordChangesOnlyWithTheToken(start: Time, actions: seq<Action>, a: Action, user: Uuid)
    requires var s := Run(Start(start), actions); user in s.db.users && user in Next(s, a).db.users
    requires var s := Run(Start(start), actions); Next(s, a).db.users[user].password != s.db.users[user].password
    ensures var s := Run(Start(start), actions); var s' := Next(s, a);
      || a == Overwrite(user, s'.db.users[user].password)
      || (&& a.Advance? && !a.fails && a.id in s.calls && s.calls[a.id].Checked?
          && s.calls[a.id].link.purpose == ResetLink
          && s.calls[a.id].link in s.owner && s.owner[s.calls[a.id].link] == user
          && !Spent(s, s.calls[a.id].link) && Spent(s', s.calls[a.id].link)
          && s'.calls[a.id] == Redeemed(s.calls[a.id].link)
          && s'.db.users[user].password == s.calls[a.id].password)
  {
    RunKeeps(Start(start), actions);
    PasswordStep(Run(Start(start), actions), a, user);
  }

  lemma PasswordStep(s: State, a: Action, user: Uuid)
    requires Inv(s) && user in s.db.users && user in Next(s, a).db.users
    requires Next(s, a).db.users[user].password != s.db.users[user].password
    ensures var s' := Next(s, a);
      || a == Overwrite(user, s'.db.users[user].password)
      || (&& a.Advance? && !a.fails && a.id in s.calls && s.calls[a.id].Checked?
          && s.calls[a.id].link.purpose == ResetLink
          && s.calls[a.id].link in s.owner && s.owner[s.calls[a.id].link] == user
          && !Spent(s, s.calls[a.id].link) && Spent(s', s.calls[a.id].link)
          && s'.calls[a.id] == Redeemed(s.calls[a.id].link)
          && s'.db.users[user].password == s.calls[a.id].password)
  {
  }

  /**
   * At the transaction the token row decides everything: a winner applies its link
   * and nothing else, a loser changes nothing.
   */
  lemma TransactionOutcome(start: Time, actions: seq<Action>, id: int, hash: int, expiresAt: Time)
    requires var s := Run(Start(start), actions); id in s.calls && s.calls[id].Checked?
    ensures var s := Run(Start(start), actions); var s' := Step(s, id, hash, expiresAt);
      var Checked(link, user, password) := s.calls[id];
      if Spent(s, link) then s'.db == s.db && s'.calls[id] == Over
      else
        && s'.calls[id] == Redeemed(link) && link in s.owner && s.owner[link] == user && link in s.db.tokens
        && s'.db.tokens == s.db.tokens[link := s.db.tokens[link].(usedAt := Some(s.now))]
        && (user !in s.db.users ==> s'.db.users == s.db.users)
        && (user in s.db.users ==> s'.db.users == s.db.users[user :=
              if link.purpose == ResetLink then s.db.users[user].(password := password)
              else s.db.users[user].(verifiedAt := Some(s.now))])
  {
    RunKeeps(Start(start), actions);
  }

  // ---- Expiry ------------------------------------------------------------------------------

  /** The link was handed out and is expired, used or deleted. */
  ghost predicate Stale(s: State, link: Link) {
    link in s.owner && (link in s.db.tokens ==> s.db.tokens[link].expiresAt <= s.now)
  }

  /** A call for the link that has not yet read the token row, or came to nothing. */
  predicate NotPastTheCheck(call: Call, link: Link) {
    call == Over || (call.Redeeming? && call.link == link)
  }

  lemma StaleStays(s: State, a: Action, link: Link, id: int)
    requires Inv(s) && Stale(s, link) && id in s.calls && NotPastTheCheck(s.calls[id], link)
    ensures var s' := Next(s, a); Stale(s', link) && id in s'.calls && NotPastTheCheck(s'.calls[id], link)
  {
  }

  lemma {:induction false} StaleForGood(s: State, more: seq<Action>, link: Link, id: int)
    requires Inv(s) && Stale(s, link) && id in s.calls && NotPastTheCheck(s.calls[id], link)
    ensures var s' := Run(s, more); id in s'.calls && NotPastTheCheck(s'.calls[id], link)
    decreases |more|
  {
    if more != [] {
      StaleStays(s, more[0], link, id);
      NextKeeps(s, more[0]);
      StaleForGood(Next(s, more[0]), more[1..], link, id);
    }
  }

  /** A link presented when it has expired is never redeemed by that call, whatever happens later. */
  lemma ExpiredLinksAreRefused(
      start: Time, actions: seq<Action>, id: int, link: Link, password: string, more: seq<Action>)
    requires var s := Run(Start(start), actions);
      id !in s.calls && link in s.db.tokens && s.db.tokens[link].expiresAt <= s.now
    ensures var s := Run(Start(start), actions);
      var s' := Run(Next(s, Redeem(id, link, password)), more);
      id in s'.calls && s'.calls[id] != Redeemed(link)
  {
    RunKeeps(Start(start), actions);
    var s := Run(Start(start), actions);
    NextKeeps(s, Redeem(id, link, password));
    StaleForGood(Next(s, Redeem(id, link, password)), more, link, id);
  }

  /** The foreign key of both token tables. */
  ghost predicate Linked(db: Db) {
    forall l :: l in db.tokens ==> db.tokens[l].user in db.users
  }

  lemma LinkedStays(s: State, a: Action)
    requires Linked(s.db)
    ensures Linked(Next(s, a).db)
  {
  }

  lemma {:induction false} RunIsLinked(s: State, actions: seq<Action>)
    requires Linked(s.db)
    ensures Linked(Run(s, actions).db)
    decreases |actions|
  {
    if actions != [] {
      LinkedStays(s, actions[0]);
      RunIsLinked(Next(s, actions[0]), actions[1..]);
    }
  }

  predicate Open(s: State, link: Link) {
    link in s.db.tokens && s.db.tokens[link].usedAt == None && s.now < s.db.tokens[link].expiresAt
  }

  /** A link that is open and presented on its own is redeemed, and its account has what it is for. */
  lemma OpenLinksWork(start: Time, actions: seq<Action>, id: int, link: Link, password: string)
    requires var s := Run(Start(start), actions); id !in s.calls && Open(s, link)
    ensures var s := Run(Start(start), actions); var user := s.db.tokens[link].user;
      var s' := Next(Next(Next(s, Redeem(id, link, password)), Advance(id, 0, 0, false)), Advance(id, 0, 0, false));
      && s'.calls[id] == Redeemed(link)
      && s'.db.tokens == s.db.tokens[link := Token(user, s.db.tokens[link].expiresAt, Some(s.now))]
      && user in s.db.users && user in s'.db.users
      && (link.purpose == ResetLink ==> s'.db.users[user] == s.db.users[user].(password := password))
      && (link.purpose == VerifyLink ==> s'.db.users[user] == s.db.users[user].(verifiedAt := Some(s.now)))
      && (forall u :: u != user ==>
            (u in s'.db.users <==> u in s.db.users) && (u in s.db.users ==> s'.db.users[u] == s.db.users[u]))
  {
    RunIsLinked(Start(start), actions);
  }

  /**
   * An open link ends only by being redeemed, by a newer reset link for its
   * account, with its account, or by the passing of its time; until then its
   * account and its expiry stay.
   */
  lemma OpenLinksStayOpen(start: Time, actions: seq<Action>, a: Action, link: Link)
    requires Open(Run(Start(start), actions), link)
    ensures var s := Run(Start(start), actions); var s' := Next(s, a); var user := s.db.tokens[link].user;
      || (Open(s', link) && s'.db.tokens[link] == s.db.tokens[link])
      || a == Remove(user)
      || (a.Wait? && s.db.tokens[link].expiresAt <= a.until)
      || (a.Advance? && !a.fails && a.id in s.calls && s.calls[a.id].Checked? && s.calls[a.id].link == link)
      || (a.Advance? && !a.fails && a.id in s.calls && s.calls[a.id].Granted? && s.calls[a.id].user == user
          && link.purpose == ResetLink)
  {
    RunKeeps(Start(start), actions);
    OpenLinkStep(Run(Start(start), actions), a, link);
  }

  lemma OpenLinkStep(s: State, a: Action, link: Link)
    requires Inv(s) && Open(s, link)
    ensures var s' := Next(s, a); var user := s.db.tokens[link].user;
      || (Open(s', link) && s'.db.tokens[link] == s.db.tokens[link])
      || a == Remove(user)
      || (a.Wait? && s.db.tokens[link].expiresAt <= a.until)
      || (a.Advance? && !a.fails && a.id in s.calls && s.calls[a.id].Checked? && s.calls[a.id].link == link)
      || (a.Advance? && !a.fails && a.id in s.calls && s.calls[a.id].Granted? && s.calls[a.id].user == user
          && link.purpose == ResetLink)
  {
  }

  /** The clean-up takes exactly the expired links of its kind. */
  lemma PurgeTakesTheExpired(s: State, purpose: Purpose, link: Link)
    ensures var s' := Next(s, Purge(purpose));
      && (link in s'.db.tokens ==> link in s.db.tokens && s'.db.tokens[link] == s.db.tokens[link])
      && (link in s.db.tokens && link !in s'.db.tokens <==>
            link in s.db.tokens && link.purpose == purpose && s.db.tokens[link].expiresAt < s.now)
  {
  }

  /** Accounts go only by removal, and activity is nobody's business here. */
  lemma AccountsStay(s: State, a: Action, user: Uuid)
    requires user in s.db.users && a != Remove(user)
    ensures user in Next(s, a).db.users && Next(s, a).db.users[user].active == s.db.users[user].active
  {
  }

  /** Asking for a reset link on its own yields one for an active account and changes nothing for any other. */
  lemma ForgotYieldsALink(start: Time, actions: seq<Action>, id: int, user: Uuid, hash: int, expiresAt: Time)
    requires var s := Run(Start(start), actions); id !in s.calls && Link(ResetLink, hash) !in s.owner
    ensures var s := Run(Start(start), actions); var link := Link(ResetLink, hash);
      var a := Advance(id, hash, expiresAt, false);
      var s' := Next(Next(Next(s, Forgot(id, user)), a), a);
      && s'.db.users == s.db.users
      && (!(user in s.db.users && s.db.users[user].active) ==> s'.db == s.db)
      && (user in s.db.users && s.db.users[user].active ==>
            && s'.db.tokens.Keys == s.db.tokens.Keys + {link} && s'.db.tokens[link] == Token(user, expiresAt, None)
            && (forall l :: l in s.db.tokens ==>
                  s'.db.tokens[l] ==
                    if l.purpose == ResetLink && s.db.tokens[l].user == user && s.db.tokens[l].usedAt == None
                    then s.db.tokens[l].(usedAt := Some(s.now)) else s.db.tokens[l]))
  {
    RunKeeps(Start(start), actions);
    ForgotFacts(Run(Start(start), actions), id, user, hash, expiresAt);
  }

  lemma ForgotFacts(s: State, id: int, user: Uuid, hash: int, expiresAt: Time)
    requires Inv(s) && id !in s.calls && Link(ResetLink, hash) !in s.owner
    ensures var a := Advance(id, hash, expiresAt, false);
      var s1 := Next(Next(s, Forgot(id, user)), a);
      var tx := ForgotTx(s.db, s.now, Link(ResetLink, hash), user, expiresAt);
      Next(s1, a).db == (if user in s.db.users && s.db.users[user].active && tx.Some? then tx.value else s.db)
      && (user in s.db.users ==> tx.Some?)
  {
  }

  /** Registering on its own yields an account that is not verified and an open verification link for it. */
  lemma RegisterYieldsALink(
      start: Time, actions: seq<Action>, id: int, user: Uuid, password: string, hash: int, expiresAt: Time)
    requires var s := Run(Start(start), actions);
      id !in s.calls && Link(VerifyLink, hash) !in s.owner && user !in s.db.users
    ensures var s := Run(Start(start), actions); var link := Link(VerifyLink, hash);
      var s' := Next(Next(s, Register(id, user, password, expiresAt)), Advance(id, hash, 0, false));
      && s'.db.users == s.db.users[user := Account(password, true, None)]
      && s'.db.tokens == s.db.tokens[link := Token(user, expiresAt, None)]
  {
    RunKeeps(Start(start), actions);
  }
}

/**
 * The same transactions as the source runs them: statements that change the
 * database in place inside a transaction that commits or is rolled back.
 */
module LinkStore {
  import opened Clock
  import opened Wrappers
  import opened SingleUse

  datatype TxError = Conflict | NestedTransaction | Failed | InvalidLink

  class PgStore {
    var db: Db
    var before: Option<Db>     // the state to roll back to, inside a transaction

    constructor ()
      ensures db == Db(map[], map[]) && before == None
    {
      db, before := Db(map[], map[]), None;
    }

    method Begin() returns (r: Result<(), TxError>)
      modifies this
      ensures db == old(db)
      ensures old(before).None? ==> r.Ok? && before == Some(old(db))
      ensures old(before).Some? ==> r == Err(NestedTransaction) && before == old(before)
    {
      if before.Some? {
        return Err(NestedTransaction);
      }
      before := Some(db);
      return Ok(());
    }

    method Rollback()
      requires before.Some?
      modifies this
      ensures db == old(before).value && before == None
    {
      db, before := before.value, None;
    }

    method MarkUsed(now: Time, link: Link) returns (r: Result<(), TxError>)
      modifies this`db
      ensures match SingleUse.MarkUsed(old(db), now, link)
              case None => r == Err(Conflict) && db == old(db)
              case Some(marked) => r.Ok? && db == marked
    {
      var affected := 0;
      if link in db.tokens && db.tokens[link].usedAt.None? {
        db := db.(tokens := db.tokens[link := db.tokens[link].(usedAt := Some(now))]);
        affected := 1;
      }
      if affected == 0 {
        return Err(Conflict);
      }
      return Ok(());
    }

    /** Redeems a link: consume the token and apply it, or leave everything as it was. */
    method Redeem(
        now: Time, link: Link, user: Uuid, password: string, commitFails: bool) returns (r: Result<(), TxError>)
      modifies this
      ensures before == old(before)
      ensures r.Err? ==> db == old(db) && r.error != InvalidLink
      ensures r.Ok? ==> RedeemTx(old(db), now, link, user, password) == Some(db)
      ensures r.Ok? <==> old(before).None? && !commitFails && RedeemTx(old(db), now, link, user, password).Some?
    {
      r := Begin();
      if r.Err? {
        return;
      }
      r := MarkUsed(now, link);
      if r.Err? {
        Rollback();
        return;
      }
      if user in db.users {
        var account := db.users[user];
        match link.purpose {
          case ResetLink => account := account.(password := password);
          case VerifyLink => account := account.(verifiedAt := Some(now));
        }
        db := db.(users := db.users[user := account]);
      }
      if commitFails {
        Rollback();
        return Err(Failed);
      }
      before := None;
    }

    /** The whole call: read the row, refuse what is unknown, used or expired, then redeem. */
    method UseLink(now: Time, link: Link, password: string, commitFails: bool) returns (r: Result<(), TxError>)
      modifies this
      ensures before == old(before)
      ensures r.Ok? <==>
        && old(before).None? && !commitFails
        && link in old(db).tokens && old(db).tokens[link].usedAt == None && now < old(db).tokens[link].expiresAt
      ensures r == Err(InvalidLink) <==>
        !(link in old(db).tokens && old(db).tokens[link].usedAt == None && now < old(db).tokens[link].expiresAt)
      ensures r.Err? ==> db == old(db)
      ensures r.Ok? ==>
        && db.tokens == old(db).tokens[link := old(db).tokens[link].(usedAt := Some(now))]
        && (forall u :: u != old(db).tokens[link].user ==> (u in db.users <==> u in old(db).users))
        && (forall u :: u in db.users && u != old(db).tokens[link].user ==> db.users[u] == old(db).users[u])
        && (old(db).tokens[link].user in old(db).users ==>
              old(db).tokens[link].user in db.users
              && (link.purpose == ResetLink ==> db.users[old(db).tokens[link].user].password == password))
    {
      if link !in db.tokens {
        return Err(InvalidLink);
      }
      var record := db.tokens[link];
      if !record.IsUsable(now) {
        return Err(InvalidLink);
      }
      r := Redeem(now, link, record.user, password, commitFails);
    }

    /** Replaces every open reset link of the account by a new one, or leaves everything as it was. */
    method Forgot(
        now: Time, link: Link, user: Uuid, expiresAt: Time, commitFails: bool) returns (r: Result<(), TxError>)
      modifies this
      ensures before == old(before)
      ensures r.Err? ==> db == old(db)
      ensures r.Ok? ==> ForgotTx(old(db), now, link, user, expiresAt) == Some(db)
      ensures r.Ok? <==> old(before).None? && !commitFails && ForgotTx(old(db), now, link, user, expiresAt).Some?
    {
      r := Begin();
      if r.Err? {
        return;
      }
      db := InvalidateForUser(db, now, ResetLink, user);
      if link in db.tokens || user !in db.users || commitFails {
        Rollback();
        return Err(Failed);
      }
      db := db.(tokens := db.tokens[link := Token(user, expiresAt, None)]);
      before := None;
    }
  }
}
