/**
 * Avatar uploads and account deletions, with any number of calls interleaved
 * and any statement or storage call failing: app/services/user.go
 * (UploadAvatar, Delete) over object storage as a set of keys.
 */
module Avatars {
  import opened Clock
  import opened Wrappers

  type Key = int

  /** A failing call may have taken effect before it failed: the reply was lost, or a later part broke. */
  datatype Fault = Works | Fails | FailsAfterEffect

  /** How far a call has come. */
  datatype Call =
    | Uploading(user: Uuid)                                    // about to read the row
    | Storing(user: Uuid, existing: Option<Key>)               // about to put the object under a fresh key
    | Linking(user: Uuid, existing: Option<Key>, key: Key)     // about to update the row
    | Undoing(key: Key)                                        // the update failed, about to remove the upload
    | Deleting(user: Uuid)                                     // about to read the row
    | Erasing(user: Uuid, existing: Option<Key>)               // about to delete the row
    | Sweeping(key: Key)                                       // about to remove an avatar replaced or left behind
    | Over

  /** `deleted`, `owner`, `lost` and `undone` record the past; the service stores only rows and objects. */
  datatype State = State(
    rows: map<Uuid, Option<Key>>,
    objects: set<Key>,
    calls: map<int, Call>,
    deleted: set<Key>,
    owner: map<Key, Uuid>,
    lost: set<Key>,             // keys whose row update took effect but was reported as failed
    undone: set<Key>)           // keys removed by the clean-up that follows a reported failure

  const START := State(map[], {}, map[], {}, map[], {}, {})

  datatype Action =
    | SignUp(user: Uuid)
    | Upload(id: int, user: Uuid)
    | Delete(id: int, user: Uuid)
    | Advance(id: int, key: Key, fault: Fault)

  function Set(s: State, id: int, call: Call): State {
    s.(calls := s.calls[id := call])
  }

  /** What remains to be done about the avatar the row had when the call read it. */
  function Remains(existing: Option<Key>): Call {
    if existing.Some? then Sweeping(existing.value) else Over
  }

  function PutObject(s: State, id: int, call: Call, key: Key, fault: Fault): State
    requires call.Storing?
  {
    if key in s.owner then s    // generated keys are new
    else
      var s1 := s.(owner := s.owner[key := call.user],
                   objects := if fault == Fails then s.objects else s.objects + {key});
      Set(s1, id, if fault == Works then Linking(call.user, call.existing, key) else Over)
  }

  function UpdateRow(s: State, id: int, call: Call, fault: Fault): State
    requires call.Linking?
  {
    if call.user !in s.rows || fault == Fails then Set(s, id, Undoing(call.key))
    else
      var s1 := s.(rows := s.rows[call.user := Some(call.key)]);
      if fault == Works then Set(s1, id, if call.existing == Some(call.key) then Over else Remains(call.existing))
      else Set(s1.(lost := s.lost + {call.key}), id, Undoing(call.key))
  }

  function RemoveObject(s: State, id: int, key: Key, fault: Fault): State {
    if fault == Fails then Set(s, id, Over)
    else
      var undone := if id in s.calls && s.calls[id].Undoing? then s.undone + {key} else s.undone;
      Set(s.(objects := s.objects - {key}, deleted := s.deleted + {key}, undone := undone), id, Over)
  }

  function DeleteRow(s: State, id: int, call: Call, fault: Fault): State
    requires call.Erasing?
  {
    if call.user !in s.rows || fault == Fails then Set(s, id, Over)
    else
      var s1 := s.(rows := s.rows - {call.user});
      Set(s1, id, if fault == Works then Remains(call.existing) else Over)
  }

  function ReadRow(s: State, id: int, call: Call, fault: Fault): State
    requires call.Uploading? || call.Deleting?
  {
    if call.user !in s.rows || fault != Works then Set(s, id, Over)
    else
      var existing := s.rows[call.user];
      Set(s, id, if call.Uploading? then Storing(call.user, existing) else Erasing(call.user, existing))
  }

  function Step(s: State, id: int, key: Key, fault: Fault): State
    requires id in s.calls
  {
    var call := s.calls[id];
    match call
    case Uploading(_) => ReadRow(s, id, call, fault)
    case Deleting(_) => ReadRow(s, id, call, fault)
    case Storing(_, _) => PutObject(s, id, call, key, fault)
    case Linking(_, _, _) => UpdateRow(s, id, call, fault)
    case Undoing(k) => RemoveObject(s, id, k, fault)
    case Sweeping(k) => RemoveObject(s, id, k, fault)
    case Erasing(_, _) => DeleteRow(s, id, call, fault)
    case Over => s
  }

  function Next(s: State, a: Action): State {
    match a
    case SignUp(user) => if user in s.rows then s else s.(rows := s.rows[user := None])
    case Upload(id, user) => if id in s.calls then s else Set(s, id, Uploading(user))
    case Delete(id, user) => if id in s.calls then s else Set(s, id, Deleting(user))
    case Advance(id, key, fault) => if id in s.calls then Step(s, id, key, fault) else s
  }

  function Run(s: State, actions: seq<Action>): State
    decreases |actions|
  {
    if actions == [] then s else Run(Next(s, actions[0]), actions[1..])
  }

  // ---- What every interleaving keeps --------------------------------------------------

  predicate Refers(rows: map<Uuid, Option<Key>>, user: Uuid, key: Key) {
    user in rows && rows[user] == Some(key)
  }

  /** The avatar a call found in the row when it read it. */
  function Found(call: Call): Option<Key> {
    match call
    case Storing(_, existing) => existing
    case Linking(_, existing, _) => existing
    case Erasing(_, existing) => existing
    case _ => None
  }

  /** A stored key whose row update is still to come: nobody else knows it. */
  ghost predicate Private(s: State, id: int) {
    id in s.calls && s.calls[id].Linking? ==>
      var key := s.calls[id].key;
      && key in s.owner && s.owner[key] == s.calls[id].user && key in s.objects && key !in s.deleted
      && (forall u :: !Refers(s.rows, u, key))
      && (forall i :: i in s.calls && i != id ==> !(s.calls[i].Linking? && s.calls[i].key == key))
      && (forall i :: i in s.calls ==>
            Found(s.calls[i]) != Some(key) && s.calls[i] != Sweeping(key) && s.calls[i] != Undoing(key))
  }

  ghost predicate Unreferenced(s: State, key: Key) {
    key in s.owner && forall u :: !Refers(s.rows, u, key)
  }

  /** A key whose update was reported as failed: no row refers to it, unless the update took effect. */
  ghost predicate Doomed(s: State, key: Key) {
    key in s.owner && (key in s.lost || Unreferenced(s, key))
  }

  ghost predicate Inv(s: State) {
    && (forall u, k :: Refers(s.rows, u, k) ==> k in s.owner && s.owner[k] == u && (k in s.objects || k in s.deleted))
    && (forall k :: k in s.deleted ==> k !in s.objects && ((k in s.undone && Doomed(s, k)) || Unreferenced(s, k)))
    && (forall k :: k in s.undone ==> k in s.deleted)
    && (forall i :: i in s.calls && Found(s.calls[i]).Some? ==>
          Found(s.calls[i]).value in s.owner && s.owner[Found(s.calls[i]).value] == s.calls[i].user)
    && (forall i :: i in s.calls && s.calls[i].Sweeping? ==> Unreferenced(s, s.calls[i].key))
    && (forall i :: i in s.calls && s.calls[i].Undoing? ==> Doomed(s, s.calls[i].key))
    && (forall i :: i in s.calls ==> Private(s, i))
    && (forall k :: k in s.objects ==> k in s.owner)
  }

  /** No row refers to anything it did not refer to before. */
  ghost predicate NoNewReference(s': State, s: State) {
    forall u, k :: Refers(s'.rows, u, k) ==> Refers(s.rows, u, k)
  }

  lemma PutKeeps(s: State, id: int, key: Key, fault: Fault)
    requires Inv(s) && id in s.calls && s.calls[id].Storing?
    ensures Inv(PutObject(s, id, s.calls[id], key, fault))
  {
    var s' := PutObject(s, id, s.calls[id], key, fault);
    forall i | i in s'.calls ensures Private(s', i) {
      assert Private(s, i);
    }
  }

  lemma LinkKeeps(s: State, id: int, fault: Fault)
    requires Inv(s) && id in s.calls && s.calls[id].Linking?
    ensures Inv(UpdateRow(s, id, s.calls[id], fault))
  {
    var Linking(user, existing, key) := s.calls[id];
    var s' := UpdateRow(s, id, s.calls[id], fault);
    assert Private(s, id);
    assert forall u, k :: Refers(s'.rows, u, k) ==> Refers(s.rows, u, k) || (u == user && k == key);
    assert user in s.rows && fault != Fails ==> forall k :: Refers(s'.rows, user, k) ==> k == key;
    forall i | i in s'.calls ensures Private(s', i) {
      assert Private(s, i);
    }
  }

  lemma EraseKeeps(s: State, id: int, fault: Fault)
    requires Inv(s) && id in s.calls && s.calls[id].Erasing?
    ensures Inv(DeleteRow(s, id, s.calls[id], fault))
  {
    var s' := DeleteRow(s, id, s.calls[id], fault);
    assert NoNewReference(s', s);
    assert s.calls[id].user in s.rows && fault != Fails ==> forall k :: !Refers(s'.rows, s.calls[id].user, k);
    forall i | i in s'.calls ensures Private(s', i) {
      assert Private(s, i);
    }
  }

  lemma RemoveKeeps(s: State, id: int, key: Key, fault: Fault)
    requires Inv(s) && id in s.calls && (s.calls[id] == Undoing(key) || s.calls[id] == Sweeping(key))
    ensures Inv(RemoveObject(s, id, key, fault))
  {
    var s' := RemoveObject(s, id, key, fault);
    assert Doomed(s, key);
    forall i | i in s'.calls ensures Private(s', i) {
      assert Private(s, i);
    }
  }

  lemma SignUpKeeps(s: State, user: Uuid)
    requires Inv(s)
    ensures Inv(Next(s, SignUp(user)))
  {
    var s' := Next(s, SignUp(user));
    assert forall u, k :: Refers(s'.rows, u, k) <==> Refers(s.rows, u, k);
    forall i | i in s'.calls ensures Private(s', i) {
      assert Private(s, i);
    }
  }

  /** A call that holds no key yet may come to hold the one its row refers to. */
  lemma HoldKeeps(s: State, id: int, call: Call)
    requires Inv(s) && (id in s.calls ==> s.calls[id].Uploading? || s.calls[id].Deleting?)
    requires !call.Linking? && !call.Sweeping? && !call.Undoing?
    requires Found(call).Some? ==> Refers(s.rows, call.user, Found(call).value)
    ensures Inv(Set(s, id, call))
  {
    var s' := Set(s, id, call);
    forall i | i in s'.calls ensures Private(s', i) {
      if i in s.calls {
        assert Private(s, i);
      }
    }
  }

  /** Beginning a call and reading a row touch no key. */
  lemma ReadKeeps(s: State, a: Action)
    requires Inv(s) && !a.SignUp?
    requires a.Advance? ==>
      a.id in s.calls && (s.calls[a.id].Uploading? || s.calls[a.id].Deleting? || s.calls[a.id].Over?)
    ensures Inv(Next(s, a))
  {
    match a
    case Upload(id, user) => if id !in s.calls { HoldKeeps(s, id, Uploading(user)); }
    case Delete(id, user) => if id !in s.calls { HoldKeeps(s, id, Deleting(user)); }
    case Advance(id, key, fault) =>
      if !s.calls[id].Over? {
        HoldKeeps(s, id, ReadRow(s, id, s.calls[id], fault).calls[id]);
      }
  }

  lemma NextKeeps(s: State, a: Action)
    requires Inv(s)
    ensures Inv(Next(s, a))
  {
    if a.Advance? && a.id in s.calls {
      match s.calls[a.id] {
        case Linking(_, _, _) => LinkKeeps(s, a.id, a.fault);
        case Storing(_, _) => PutKeeps(s, a.id, a.key, a.fault);
        case Erasing(_, _) => EraseKeeps(s, a.id, a.fault);
        case Undoing(k) => RemoveKeeps(s, a.id, k, a.fault);
        case Sweeping(k) => RemoveKeeps(s, a.id, k, a.fault);
        case _ => ReadKeeps(s, a);
      }
    } else if a.SignUp? {
      SignUpKeeps(s, a.user);
    } else if !a.Advance? {
      ReadKeeps(s, a);
    }
  }

  lemma {:induction false} RunKeeps(s: State, actions: seq<Action>)
    requires Inv(s)
    ensures Inv(Run(s, actions))
    decreases |actions|
  {
    if actions != [] {
      NextKeeps(s, actions[0]);
      RunKeeps(Next(s, actions[0]), actions[1..]);
    }
  }

  /**
   * Whatever interleaves and whatever fails: the avatar a row refers to is
   * gone iff the very update that put it there was reported as failed although
   * it took effect, and the clean-up after that failure got through. Otherwise
   * it is stored and was never deleted.
   */
  lemma NoRowRefersToADeletedObject(actions: seq<Action>, user: Uuid, key: Key)
    requires Refers(Run(START, actions).rows, user, key)
    ensures var s := Run(START, actions);
      && (key !in s.objects <==> key in s.lost && key in s.undone)
      && (key in s.deleted <==> key !in s.objects)
  {
    RunKeeps(START, actions);
  }

  /** Two accounts never share an avatar object. */
  lemma NoSharedAvatars(actions: seq<Action>, user: Uuid, user': Uuid, key: Key)
    requires Refers(Run(START, actions).rows, user, key) && Refers(Run(START, actions).rows, user', key)
    ensures user == user'
  {
    RunKeeps(START, actions);
  }

  // ---- One call at a time -----------------------------------------------------------

  /** An upload from its first read to its last clean-up, with the fate of each of its four steps. */
  function UploadScript(
      id: int, user: Uuid, key: Key, read: Fault, put: Fault, update: Fault, remove: Fault): seq<Action> {
    [Upload(id, user), Advance(id, 0, read), Advance(id, key, put), Advance(id, 0, update), Advance(id, 0, remove)]
  }

  function DeleteScript(id: int, user: Uuid, read: Fault, erase: Fault, remove: Fault): seq<Action> {
    [Delete(id, user), Advance(id, 0, read), Advance(id, 0, erase), Advance(id, 0, remove)]
  }

  lemma RunStep(s: State, a: seq<Action>, i: nat)
    requires i < |a|
    ensures Run(s, a[i..]) == Run(Next(s, a[i]), a[i + 1..])
  {
    assert a[i..][1..] == a[i + 1..];
  }

  lemma RunFour(s: State, a: seq<Action>)
    requires |a| >= 4
    ensures Run(s, a) == Run(Next(Next(Next(Next(s, a[0]), a[1]), a[2]), a[3]), a[4..])
  {
    assert a[0..] == a;
    RunStep(s, a, 0);
    RunStep(Next(s, a[0]), a, 1);
    RunStep(Next(Next(s, a[0]), a[1]), a, 2);
    RunStep(Next(Next(Next(s, a[0]), a[1]), a[2]), a, 3);
  }

  lemma RunFive(s: State, a: seq<Action>)
    requires |a| == 5
    ensures Run(s, a) == Next(Next(Next(Next(Next(s, a[0]), a[1]), a[2]), a[3]), a[4])
  {
    RunFour(s, a);
    RunStep(Next(Next(Next(Next(s, a[0]), a[1]), a[2]), a[3]), a, 4);
  }

  datatype Request =
    | MakeAccount(user: Uuid)
    | UploadAvatar(id: int, user: Uuid, key: Key)
    | DeleteAccount(id: int, user: Uuid)

  /** A request served without interruption and without failure. */
  function Serve(s: State, r: Request): State {
    match r
    case MakeAccount(user) => Next(s, SignUp(user))
    case UploadAvatar(id, user, key) =>
      if id in s.calls || key in s.owner then s else Run(s, UploadScript(id, user, key, Works, Works, Works, Works))
    case DeleteAccount(id, user) =>
      if id in s.calls then s else Run(s, DeleteScript(id, user, Works, Works, Works))
  }

  function ServeAll(s: State, requests: seq<Request>): State
    decreases |requests|
  {
    if requests == [] then s else ServeAll(Serve(s, requests[0]), requests[1..])
  }

  ghost predicate Exact(s: State) {
    && (forall k :: k in s.objects <==> exists u :: Refers(s.rows, u, k))
    && (forall u, u', k :: Refers(s.rows, u, k) && Refers(s.rows, u', k) ==> u == u')
    && (forall k :: k in s.objects ==> k in s.owner)
  }

  lemma ServeUpload(s: State, id: int, user: Uuid, key: Key)
    requires Exact(s) && id !in s.calls && key !in s.owner
    ensures Exact(Serve(s, UploadAvatar(id, user, key)))
  {
    var a := UploadScript(id, user, key, Works, Works, Works, Works);
    RunFive(s, a);
    var s' := Run(s, a);
    if user in s.rows {
      var was := s.rows[user];
      assert was.Some? ==> Refers(s.rows, user, was.value);
      assert s'.rows == s.rows[user := Some(key)];
      assert s'.objects == s.objects + {key} - (if was.Some? then {was.value} else {});
      forall k ensures k in s'.objects <==> exists u :: Refers(s'.rows, u, k) {
        if k == key {
          assert Refers(s'.rows, user, k);
        } else if k in s'.objects {
          var u :| Refers(s.rows, u, k);
          assert Refers(s'.rows, u, k);
        } else if u :| Refers(s'.rows, u, k) {
          assert Refers(s.rows, u, k);
        }
      }
      assert forall u, k :: Refers(s'.rows, u, k) ==> (u == user && k == key) || (u != user && Refers(s.rows, u, k));
    }
  }

  lemma ServeDelete(s: State, id: int, user: Uuid)
    requires Exact(s) && id !in s.calls
    ensures Exact(Serve(s, DeleteAccount(id, user)))
  {
    var a := DeleteScript(id, user, Works, Works, Works);
    RunFour(s, a);
    var s' := Run(s, a);
    if user in s.rows {
      var was := s.rows[user];
      assert was.Some? ==> Refers(s.rows, user, was.value);
      assert s'.rows == s.rows - {user};
      assert s'.objects == s.objects - (if was.Some? then {was.value} else {});
      forall k ensures k in s'.objects <==> exists u :: Refers(s'.rows, u, k) {
        if k in s'.objects {
          var u :| Refers(s.rows, u, k);
          assert Refers(s'.rows, u, k);
        } else if u :| Refers(s'.rows, u, k) {
          assert Refers(s.rows, u, k);
        }
      }
      assert NoNewReference(s', s);
    }
  }

  lemma ServeSignUp(s: State, user: Uuid)
    requires Exact(s)
    ensures Exact(Serve(s, MakeAccount(user)))
  {
    var s' := Serve(s, MakeAccount(user));
    assert forall u, k :: Refers(s'.rows, u, k) <==> Refers(s.rows, u, k);
  }

  lemma {:induction false} ServeAllKeeps(s: State, requests: seq<Request>)
    requires Exact(s)
    ensures Exact(ServeAll(s, requests))
    decreases |requests|
  {
    if requests != [] {
      match requests[0] {
        case MakeAccount(user) => ServeSignUp(s, user);
        case UploadAvatar(id, user, key) => if id !in s.calls && key !in s.owner { ServeUpload(s, id, user, key); }
        case DeleteAccount(id, user) => if id !in s.calls { ServeDelete(s, id, user); }
      }
      ServeAllKeeps(Serve(s, requests[0]), requests[1..]);
    }
  }

  /** What an upload and a deletion are for, when they are served without interruption and without failure. */
  function Replaced(rows: map<Uuid, Option<Key>>, user: Uuid): set<Key> {
    if user in rows && rows[user].Some? then {rows[user].value} else {}
  }

  lemma ServedUploadSetsTheAvatar(s: State, id: int, user: Uuid, key: Key)
    requires id !in s.calls && key !in s.owner && user in s.rows && s.rows[user] != Some(key)
    ensures var s' := Serve(s, UploadAvatar(id, user, key));
      && s'.rows == s.rows[user := Some(key)]
      && key in s'.objects
      && (forall k :: k != key ==> (k in s'.objects <==> k in s.objects && k !in Replaced(s.rows, user)))
  {
    RunFive(s, UploadScript(id, user, key, Works, Works, Works, Works));
  }

  lemma ServedDeletionRemovesTheAvatar(s: State, id: int, user: Uuid)
    requires id !in s.calls && user in s.rows
    ensures var s' := Serve(s, DeleteAccount(id, user));
      && s'.rows == s.rows - {user}
      && (forall k :: k in s'.objects <==> k in s.objects && k !in Replaced(s.rows, user))
  {
    RunFour(s, DeleteScript(id, user, Works, Works, Works));
  }

  /** Served one at a time and without failures, the stored avatars are exactly the referenced ones. */
  lemma SerialStorageIsExact(requests: seq<Request>, key: Key)
    ensures var s := ServeAll(START, requests);
      key in s.objects <==> exists u :: Refers(s.rows, u, key)
  {
    ServeAllKeeps(START, requests);
  }

  /**
   * The exception in NoRowRefersToADeletedObject is real: one lost reply makes the
   * clean-up remove the avatar in use.
   */
  lemma LostReplyLeavesDanglingRow()
    ensures exists actions, user, key ::
      Refers(Run(START, actions).rows, user, key) && key !in Run(START, actions).objects
  {
    var script := UploadScript(7, 1, 5, Works, Works, FailsAfterEffect, Works);
    var actions := [SignUp(1)] + script;
    assert actions[1..] == script;
    RunFive(Next(START, SignUp(1)), script);
    assert Refers(Run(START, actions).rows, 1, 5) && 5 !in Run(START, actions).objects;
  }
}

/** The same calls as the service makes them, on a user table and an object store that change in place. */
module AvatarService {
  import opened Clock
  import opened Wrappers
  import opened Avatars

  /** A machine state that holds just these rows and objects and is at rest. */
  function AtRest(rows: map<Uuid, Option<Key>>, objects: set<Key>): State {
    State(rows, objects, map[], {}, map[], {}, {})
  }

  datatype Actor = Actor(id: Uuid, isAdmin: bool)

  datatype Error = Forbidden | BadRequest | NotFound | Internal

  class ObjectStore {
    var objects: set<Key>

    constructor ()
      ensures objects == {}
    {
      objects := {};
    }

    method Put(key: Key, fault: Fault) returns (ok: bool)
      modifies this
      ensures ok <==> fault == Works
      ensures objects == if fault == Fails then old(objects) else old(objects) + {key}
    {
      if fault == Fails {
        return false;
      }
      objects := objects + {key};
      return fault == Works;
    }

    /** Deleting a missing key is no error. */
    method Delete(key: Key, fault: Fault)
      modifies this
      ensures objects == if fault == Fails then old(objects) else old(objects) - {key}
    {
      if fault != Fails {
        objects := objects - {key};
      }
    }
  }

  class UserService {
    var rows: map<Uuid, Option<Key>>
    const files: ObjectStore

    constructor ()
      ensures rows == map[] && files.objects == {}
    {
      rows := map[];
      files := new ObjectStore();
    }

    /** Administrators may change every account, everybody else their own. */
    predicate Authorizes(actor: Actor, user: Uuid) {
      actor.isAdmin || actor.id == user
    }

    /** What the machine's script makes of rows and objects. */
    lemma ScriptOfUpload(
        rows: map<Uuid, Option<Key>>, objects: set<Key>, user: Uuid, key: Key,
        read: Fault, put: Fault, update: Fault, remove: Fault)
      ensures var s := Run(AtRest(rows, objects), UploadScript(0, user, key, read, put, update, remove));
        var found := user in rows && read == Works;
        var linked := found && put == Works && update != Fails;
        var stored := if found && put != Fails then objects + {key} else objects;
        && s.rows == (if linked then rows[user := Some(key)] else rows)
        && s.objects ==
          if !found || put != Works || remove == Fails then stored
          else if update != Works then stored - {key}
          else if rows[user] != Some(key) && rows[user].Some? then stored - {rows[user].value}
          else stored
    {
      RunFive(AtRest(rows, objects), UploadScript(0, user, key, read, put, update, remove));
    }

    method UploadAvatar(actor: Actor, user: Uuid, key: Key, read: Fault, put: Fault, update: Fault, remove: Fault)
      returns (r: Result<(), Error>)
      modifies this, files
      ensures r.Ok? <==>
        && (actor.isAdmin || actor.id == user) && user in old(rows) && read == Works && put == Works && update == Works
      ensures r == Err(Forbidden) <==> !actor.isAdmin && actor.id != user
      ensures r == Err(Forbidden) ==> rows == old(rows) && files.objects == old(files.objects)
      // A successful upload is the account's avatar, is stored, and takes the place of the one before.
      ensures r.Ok? ==>
        && rows == old(rows)[user := Some(key)] && key in files.objects
        && (forall k :: k in files.objects ==> k == key || k in old(files.objects))
        && (forall k :: k in old(files.objects) && k !in files.objects ==> old(rows)[user] == Some(k) && k != key)
        && (old(rows)[user].Some? && old(rows)[user].value != key && remove != Fails ==>
              old(rows)[user].value !in files.objects)
      // A failed one leaves the rows alone unless the update took effect.
      ensures r.Err? && update != FailsAfterEffect ==> rows == old(rows)
      ensures r.Err? ==> rows == old(rows) || (user in old(rows) && rows == old(rows)[user := Some(key)])
      ensures r.Err? ==> files.objects - {key} == old(files.objects) - {key}
      // ... and either way it is the call of the machine.
      ensures r != Err(Forbidden) ==>
        var script := UploadScript(0, user, key, read, put, update, remove);
        var s := Run(AtRest(old(rows), old(files.objects)), script);
        rows == s.rows && files.objects == s.objects
    {
      ScriptOfUpload(rows, files.objects, user, key, read, put, update, remove);
      if !Authorizes(actor, user) {
        return Err(Forbidden);
      }
      if user !in rows {
        return Err(NotFound);
      }
      if read != Works {
        return Err(Internal);
      }
      var existing := rows[user];
      var stored := files.Put(key, put);
      if !stored {
        return Err(Internal);
      }
      if update != Fails {
        rows := rows[user := Some(key)];
      }
      if update != Works {
        // Roll the orphaned upload back before returning.
        files.Delete(key, remove);
        return Err(Internal);
      }
      if existing.Some? && existing.value != key {
        files.Delete(existing.value, remove);
      }
      return Ok(());
    }

    method Delete(actor: Actor, user: Uuid, read: Fault, erase: Fault, remove: Fault) returns (r: Result<(), Error>)
      modifies this, files
      ensures r.Ok? <==>
        && (actor.isAdmin <==> actor.id != user) && user in old(rows) && read == Works && erase == Works
      ensures r == Err(Forbidden) <==> !actor.isAdmin && actor.id != user
      ensures r == Err(BadRequest) <==> actor.isAdmin && actor.id == user
      ensures r == Err(Forbidden) || r == Err(BadRequest) ==> rows == old(rows) && files.objects == old(files.objects)
      // A successful deletion takes the account away and its avatar along.
      ensures r.Ok? ==>
        && rows == old(rows) - {user}
        && (forall k :: k in files.objects ==> k in old(files.objects))
        && (forall k :: k in old(files.objects) && k !in files.objects ==> old(rows)[user] == Some(k))
        && (old(rows)[user].Some? && remove != Fails ==> old(rows)[user].value !in files.objects)
      ensures r.Err? ==> files.objects == old(files.objects)
      ensures r.Err? && erase != FailsAfterEffect ==> rows == old(rows)
      ensures r != Err(Forbidden) && r != Err(BadRequest) ==>
        var s := Run(AtRest(old(rows), old(files.objects)), DeleteScript(0, user, read, erase, remove));
        rows == s.rows && files.objects == s.objects
    {
      ghost var s := AtRest(rows, files.objects);
      RunFour(s, DeleteScript(0, user, read, erase, remove));
      if !Authorizes(actor, user) {
        return Err(Forbidden);
      }
      if actor.isAdmin && actor.id == user {
        return Err(BadRequest);
      }
      if user !in rows {
        return Err(NotFound);
      }
      if read != Works {
        return Err(Internal);
      }
      var existing := rows[user];
      if erase != Fails {
        rows := rows - {user};
      }
      if erase != Works {
        return Err(Internal);
      }
      if existing.Some? {
        files.Delete(existing.value, remove);
      }
      return Ok(());
    }
  }
}
