/**
 Why there is always an admin role: every role mutation is guarded, and the transactions they run in are serializable.
 */
module AdminContinuity {
  import opened Wrappers

  type Id = nat

  /** The roles of the database, and whether each grants admin access. */
  type Roles = map<Id, bool>

  function Admins(db: Roles): set<Id> {
    set k | k in db && db[k]
  }

  datatype Failure =
    | LastAdmin   // `You can't delete the last admin role.`
    | Unverified  // a demotion in a transaction nobody has vouched for

  datatype Mode = Enforce | FailClosed

  /** What an effective payload says about `admin_access`. */
  datatype Change = Untouched | Admin(access: bool)

  datatype Upsert = Upsert(key: Option<Id>, generated: Id, change: Change)

  datatype Op =
    | UpdateMany(keys: seq<Id>, change: Change)
    | UpdateBatch(items: seq<(Id, Change)>)
    | UpsertMany(payloads: seq<Upsert>)
    | DeleteMany(removed: seq<Id>)

  // ----- what an operation does to the database -----

  datatype Act =
    | Exists(key: Id, found: bool)
    | Update(keys: seq<Id>, change: Change)
    | Create(created: Id, admin: bool)
    | Delete(removed: seq<Id>)

  /** One operation as the database sees it: the admin roles it was told of, then its other reads
      and its writes. */
  datatype Trace = Trace(seen: set<Id>, acts: seq<Act>)

  function Write(db: Roles, act: Act): Roles {
    match act
    case Exists(_, _) => db
    case Update(keys, change) =>
      if change == Untouched then db
      else map k | k in db :: if k in keys then change.access else db[k]
    case Create(key, admin) => db[key := admin]
    case Delete(removed) => map k | k in db && k !in removed :: db[k]
  }

  /** The answers and constraints a database in this state would give. */
  predicate Agrees(db: Roles, act: Act) {
    match act
    case Exists(key, found) => found <==> key in db
    case Create(key, _) => key !in db
    case _ => true
  }

  // ----- the guard -----

  /** `leavesAtLeastOneAdmin` */
  method LeavesAtLeastOneAdmin(currentAdmins: set<Id>, removing: set<Id>, adding: set<Id>) returns (r: bool)
    ensures r <==> adding != {} || !(currentAdmins <= removing)
  {
    if |adding| > 0 {
      return true;
    }
    assert adding == {};
    var left := currentAdmins;
    while left != {}
      invariant left <= currentAdmins && currentAdmins - left <= removing
      decreases |left|
    {
      var id :| id in left;
      if id !in removing {
        return true;
      }
      left := left - {id};
    }
    return false;
  }

  /** The admins of the snapshot among some keys. */
  function Hit(keys: seq<Id>, snapshot: set<Id>): (hit: set<Id>)
    ensures forall k :: k in hit <==> k in keys && k in snapshot
  {
    set k | k in keys && k in snapshot
  }

  /** The demotions the guard has counted after one more update, unless it refuses. */
  function Guarded(mode: Mode, snapshot: set<Id>, demoted: set<Id>, act: Act): Result<set<Id>, Failure> {
    match act
    case Update(keys, Admin(false)) =>
      if mode == FailClosed then Err(Unverified)
      else
        var more := demoted + Hit(keys, snapshot);
        if snapshot <= more then Err(LastAdmin) else Ok(more)
    case _ => Ok(demoted)
  }

  function GuardedAll(mode: Mode, snapshot: set<Id>, acts: seq<Act>): Result<set<Id>, Failure> {
    if acts == [] then Ok({})
    else
      var before := GuardedAll(mode, snapshot, acts[..|acts| - 1]);
      if before.Err? then before else Guarded(mode, snapshot, before.value, acts[|acts| - 1])
  }

  class AdminContinuityGuard {
    const mode: Mode
    const snapshot: set<Id>
    var demoted: set<Id>

    constructor (mode: Mode, snapshot: set<Id>)
      ensures this.mode == mode && this.snapshot == snapshot && demoted == {}
    {
      this.mode := mode;
      this.snapshot := snapshot;
      demoted := {};
    }

    method BeforeUpdate(change: Change, keys: seq<Id>) returns (refused: Option<Failure>)
      modifies this
      ensures var g := Guarded(mode, snapshot, old(demoted), Update(keys, change));
              if g.Ok? then refused == None && demoted == g.value else refused == Some(g.failure)
    {
      if change == Untouched || change.access {
        return None;
      }
      if mode == FailClosed {
        return Some(Unverified);
      }
      for i := 0 to |keys|
        invariant demoted == old(demoted) + Hit(keys[..i], snapshot)
      {
        assert keys[..i + 1] == keys[..i] + [keys[i]];
        if keys[i] in snapshot {
          demoted := demoted + {keys[i]};
        }
      }
      assert keys[..|keys|] == keys;
      var leaves := LeavesAtLeastOneAdmin(snapshot, demoted, {});
      return if leaves then None else Some(LastAdmin);
    }
  }

  // ----- the operations -----

  /** A transaction on the roles.  What it is told when it reads is for the database to say. */
  class Transaction {
    var traces: seq<Trace>

    constructor ()
      ensures traces == []
    {
      traces := [];
    }

    method ReadAdminRoleIds() returns (ids: set<Id>)
      modifies this
      ensures traces == old(traces) + [Trace(ids, [])]
    {
      ids := *;
      traces := traces + [Trace(ids, [])];
    }

    method ReadExists(key: Id) returns (found: bool)
      requires traces != []
      modifies this
      ensures traces == Recorded(old(traces), Exists(key, found))
    {
      found := *;
      traces := Recorded(traces, Exists(key, found));
    }

    method Execute(act: Act)
      requires traces != [] && !act.Exists?
      modifies this
      ensures traces == Recorded(old(traces), act)
    {
      traces := Recorded(traces, act);
    }
  }

  function Recorded(traces: seq<Trace>, act: Act): seq<Trace>
    requires traces != []
  {
    var last := traces[|traces| - 1];
    traces[..|traces| - 1] + [Trace(last.seen, last.acts + [act])]
  }

  /** Everything an operation still has to say about the trace it leaves. */
  ghost predicate Open(before: seq<Trace>, traces: seq<Trace>, seen: set<Id>, acts: seq<Act>) {
    traces == before + [Trace(seen, acts)]
  }

  function BatchActs(items: seq<(Id, Change)>): seq<Act> {
    if items == [] then []
    else BatchActs(items[..|items| - 1]) + [Update([items[|items| - 1].0], items[|items| - 1].1)]
  }

  function UpsertActs(payload: Upsert, found: bool): seq<Act> {
    var admin := payload.change == Admin(true);
    if payload.key.None? then [Create(payload.generated, admin)]
    else if found then [Exists(payload.key.value, true), Update([payload.key.value], payload.change)]
    else [Exists(payload.key.value, false), Create(payload.key.value, admin)]
  }

  function UpsertsActs(payloads: seq<Upsert>, found: seq<bool>): seq<Act>
    requires |found| == |payloads|
  {
    if payloads == [] then []
    else
      var n := |payloads| - 1;
      UpsertsActs(payloads[..n], found[..n]) + UpsertActs(payloads[n], found[n])
  }

  ghost predicate Upserts(payloads: seq<Upsert>, acts: seq<Act>) {
    exists found: seq<bool> :: |found| == |payloads| && acts == UpsertsActs(payloads, found)
  }

  /** The traces an operation can leave when it succeeds. */
  ghost predicate Follows(mode: Mode, op: Op, t: Trace) {
    match op
    case UpdateMany(keys, change) => t.acts == [Update(keys, change)] && GuardedAll(mode, t.seen, t.acts).Ok?
    case UpdateBatch(items) => t.acts == BatchActs(items) && GuardedAll(mode, t.seen, t.acts).Ok?
    case UpsertMany(payloads) => Upserts(payloads, t.acts) && GuardedAll(mode, t.seen, t.acts).Ok?
    case DeleteMany(removed) =>
      mode == Enforce && t.acts == [Delete(removed)] && !(t.seen <= set k | k in removed)
  }

  function FailureOf(g: Result<set<Id>, Failure>): Option<Failure> {
    if g.Ok? then None else Some(g.failure)
  }

  /** One more trace, begun by reading the admin roles. */
  twostate predicate Began(trx: Transaction)
    reads trx
  {
    |trx.traces| == |old(trx.traces)| + 1 && old(trx.traces) < trx.traces
  }

  lemma GuardedMore(mode: Mode, snapshot: set<Id>, acts: seq<Act>, act: Act)
    ensures var before := GuardedAll(mode, snapshot, acts);
            GuardedAll(mode, snapshot, acts + [act]) ==
            if before.Err? then before else Guarded(mode, snapshot, before.value, act)
  {
    assert (acts + [act])[..|acts + [act]| - 1] == acts;
  }

  /** `updateMany` of the items service: the guard is asked before the row is written. */
  method GuardedUpdate(trx: Transaction, guard: AdminContinuityGuard, keys: seq<Id>, change: Change,
                       ghost before: seq<Trace>, ghost acts: seq<Act>) returns (refused: Option<Failure>)
    requires Open(before, trx.traces, guard.snapshot, acts)
    requires GuardedAll(guard.mode, guard.snapshot, acts) == Ok(guard.demoted)
    modifies trx, guard
    ensures refused.None? ==>
              && Open(before, trx.traces, guard.snapshot, acts + [Update(keys, change)])
              && GuardedAll(guard.mode, guard.snapshot, acts + [Update(keys, change)]) == Ok(guard.demoted)
    ensures refused == FailureOf(GuardedAll(guard.mode, guard.snapshot, acts + [Update(keys, change)]))
    ensures refused.Some? ==> trx.traces == old(trx.traces)
  {
    GuardedMore(guard.mode, guard.snapshot, acts, Update(keys, change));
    refused := guard.BeforeUpdate(change, keys);
    if refused.None? {
      trx.Execute(Update(keys, change));
    }
  }

  method UpdateManyRoles(trx: Transaction, mode: Mode, keys: seq<Id>, change: Change) returns (refused: Option<Failure>)
    modifies trx
    ensures Began(trx)
    ensures var t := trx.traces[|old(trx.traces)|];
            && refused == FailureOf(GuardedAll(mode, t.seen, [Update(keys, change)]))
            && (refused.None? ==> Follows(mode, UpdateMany(keys, change), t))
  {
    var snapshot := trx.ReadAdminRoleIds();
    var guard := new AdminContinuityGuard(mode, snapshot);
    refused := GuardedUpdate(trx, guard, keys, change, old(trx.traces), []);
    assert [] + [Update(keys, change)] == [Update(keys, change)];
  }

  lemma {:induction false} BatchStaysRefused(mode: Mode, snapshot: set<Id>, items: seq<(Id, Change)>, i: nat)
    requires i <= |items| && GuardedAll(mode, snapshot, BatchActs(items[..i])).Err?
    ensures GuardedAll(mode, snapshot, BatchActs(items)) == GuardedAll(mode, snapshot, BatchActs(items[..i]))
    decreases |items| - i
  {
    if i == |items| {
      assert items[..i] == items;
    } else {
      assert items[..i + 1][..i] == items[..i];
      GuardedMore(mode, snapshot, BatchActs(items[..i]), Update([items[i].0], items[i].1));
      BatchStaysRefused(mode, snapshot, items, i + 1);
    }
  }

  method UpdateBatchOfRoles(trx: Transaction, mode: Mode, items: seq<(Id, Change)>) returns (refused: Option<Failure>)
    modifies trx
    ensures Began(trx)
    ensures var t := trx.traces[|old(trx.traces)|];
            && refused == FailureOf(GuardedAll(mode, t.seen, BatchActs(items)))
            && (refused.None? ==> Follows(mode, UpdateBatch(items), t))
  {
    var snapshot := trx.ReadAdminRoleIds();
    var guard := new AdminContinuityGuard(mode, snapshot);
    for i := 0 to |items|
      invariant Open(old(trx.traces), trx.traces, snapshot, BatchActs(items[..i]))
      invariant GuardedAll(mode, snapshot, BatchActs(items[..i])) == Ok(guard.demoted)
    {
      assert items[..i + 1][..i] == items[..i];
      refused := GuardedUpdate(trx, guard, [items[i].0], items[i].1, old(trx.traces), BatchActs(items[..i]));
      if refused.Some? {
        BatchStaysRefused(mode, snapshot, items, i + 1);
        return;
      }
    }
    assert items[..|items|] == items;
    refused := None;
  }

  lemma GuardedHarmless(mode: Mode, snapshot: set<Id>, acts: seq<Act>, act: Act)
    requires !act.Update?
    ensures GuardedAll(mode, snapshot, acts + [act]) == GuardedAll(mode, snapshot, acts)
  {
    GuardedMore(mode, snapshot, acts, act);
  }

  /** One payload of `upsertMany`: an update under the guard, or a creation. */
  method UpsertOne(trx: Transaction, guard: AdminContinuityGuard, payload: Upsert,
                   ghost before: seq<Trace>, ghost acts: seq<Act>) returns (refused: Option<Failure>, found: bool)
    requires Open(before, trx.traces, guard.snapshot, acts)
    requires GuardedAll(guard.mode, guard.snapshot, acts) == Ok(guard.demoted)
    modifies trx, guard
    ensures refused.None? ==>
              && Open(before, trx.traces, guard.snapshot, acts + UpsertActs(payload, found))
              && GuardedAll(guard.mode, guard.snapshot, acts + UpsertActs(payload, found)) == Ok(guard.demoted)
    ensures refused.Some? ==>
              && GuardedAll(guard.mode, guard.snapshot, acts + UpsertActs(payload, found)) == Err(refused.value)
              && found && payload.key.Some?
              && Open(before, trx.traces, guard.snapshot, acts + [Exists(payload.key.value, true)])
  {
    hide GuardedAll;
    found := false;
    ghost var sofar := acts;
    if payload.key.Some? {
      found := trx.ReadExists(payload.key.value);
      GuardedHarmless(guard.mode, guard.snapshot, acts, Exists(payload.key.value, found));
      sofar := acts + [Exists(payload.key.value, found)];
    }
    if found {
      refused := GuardedUpdate(trx, guard, [payload.key.value], payload.change, before, sofar);
      assert acts + UpsertActs(payload, found) == sofar + [Update([payload.key.value], payload.change)];
    } else {
      var id := if payload.key.Some? then payload.key.value else payload.generated;
      var create := Create(id, payload.change == Admin(true));
      trx.Execute(create);
      GuardedHarmless(guard.mode, guard.snapshot, sofar, create);
      assert acts + UpsertActs(payload, found) == sofar + [create];
      refused := None;
    }
  }

  method UpsertManyRoles(trx: Transaction, mode: Mode, payloads: seq<Upsert>) returns (refused: Option<Failure>)
    modifies trx
    ensures Began(trx)
    ensures var t := trx.traces[|old(trx.traces)|];
            if refused.None? then Follows(mode, UpsertMany(payloads), t)
            else UpsertsStopped(mode, payloads, t, refused.value)
  {
    hide GuardedAll, Open, UpsertActs;
    var snapshot := trx.ReadAdminRoleIds();
    var guard := new AdminContinuityGuard(mode, snapshot);
    ghost var before := old(trx.traces);
    ghost var answers: seq<bool> := [];
    ghost var acts: seq<Act> := [];
    NothingYet(mode, snapshot, before);
    for i := 0 to |payloads|
      invariant |answers| == i && acts == UpsertsActs(payloads[..i], answers)
      invariant Open(before, trx.traces, snapshot, acts)
      invariant GuardedAll(mode, snapshot, acts) == Ok(guard.demoted)
    {
      var found: bool;
      refused, found := UpsertOne(trx, guard, payloads[i], before, acts);
      UpsertsMore(payloads, i, answers, found);
      if refused.Some? {
        StoppedThere(mode, payloads, answers, before, trx.traces, snapshot, refused.value);
        return;
      }
      acts := acts + UpsertActs(payloads[i], found);
      answers := answers + [found];
    }
    assert payloads[..|payloads|] == payloads;
    UpsertsFollow(mode, payloads, answers, before, trx.traces, snapshot);
    refused := None;
  }

  lemma NothingYet(mode: Mode, snapshot: set<Id>, before: seq<Trace>)
    ensures Open(before, before + [Trace(snapshot, [])], snapshot, [])
    ensures GuardedAll(mode, snapshot, []) == Ok({})
  {
  }

  /** The trace of a refused call: payload by payload it did what the database's answers called for, all
      of which the guard let through, until a payload whose role was found and whose update it refused. */
  ghost predicate UpsertsStopped(mode: Mode, payloads: seq<Upsert>, t: Trace, failure: Failure) {
    exists found: seq<bool> :: |found| < |payloads| && UpsertsStoppedAt(mode, payloads, found, t, failure)
  }

  ghost predicate UpsertsStoppedAt(mode: Mode, payloads: seq<Upsert>, found: seq<bool>, t: Trace, failure: Failure)
    requires |found| < |payloads|
  {
    var done := UpsertsActs(payloads[..|found|], found);
    var next := payloads[|found|];
    && next.key.Some? && t.acts == done + [Exists(next.key.value, true)]
    && GuardedAll(mode, t.seen, done).Ok?
    && GuardedAll(mode, t.seen, done + UpsertActs(next, true)) == Err(failure)
  }

  lemma StoppedThere(mode: Mode, payloads: seq<Upsert>, found: seq<bool>, before: seq<Trace>, traces: seq<Trace>,
                     seen: set<Id>, failure: Failure)
    requires |found| < |payloads| && payloads[|found|].key.Some?
    requires var done := UpsertsActs(payloads[..|found|], found);
             && GuardedAll(mode, seen, done).Ok?
             && GuardedAll(mode, seen, done + UpsertActs(payloads[|found|], true)) == Err(failure)
             && Open(before, traces, seen, done + [Exists(payloads[|found|].key.value, true)])
    ensures |traces| == |before| + 1 && before < traces
    ensures UpsertsStopped(mode, payloads, traces[|before|], failure)
  {
    hide GuardedAll, UpsertsActs, UpsertActs;
    assert UpsertsStoppedAt(mode, payloads, found, traces[|before|], failure);
  }

  lemma UpsertsFollow(mode: Mode, payloads: seq<Upsert>, found: seq<bool>, before: seq<Trace>, traces: seq<Trace>, seen: set<Id>)
    requires |found| == |payloads| && GuardedAll(mode, seen, UpsertsActs(payloads, found)).Ok?
    requires Open(before, traces, seen, UpsertsActs(payloads, found))
    ensures |traces| == |before| + 1 && before < traces
    ensures Follows(mode, UpsertMany(payloads), traces[|before|])
  {
  }

  lemma UpsertsMore(payloads: seq<Upsert>, i: nat, found: seq<bool>, next: bool)
    requires i < |payloads| && |found| == i
    ensures UpsertsActs(payloads[..i + 1], found + [next])
            == UpsertsActs(payloads[..i], found) + UpsertActs(payloads[i], next)
  {
    assert payloads[..i + 1][..i] == payloads[..i] && (found + [next])[..i] == found;
  }

  method DeleteManyRoles(trx: Transaction, mode: Mode, removed: seq<Id>) returns (refused: Option<Failure>)
    modifies trx
    ensures mode == FailClosed ==> refused == Some(Unverified) && trx.traces == old(trx.traces)
    ensures mode == Enforce ==> Began(trx)
    ensures mode == Enforce ==>
              var t := trx.traces[|old(trx.traces)|];
              && (refused.None? ==> Follows(mode, DeleteMany(removed), t))
              && refused == if t.seen <= set k | k in removed then Some(LastAdmin) else None
  {
    if mode == FailClosed {
      return Some(Unverified);
    }
    var snapshot := trx.ReadAdminRoleIds();
    var leaves := LeavesAtLeastOneAdmin(snapshot, set k | k in removed, {});
    if !leaves {
      return Some(LastAdmin);
    }
    trx.Execute(Delete(removed));
    refused := None;
  }

  // ----- one operation keeps an admin -----

  function Replay(acts: seq<Act>, db: Roles): Option<Roles> {
    if acts == [] then Some(db)
    else
      var before := Replay(acts[..|acts| - 1], db);
      if before.Some? && Agrees(before.value, acts[|acts| - 1]) then Some(Write(before.value, acts[|acts| - 1]))
      else None
  }

  lemma ReplayOne(act: Act, db: Roles)
    ensures Replay([act], db) == if Agrees(db, act) then Some(Write(db, act)) else None
  {
    assert [act][..0] == [] && Replay([], db) == Some(db);
  }

  /** A verified transaction must have been told the truth; of an unverified one the database
      promises nothing. */
  function ReplayTrace(mode: Mode, t: Trace, db: Roles): Option<Roles> {
    if mode == Enforce && t.seen != Admins(db) then None else Replay(t.acts, db)
  }

  predicate NoDelete(acts: seq<Act>) {
    forall i :: 0 <= i < |acts| ==> !acts[i].Delete?
  }

  /** However an operation mixes its updates and creations, the admins of its snapshot that the
      guard has not counted as demoted are still admins. */
  lemma {:induction false} SnapshotMinusDemotedStays(mode: Mode, acts: seq<Act>, db: Roles)
    requires NoDelete(acts)
    requires GuardedAll(mode, Admins(db), acts).Ok? && Replay(acts, db).Some?
    ensures Admins(db) - GuardedAll(mode, Admins(db), acts).value <= Admins(Replay(acts, db).value)
  {
    if acts != [] {
      var front, last := acts[..|acts| - 1], acts[|acts| - 1];
      SnapshotMinusDemotedStays(mode, front, db);
      var before := Replay(front, db).value;
      forall k | k in Admins(db) - GuardedAll(mode, Admins(db), acts).value ensures k in Admins(Write(before, last)) {
        assert k in Admins(before);
      }
    }
  }

  /** As long as the guard counts anything as demoted, it leaves someone over. */
  lemma {:induction false} SomeoneIsLeft(mode: Mode, snapshot: set<Id>, acts: seq<Act>)
    requires snapshot != {} && GuardedAll(mode, snapshot, acts).Ok?
    ensures !(snapshot <= GuardedAll(mode, snapshot, acts).value)
  {
    if acts != [] {
      SomeoneIsLeft(mode, snapshot, acts[..|acts| - 1]);
    }
  }

  lemma {:induction false} BatchDeletesNothing(items: seq<(Id, Change)>)
    ensures NoDelete(BatchActs(items))
  {
    if items != [] {
      BatchDeletesNothing(items[..|items| - 1]);
    }
  }

  lemma {:induction false} UpsertsDeleteNothing(payloads: seq<Upsert>, found: seq<bool>)
    requires |found| == |payloads|
    ensures NoDelete(UpsertsActs(payloads, found))
  {
    if payloads != [] {
      UpsertsDeleteNothing(payloads[..|payloads| - 1], found[..|payloads| - 1]);
    }
  }

  lemma FollowsDeletes(mode: Mode, op: Op, t: Trace)
    requires Follows(mode, op, t)
    ensures !op.DeleteMany? ==> NoDelete(t.acts) && GuardedAll(mode, t.seen, t.acts).Ok?
  {
    match op {
      case UpdateMany(_, _) =>
      case UpdateBatch(items) => BatchDeletesNothing(items);
      case UpsertMany(payloads) =>
        var found: seq<bool> :| |found| == |payloads| && t.acts == UpsertsActs(payloads, found);
        UpsertsDeleteNothing(payloads, found);
      case DeleteMany(_) =>
    }
  }

  lemma OperationKeepsAnAdmin(op: Op, t: Trace, db: Roles)
    requires Follows(Enforce, op, t) && Admins(db) != {}
    requires ReplayTrace(Enforce, t, db).Some?
    ensures Admins(ReplayTrace(Enforce, t, db).value) != {}
  {
    FollowsDeletes(Enforce, op, t);
    var after := ReplayTrace(Enforce, t, db).value;
    if op.DeleteMany? {
      var k :| k in t.seen && k !in op.removed;
      ReplayOne(Delete(op.removed), db);
      assert k in Admins(after);
    } else {
      SnapshotMinusDemotedStays(Enforce, t.acts, db);
      SomeoneIsLeft(Enforce, t.seen, t.acts);
      var k :| k in t.seen && k !in GuardedAll(Enforce, t.seen, t.acts).value;
      assert k in Admins(after);
    }
  }

  /** What a deletion leaves: every other role as it was, an admin among them. */
  lemma DeletedAreGone(removed: seq<Id>, t: Trace, db: Roles)
    requires Follows(Enforce, DeleteMany(removed), t) && ReplayTrace(Enforce, t, db).Some?
    ensures var after := ReplayTrace(Enforce, t, db).value;
            && (forall k :: k in after <==> k in db && k !in removed)
            && (forall k :: k in after ==> after[k] == db[k])
            && exists k :: k in after && after[k]
  {
    ReplayOne(Delete(removed), db);
    var k :| k in t.seen && k !in removed;
    assert k in ReplayTrace(Enforce, t, db).value;
  }

  /** In an unverified transaction nothing is demoted and nothing deleted, whatever it was told. */
  lemma {:induction false} FailClosedNeverDemotes(acts: seq<Act>, snapshot: set<Id>, i: nat)
    requires GuardedAll(FailClosed, snapshot, acts).Ok? && i < |acts|
    ensures !(acts[i].Update? && acts[i].change == Admin(false))
  {
    if i < |acts| - 1 {
      FailClosedNeverDemotes(acts[..|acts| - 1], snapshot, i);
    }
  }

  /** It refuses nothing else: an operation is refused there exactly when it demotes someone. */
  lemma {:induction false} UnverifiedIsRefusedIff(acts: seq<Act>, snapshot: set<Id>)
    ensures GuardedAll(FailClosed, snapshot, acts) == Err(Unverified)
            <==> exists i :: 0 <= i < |acts| && acts[i].Update? && acts[i].change == Admin(false)
    ensures GuardedAll(FailClosed, snapshot, acts).Err? ==> GuardedAll(FailClosed, snapshot, acts) == Err(Unverified)
  {
    if acts != [] {
      var front := acts[..|acts| - 1];
      UnverifiedIsRefusedIff(front, snapshot);
      if i :| 0 <= i < |front| && front[i].Update? && front[i].change == Admin(false) {
        assert acts[i] == front[i];
      }
      if i :| 0 <= i < |acts| && acts[i].Update? && acts[i].change == Admin(false) {
        assert i < |front| ==> front[i] == acts[i];
      }
    }
  }

  lemma {:induction false} AdminsOnlyGrow(acts: seq<Act>, db: Roles)
    requires NoDelete(acts) && Replay(acts, db).Some?
    requires forall i :: 0 <= i < |acts| && acts[i].Update? ==> acts[i].change != Admin(false)
    ensures Admins(db) <= Admins(Replay(acts, db).value)
  {
    if acts != [] {
      AdminsOnlyGrow(acts[..|acts| - 1], db);
    }
  }

  lemma UnverifiedKeepsAdmins(op: Op, t: Trace, db: Roles)
    requires Follows(FailClosed, op, t) && ReplayTrace(FailClosed, t, db).Some?
    ensures Admins(db) <= Admins(ReplayTrace(FailClosed, t, db).value)
  {
    FollowsDeletes(FailClosed, op, t);
    forall i | 0 <= i < |t.acts| && t.acts[i].Update? ensures t.acts[i].change != Admin(false) {
      FailClosedNeverDemotes(t.acts, t.seen, i);
    }
    AdminsOnlyGrow(t.acts, db);
  }

  // ----- any interleaving of transactions -----

  /** A committed transaction: its operations, each with the trace it left. */
  datatype Txn = Txn(mode: Mode, ops: seq<Op>, traces: seq<Trace>)

  ghost predicate Genuine(t: Txn) {
    && |t.ops| == |t.traces|
    && forall i :: 0 <= i < |t.ops| ==> Follows(t.mode, t.ops[i], t.traces[i])
  }

  function ReplayTraces(mode: Mode, traces: seq<Trace>, db: Roles): Option<Roles> {
    if traces == [] then Some(db)
    else
      var before := ReplayTraces(mode, traces[..|traces| - 1], db);
      if before.None? then None else ReplayTrace(mode, traces[|traces| - 1], before.value)
  }

  function ReplayAll(order: seq<Txn>, db: Roles): Option<Roles> {
    if order == [] then Some(db)
    else
      var before := ReplayAll(order[..|order| - 1], db);
      if before.None? then None
      else ReplayTraces(order[|order| - 1].mode, order[|order| - 1].traces, before.value)
  }

  /** Some serial order of the transactions explains every answer they were given and the state
      they left. */
  ghost predicate Serializable(initial: Roles, committed: seq<Txn>, state: Roles) {
    exists order: seq<Txn> ::
      multiset(order) == multiset(committed) && ReplayAll(order, initial) == Some(state)
  }

  lemma {:induction false} TransactionKeepsAnAdmin(t: Txn, n: nat, db: Roles)
    requires Genuine(t) && n <= |t.traces| && Admins(db) != {}
    requires ReplayTraces(t.mode, t.traces[..n], db).Some?
    ensures Admins(ReplayTraces(t.mode, t.traces[..n], db).value) != {}
  {
    if n > 0 {
      assert t.traces[..n][..n - 1] == t.traces[..n - 1];
      TransactionKeepsAnAdmin(t, n - 1, db);
      var before := ReplayTraces(t.mode, t.traces[..n - 1], db).value;
      if t.mode == Enforce {
        OperationKeepsAnAdmin(t.ops[n - 1], t.traces[n - 1], before);
      } else {
        UnverifiedKeepsAdmins(t.ops[n - 1], t.traces[n - 1], before);
      }
    }
  }

  lemma {:induction false} SerialOrderKeepsAnAdmin(order: seq<Txn>, initial: Roles)
    requires forall i :: 0 <= i < |order| ==> Genuine(order[i])
    requires Admins(initial) != {} && ReplayAll(order, initial).Some?
    ensures Admins(ReplayAll(order, initial).value) != {}
  {
    if order != [] {
      var last := order[|order| - 1];
      SerialOrderKeepsAnAdmin(order[..|order| - 1], initial);
      assert last.traces[..|last.traces|] == last.traces;
      TransactionKeepsAnAdmin(last, |last.traces|, ReplayAll(order[..|order| - 1], initial).value);
    }
  }

  /** However the transactions interleave, every state they commit has an admin role. */
  lemma EveryCommittedStateHasAnAdmin(initial: Roles, committed: seq<Txn>, states: seq<Roles>, k: nat)
    requires Admins(initial) != {}
    requires forall i :: 0 <= i < |committed| ==> Genuine(committed[i])
    requires |states| == |committed| + 1 && k < |states|
    requires forall i :: 0 <= i < |states| ==> Serializable(initial, committed[..i], states[i])
    ensures Admins(states[k]) != {}
  {
    assert Serializable(initial, committed[..k], states[k]);
    var order: seq<Txn> :| multiset(order) == multiset(committed[..k]) && ReplayAll(order, initial) == Some(states[k]);
    forall i | 0 <= i < |order| ensures Genuine(order[i]) {
      assert order[i] in multiset(order);
      assert order[i] in committed[..k];
    }
    SerialOrderKeepsAnAdmin(order, initial);
  }

  // ----- how exact the guard is -----

  /** Run alone, `updateMany` is refused exactly when it would leave no admin. */
  lemma UpdateIsRefusedExactly(keys: seq<Id>, db: Roles)
    ensures GuardedAll(Enforce, Admins(db), [Update(keys, Admin(false))]).Err?
            <==> Admins(Write(db, Update(keys, Admin(false)))) == {}
  {
    var act := Update(keys, Admin(false));
    assert [act][..0] == [];
    assert GuardedAll(Enforce, Admins(db), []) == Ok({});
    var after := Write(db, act);
    assert Admins(after) == Admins(db) - (set k | k in keys);
    assert Hit(keys, Admins(db)) == Admins(db) * (set k | k in keys);
  }

  /** The keys some item of a batch demotes. */
  function DemotedKeys(items: seq<(Id, Change)>): set<Id> {
    set i | 0 <= i < |items| && items[i].1 == Admin(false) :: items[i].0
  }

  lemma DemotedMore(items: seq<(Id, Change)>)
    requires items != []
    ensures var last := items[|items| - 1];
            DemotedKeys(items) == DemotedKeys(items[..|items| - 1]) + if last.1 == Admin(false) then {last.0} else {}
  {
    var front, last := items[..|items| - 1], items[|items| - 1];
    forall k | k in DemotedKeys(items) ensures k in DemotedKeys(front) || (last.1 == Admin(false) && k == last.0) {
      var i :| 0 <= i < |items| && items[i].1 == Admin(false) && items[i].0 == k;
      assert i < |front| ==> front[i] == items[i];
    }
    forall k | k in DemotedKeys(front) ensures k in DemotedKeys(items) {
      var i :| 0 <= i < |front| && front[i].1 == Admin(false) && front[i].0 == k;
      assert items[i] == front[i];
    }
  }

  /** What the guard has counted at the end of a batch. */
  lemma {:induction false} BatchGuarded(snapshot: set<Id>, items: seq<(Id, Change)>)
    ensures GuardedAll(Enforce, snapshot, BatchActs(items)) ==
            if DemotedKeys(items) != {} && snapshot <= DemotedKeys(items) then Err(LastAdmin)
            else Ok(snapshot * DemotedKeys(items))
  {
    if items == [] {
      assert DemotedKeys(items) == {} && snapshot * {} == {};
      assert GuardedAll(Enforce, snapshot, []) == Ok({});
    } else {
      var front, last := items[..|items| - 1], items[|items| - 1];
      BatchGuarded(snapshot, front);
      DemotedMore(items);
      assert BatchActs(items) == BatchActs(front) + [Update([last.0], last.1)];
      GuardedMore(Enforce, snapshot, BatchActs(front), Update([last.0], last.1));
      if GuardedAll(Enforce, snapshot, BatchActs(front)).Ok? {
        BatchStep(snapshot, DemotedKeys(front), last.0, last.1);
      }
    }
  }

  /** One more item, when `demoted` are the keys demoted so far. */
  lemma BatchStep(snapshot: set<Id>, demoted: set<Id>, k: Id, change: Change)
    requires !(demoted != {} && snapshot <= demoted)
    ensures var more := demoted + if change == Admin(false) then {k} else {};
            Guarded(Enforce, snapshot, snapshot * demoted, Update([k], change)) ==
            if more != {} && snapshot <= more then Err(LastAdmin) else Ok(snapshot * more)
  {
    if change == Admin(false) {
      assert Hit([k], snapshot) == {k} * snapshot;
      assert snapshot * demoted + Hit([k], snapshot) == snapshot * (demoted + {k});
      assert snapshot <= snapshot * (demoted + {k}) <==> snapshot <= demoted + {k};
    } else {
      assert demoted + {} == demoted;
    }
  }

  /** A batch is judged by all it demotes, even what it promotes again: it is refused exactly when it
      demotes someone and demotes every admin of the snapshot at some point. */
  lemma BatchIsRefusedIff(snapshot: set<Id>, items: seq<(Id, Change)>)
    ensures GuardedAll(Enforce, snapshot, BatchActs(items)).Err?
            <==> DemotedKeys(items) != {} && snapshot <= DemotedKeys(items)
  {
    BatchGuarded(snapshot, items);
  }

  /** The last thing a batch says about the access of a role. */
  function LastChange(items: seq<(Id, Change)>, k: Id): Change {
    if items == [] then Untouched
    else if items[|items| - 1].0 == k && items[|items| - 1].1 != Untouched then items[|items| - 1].1
    else LastChange(items[..|items| - 1], k)
  }

  lemma {:induction false} BatchLeaves(db: Roles, items: seq<(Id, Change)>)
    ensures var after := Replay(BatchActs(items), db);
            && after.Some? && after.value.Keys == db.Keys
            && forall k :: k in db ==>
                 after.value[k] == if LastChange(items, k) == Untouched then db[k] else LastChange(items, k).access
  {
    if items != [] {
      var front, last := items[..|items| - 1], items[|items| - 1];
      BatchLeaves(db, front);
      var act := Update([last.0], last.1);
      assert BatchActs(items) == BatchActs(front) + [act];
      assert BatchActs(items)[..|BatchActs(items)| - 1] == BatchActs(front);
    }
  }

  lemma {:induction false} ChangedIsDemoted(items: seq<(Id, Change)>, k: Id)
    requires k in DemotedKeys(items)
    ensures LastChange(items, k) != Untouched
  {
    DemotedMore(items);
    if LastChange(items, k) == Untouched {
      ChangedIsDemoted(items[..|items| - 1], k);
    }
  }

  /** A batch that leaves no admin is always refused if it demotes at all, and a refusal is needless
      exactly when the last word about some role is that it is an admin. */
  lemma BatchIsRefusedNeedlesslyIff(db: Roles, items: seq<(Id, Change)>)
    requires GuardedAll(Enforce, Admins(db), BatchActs(items)).Err?
    ensures Replay(BatchActs(items), db).Some?
    ensures Admins(Replay(BatchActs(items), db).value) != {}
            <==> exists k :: k in db && LastChange(items, k) == Admin(true)
  {
    BatchIsRefusedIff(Admins(db), items);
    BatchLeaves(db, items);
    var after := Replay(BatchActs(items), db).value;
    if k :| k in Admins(after) {
      if LastChange(items, k) == Untouched {
        assert k in Admins(db);
        ChangedIsDemoted(items, k);
      }
    }
    if k :| k in db && LastChange(items, k) == Admin(true) {
      assert k in Admins(after);
    }
  }

  /** Demoting the only admin and promoting it again changes nothing and is refused. */
  lemma BatchMayBeRefusedNeedlessly(db: Roles, k: Id)
    requires Admins(db) == {k}
    ensures var acts := BatchActs([(k, Admin(false)), (k, Admin(true))]);
            GuardedAll(Enforce, Admins(db), acts) == Err(LastAdmin) && Replay(acts, db) == Some(db)
  {
    var items: seq<(Id, Change)> := [(k, Admin(false)), (k, Admin(true))];
    assert items[0].0 in DemotedKeys(items);
    BatchGuarded({k}, items);
    BatchLeaves(db, items);
    assert items[..1] == [(k, Admin(false))] && items[..1][..0] == [];
    assert k in Admins(db);
    assert LastChange(items, k) == Admin(true);
    var after := Replay(BatchActs(items), db).value;
    forall j | j in db ensures after[j] == db[j] {
      if j != k {
        assert LastChange(items[..1], j) == LastChange([], j) == Untouched;
        assert LastChange(items, j) == Untouched;
      }
    }
    assert after == db;
  }

  // ----- upserts -----

  /** The updates among some upserts, as the database answered. */
  function UpdatedItems(payloads: seq<Upsert>, found: seq<bool>): seq<(Id, Change)>
    requires |found| == |payloads|
  {
    if payloads == [] then []
    else
      var n := |payloads| - 1;
      UpdatedItems(payloads[..n], found[..n])
      + if found[n] && payloads[n].key.Some? then [(payloads[n].key.value, payloads[n].change)] else []
  }

  /** To the guard, upserts are the updates among them. */
  lemma {:induction false} UpsertsGuarded(mode: Mode, snapshot: set<Id>, payloads: seq<Upsert>, found: seq<bool>)
    requires |found| == |payloads|
    ensures GuardedAll(mode, snapshot, UpsertsActs(payloads, found))
            == GuardedAll(mode, snapshot, BatchActs(UpdatedItems(payloads, found)))
  {
    if payloads != [] {
      hide GuardedAll;
      var n := |payloads| - 1;
      var before := UpsertsActs(payloads[..n], found[..n]);
      var items := UpdatedItems(payloads[..n], found[..n]);
      UpsertsGuarded(mode, snapshot, payloads[..n], found[..n]);
      UpsertGuarded(mode, snapshot, before, payloads[n], found[n]);
      if found[n] && payloads[n].key.Some? {
        var item := (payloads[n].key.value, payloads[n].change);
        assert (items + [item])[..|items|] == items;
        GuardedMore(mode, snapshot, BatchActs(items), Update([item.0], item.1));
      } else {
        assert items + [] == items;
      }
    }
  }

  lemma UpsertGuarded(mode: Mode, snapshot: set<Id>, acts: seq<Act>, payload: Upsert, found: bool)
    ensures GuardedAll(mode, snapshot, acts + UpsertActs(payload, found)) ==
            if !found || payload.key.None? || GuardedAll(mode, snapshot, acts).Err? then GuardedAll(mode, snapshot, acts)
            else Guarded(mode, snapshot, GuardedAll(mode, snapshot, acts).value, Update([payload.key.value], payload.change))
  {
    hide GuardedAll;
    if payload.key.None? {
      GuardedHarmless(mode, snapshot, acts, Create(payload.generated, payload.change == Admin(true)));
    } else {
      var asked := acts + [Exists(payload.key.value, found)];
      GuardedHarmless(mode, snapshot, acts, Exists(payload.key.value, found));
      assert acts + UpsertActs(payload, found) == asked + [UpsertActs(payload, found)[1]];
      if found {
        GuardedMore(mode, snapshot, asked, Update([payload.key.value], payload.change));
      } else {
        GuardedHarmless(mode, snapshot, asked, Create(payload.key.value, payload.change == Admin(true)));
      }
    }
  }

  /** Upserts are judged as a batch of the updates among them: an admin created in the same call does
      not count. */
  lemma UpsertsAreRefusedIff(snapshot: set<Id>, payloads: seq<Upsert>, found: seq<bool>)
    requires |found| == |payloads|
    ensures var demoted := DemotedKeys(UpdatedItems(payloads, found));
            GuardedAll(Enforce, snapshot, UpsertsActs(payloads, found)).Err? <==> demoted != {} && snapshot <= demoted
  {
    UpsertsGuarded(Enforce, snapshot, payloads, found);
    BatchIsRefusedIff(snapshot, UpdatedItems(payloads, found));
  }

  /** The last thing some upserts say about the access of a role, created or updated. */
  function LastWord(payloads: seq<Upsert>, found: seq<bool>, k: Id): Change
    requires |found| == |payloads|
  {
    if payloads == [] then Untouched
    else
      var n := |payloads| - 1;
      var p := payloads[n];
      var before := LastWord(payloads[..n], found[..n], k);
      if found[n] && p.key.Some? then (if p.key.value == k && p.change != Untouched then p.change else before)
      else if k == (if p.key.Some? then p.key.value else p.generated) then Admin(p.change == Admin(true))
      else before
  }

  lemma {:induction false} ReplayAppend(a: seq<Act>, b: seq<Act>, db: Roles)
    ensures Replay(a + b, db) == if Replay(a, db).None? then None else Replay(b, Replay(a, db).value)
  {
    if b == [] {
      assert a + b == a;
    } else {
      var front := b[..|b| - 1];
      ReplayAppend(a, front, db);
      assert (a + b)[..|a + b| - 1] == a + front;
    }
  }

  lemma ReplayUpsert(payload: Upsert, found: bool, db: Roles)
    requires Replay(UpsertActs(payload, found), db).Some?
    ensures var id := if payload.key.Some? then payload.key.value else payload.generated;
            Replay(UpsertActs(payload, found), db).value ==
            if found && payload.key.Some? then Write(db, Update([id], payload.change))
            else db[id := payload.change == Admin(true)]
    ensures found && payload.key.Some? ==> payload.key.value in db
  {
    var acts := UpsertActs(payload, found);
    if payload.key.Some? {
      assert acts == [acts[0]] + [acts[1]];
      ReplayAppend([acts[0]], [acts[1]], db);
      ReplayOne(acts[0], db);
      ReplayOne(acts[1], db);
    } else {
      ReplayOne(acts[0], db);
    }
  }

  /** What is left of one role, when this was the last word about it. */
  predicate LeftAs(db: Roles, after: Roles, k: Id, word: Change) {
    && (k in db ==> k in after)
    && if word == Untouched then (k in after <==> k in db) && (k in db ==> after[k] == db[k])
       else k in after && after[k] == word.access
  }

  lemma {:induction false} UpsertsLeave(db: Roles, payloads: seq<Upsert>, found: seq<bool>, k: Id)
    requires |found| == |payloads| && Replay(UpsertsActs(payloads, found), db).Some?
    ensures LeftAs(db, Replay(UpsertsActs(payloads, found), db).value, k, LastWord(payloads, found, k))
  {
    hide Replay, UpsertActs;
    if payloads == [] {
      ReplayNone(db);
    } else {
      var n := |payloads| - 1;
      var acts := UpsertsActs(payloads[..n], found[..n]);
      ReplayAppend(acts, UpsertActs(payloads[n], found[n]), db);
      UpsertsLeave(db, payloads[..n], found[..n], k);
      ReplayUpsert(payloads[n], found[n], Replay(acts, db).value);
    }
  }

  lemma ReplayNone(db: Roles)
    ensures Replay([], db) == Some(db)
  {
  }

  lemma {:induction false} DemotedHasLastWord(payloads: seq<Upsert>, found: seq<bool>, k: Id)
    requires |found| == |payloads| && k in DemotedKeys(UpdatedItems(payloads, found))
    ensures LastWord(payloads, found, k) != Untouched
  {
    if payloads != [] {
      var n := |payloads| - 1;
      var items := UpdatedItems(payloads[..n], found[..n]);
      if found[n] && payloads[n].key.Some? {
        var item := (payloads[n].key.value, payloads[n].change);
        DemotedMore(items + [item]);
        assert (items + [item])[..|items|] == items;
      } else {
        assert items + [] == items;
      }
      if LastWord(payloads, found, k) == Untouched {
        DemotedHasLastWord(payloads[..n], found[..n], k);
      }
    }
  }

  /** A refusal of upserts is needless exactly when their last word about some role, created or updated,
      is that it is an admin. */
  lemma UpsertsAreRefusedNeedlesslyIff(db: Roles, payloads: seq<Upsert>, found: seq<bool>)
    requires |found| == |payloads| && Replay(UpsertsActs(payloads, found), db).Some?
    requires GuardedAll(Enforce, Admins(db), UpsertsActs(payloads, found)).Err?
    ensures Admins(Replay(UpsertsActs(payloads, found), db).value) != {}
            <==> exists k :: LastWord(payloads, found, k) == Admin(true)
  {
    UpsertsAreRefusedIff(Admins(db), payloads, found);
    hide GuardedAll, UpsertsActs, LastWord, Replay;
    var after := Replay(UpsertsActs(payloads, found), db).value;
    if k :| k in Admins(after) {
      UpsertsLeave(db, payloads, found, k);
      if LastWord(payloads, found, k) == Untouched {
        assert k in Admins(db);
        DemotedHasLastWord(payloads, found, k);
      }
    }
    if k :| LastWord(payloads, found, k) == Admin(true) {
      UpsertsLeave(db, payloads, found, k);
      assert k in Admins(after);
    }
  }

  /** Creating an admin and demoting the only one there was, in one call: refused, and an admin would be
      left. */
  lemma NewAdminDoesNotCount(db: Roles, k: Id, generated: Id)
    requires Admins(db) == {k} && generated !in db
    ensures var payloads := [Upsert(None, generated, Admin(true)), Upsert(Some(k), 0, Admin(false))];
            var acts := UpsertsActs(payloads, [false, true]);
            && GuardedAll(Enforce, Admins(db), acts).Err?
            && Replay(acts, db).Some? && Admins(Replay(acts, db).value) == {generated}
  {
    var first, second := Upsert(None, generated, Admin(true)), Upsert(Some(k), 0, Admin(false));
    var payloads, found := [first, second], [false, true];
    OneDemotion(first, second, k);
    UpsertsAreRefusedIff({k}, payloads, found);
    hide GuardedAll, DemotedKeys, UpdatedItems;
    UpsertsMore(payloads, 0, [], false);
    UpsertsMore(payloads, 1, [false], true);
    assert payloads[..0] == [] && payloads[..2] == payloads && [] + [false] == [false] && [false] + [true] == found;
    assert UpsertsActs(payloads, found) == UpsertActs(first, false) + UpsertActs(second, true);
    hide UpsertsActs;
    ReplayAppend(UpsertActs(first, false), UpsertActs(second, true), db);
    ReplayOne(Create(generated, true), db);
    Redemoted(db, k, generated);
  }

  lemma OneDemotion(first: Upsert, second: Upsert, k: Id)
    requires first.key.None? && second == Upsert(Some(k), 0, Admin(false))
    ensures DemotedKeys(UpdatedItems([first, second], [false, true])) == {k}
  {
    assert [first, second][..1] == [first] && [false, true][..1] == [false] && [first][..0] == [] && [false][..0] == [];
    assert UpdatedItems([first], [false]) == [];
    assert UpdatedItems([first, second], [false, true]) == [(k, Admin(false))];
    assert [(k, Admin(false))][0].0 in DemotedKeys([(k, Admin(false))]);
  }

  lemma Redemoted(db: Roles, k: Id, generated: Id)
    requires Admins(db) == {k} && generated !in db
    ensures var r := Replay(UpsertActs(Upsert(Some(k), 0, Admin(false)), true), db[generated := true]);
            r.Some? && Admins(r.value) == {generated}
  {
    var between := db[generated := true];
    var acts := UpsertActs(Upsert(Some(k), 0, Admin(false)), true);
    assert k in Admins(db);
    assert acts == [Exists(k, true)] + [Update([k], Admin(false))];
    ReplayAppend([Exists(k, true)], [Update([k], Admin(false))], between);
    ReplayOne(Exists(k, true), between);
    ReplayOne(Update([k], Admin(false)), between);
    hide Replay;
    var after := Write(between, Update([k], Admin(false)));
    forall j ensures j in Admins(after) <==> j == generated {
      if j in db && db[j] {
        assert j in Admins(db);
      }
    }
  }

  /** Without serializability the check is worth nothing: two transactions that each saw both
      admins demote one each. */
  lemma WriteSkewLosesTheLastAdmin()
    ensures var db: Roles := map[1 := true, 2 := true];
            var a := Txn(Enforce, [UpdateMany([1], Admin(false))], [Trace({1, 2}, [Update([1], Admin(false))])]);
            var b := Txn(Enforce, [UpdateMany([2], Admin(false))], [Trace({1, 2}, [Update([2], Admin(false))])]);
            && Genuine(a) && Genuine(b)
            && Admins(Write(Write(db, a.traces[0].acts[0]), b.traces[0].acts[0])) == {}
            && ReplayAll([a, b], db) == None && ReplayAll([b, a], db) == None
  {
    var db: Roles := map[1 := true, 2 := true];
    var down1, down2 := Update([1], Admin(false)), Update([2], Admin(false));
    var a := Txn(Enforce, [UpdateMany([1], Admin(false))], [Trace({1, 2}, [down1])]);
    var b := Txn(Enforce, [UpdateMany([2], Admin(false))], [Trace({1, 2}, [down2])]);
    var afterA, afterB := Write(db, down1), Write(db, down2);
    assert 1 !in Admins(afterA) && 2 !in Admins(afterB) && 1 in {1, 2} && 2 in {1, 2};
    SecondDisagrees(db, a, b, down1, down2, {1, 2});
    SecondDisagrees(db, b, a, down2, down1, {1, 2});
    OneGuarded(down1, {1, 2});
    OneGuarded(down2, {1, 2});
  }

  lemma OneGuarded(act: Act, seen: set<Id>)
    requires act.Update? && act.change == Admin(false) && !(seen <= set k | k in act.keys)
    ensures GuardedAll(Enforce, seen, [act]).Ok?
  {
    assert [act][..0] == [];
    assert GuardedAll(Enforce, seen, []) == Ok({});
    assert Hit(act.keys, seen) <= set k | k in act.keys;
  }

  /** What the first did is not what the second was told. */
  lemma SecondDisagrees(db: Roles, a: Txn, b: Txn, act: Act, act': Act, seen: set<Id>)
    requires a.mode == Enforce && a.traces == [Trace(seen, [act])] && act.Update?
    requires b.mode == Enforce && b.traces == [Trace(seen, [act'])] && act'.Update?
    requires Admins(Write(db, act)) != seen
    ensures ReplayAll([a, b], db) == None
  {
    OneStep(db, a, act, seen);
    OneStep(Write(db, act), b, act', seen);
    assert [a, b][..1] == [a] && [a][..0] == [];
    assert ReplayAll([a], db) == ReplayTraces(a.mode, a.traces, db);
  }

  lemma OneStep(db: Roles, t: Txn, act: Act, seen: set<Id>)
    requires t.mode == Enforce && t.traces == [Trace(seen, [act])] && act.Update?
    ensures ReplayTraces(t.mode, t.traces, db) == if seen == Admins(db) then Some(Write(db, act)) else None
  {
    assert t.traces[..0] == [];
    ReplayOne(act, db);
  }
}
