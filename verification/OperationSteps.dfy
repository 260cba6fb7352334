/**
 What an operation does inside its transaction, by recursion over its steps and place by place.
 */
module OperationSteps {
  import opened Wrappers

  datatype Event = Event(name: string, number: nat)

  /** The mutation options that matter here; `collects` says whether the caller passed a
      `bypassEmitAction` of its own. */
  datatype Options = Options(emitEvents: bool, autoPurgeCache: bool, autoPurgeSystemCache: bool, collects: bool)

  /** What an operation does inside its transaction; the failure of a nested one may be caught by
      its caller. */
  datatype Step =
    | Raise(event: Event)
    | Nested(opts: Options, clearsSystemCache: bool, steps: seq<Step>, caught: bool)
    | Throw

  // ----- the specification -----

  predicate Throws(steps: seq<Step>) {
    steps != [] &&
    match steps[0]
    case Raise(_) => Throws(steps[1..])
    case Nested(_, _, inner, caught) => (Throws(inner) && !caught) || Throws(steps[1..])
    case Throw => true
  }

  /** The events raised before anything throws, in order; each operation decides for its own.  What
      an operation raised before its failure was caught stays queued. */
  function Raised(emits: bool, steps: seq<Step>): seq<Event>
    decreases steps
  {
    if steps == [] then []
    else
      match steps[0]
      case Raise(e) => (if emits then [e] else []) + Raised(emits, steps[1..])
      case Nested(opts, _, inner, caught) =>
        Raised(opts.emitEvents, inner) + if Throws(inner) && !caught then [] else Raised(emits, steps[1..])
      case Throw => []
  }

  /** Whether an operation that was reached asks for the system cache to be cleared. */
  predicate ClearsSystem(steps: seq<Step>) {
    steps != [] &&
    match steps[0]
    case Raise(_) => ClearsSystem(steps[1..])
    case Nested(_, clears, inner, caught) =>
      clears || ClearsSystem(inner) || ((caught || !Throws(inner)) && ClearsSystem(steps[1..]))
    case Throw => false
  }

  // ----- the same, place by place -----

  /** The way to a step: its position at each depth. */
  type Path = seq<nat>

  function StepAt(steps: seq<Step>, path: Path): Option<Step> {
    if path == [] || path[0] >= |steps| then None
    else if |path| == 1 then Some(steps[path[0]])
    else if steps[path[0]].Nested? then StepAt(steps[path[0]].steps, path[1..])
    else None
  }

  /** Nobody on the way catches the failure of what is below. */
  predicate Uncaught(steps: seq<Step>, path: Path)
    requires StepAt(steps, path).Some?
  {
    |path| > 1 ==> !steps[path[0]].caught && Uncaught(steps[path[0]].steps, path[1..])
  }

  ghost predicate ThrowsAt(steps: seq<Step>, path: Path) {
    StepAt(steps, path) == Some(Throw) && Uncaught(steps, path)
  }

  /** Somewhere something throws and nobody catches it. */
  ghost predicate Fails(steps: seq<Step>) {
    exists path: Path :: ThrowsAt(steps, path)
  }

  /** A step ends the operation it belongs to. */
  ghost predicate Stops(step: Step) {
    step.Throw? || (step.Nested? && !step.caught && Fails(step.steps))
  }

  /** A step is there and nothing before it, at any depth on the way, has ended its operation. */
  ghost predicate Reached(steps: seq<Step>, path: Path)
    decreases |path|
  {
    && StepAt(steps, path).Some?
    && (forall k :: 0 <= k < path[0] ==> !Stops(steps[k]))
    && (|path| > 1 ==> Reached(steps[path[0]].steps, path[1..]))
  }

  /** An operation that was reached asks for the system cache to be cleared. */
  ghost predicate AsksAt(steps: seq<Step>, path: Path) {
    Reached(steps, path) && StepAt(steps, path).value.Nested? && StepAt(steps, path).value.clearsSystemCache
  }

  ghost predicate SystemCacheAsked(steps: seq<Step>) {
    exists path: Path :: AsksAt(steps, path)
  }

  /** Whether the operation a step belongs to emits. */
  predicate EmitsAt(emits: bool, steps: seq<Step>, path: Path)
    requires StepAt(steps, path).Some?
    decreases |path|
  {
    if |path| == 1 then emits else EmitsAt(steps[path[0]].opts.emitEvents, steps[path[0]].steps, path[1..])
  }

  /** An event is raised there by an operation that emits. */
  ghost predicate RaisesAt(emits: bool, steps: seq<Step>, path: Path) {
    Reached(steps, path) && StepAt(steps, path).value.Raise? && EmitsAt(emits, steps, path)
  }

  predicate Before(p: Path, q: Path) {
    p != [] && q != [] && (p[0] < q[0] || (p[0] == q[0] && Before(p[1..], q[1..])))
  }

  lemma {:induction false} ThrowsIff(steps: seq<Step>)
    ensures Throws(steps) <==> Fails(steps)
    ensures Throws(steps) <==> exists k :: 0 <= k < |steps| && Stops(steps[k])
    decreases steps
  {
    if steps != [] {
      var rest := steps[1..];
      ThrowsIff(rest);
      if steps[0].Nested? {
        ThrowsIff(steps[0].steps);
      }
      FailsFirst(steps);
      if k :| 0 <= k < |steps| && Stops(steps[k]) {
        assert k > 0 ==> Stops(rest[k - 1]);
      }
      if k :| 0 <= k < |rest| && Stops(rest[k]) {
        assert Stops(steps[k + 1]);
      }
    } else {
      assert forall path: Path :: !ThrowsAt(steps, path);
    }
  }

  lemma FailsFirst(steps: seq<Step>)
    requires steps != []
    ensures Fails(steps) <==> Stops(steps[0]) || Fails(steps[1..])
  {
    var rest := steps[1..];
    if path: Path :| ThrowsAt(steps, path) {
      if path[0] > 0 {
        assert ThrowsAt(rest, [path[0] - 1] + path[1..]) by { ShiftedAt(steps, path); }
      } else if |path| > 1 {
        assert ThrowsAt(steps[0].steps, path[1..]);
      }
    }
    if path: Path :| ThrowsAt(rest, path) {
      ShiftedAt(steps, [path[0] + 1] + path[1..]);
      assert [path[0]] + path[1..] == path;
      assert ThrowsAt(steps, [path[0] + 1] + path[1..]);
    }
    if steps[0].Throw? {
      assert ThrowsAt(steps, [0]);
    } else if Stops(steps[0]) {
      var path: Path :| ThrowsAt(steps[0].steps, path);
      assert ([0] + path)[1..] == path;
      assert ThrowsAt(steps, [0] + path);
    }
  }

  /** The same place, counted from the second step on. */
  lemma ShiftedAt(steps: seq<Step>, path: Path)
    requires steps != [] && path != [] && path[0] > 0
    ensures var shifted := [path[0] - 1] + path[1..];
            && StepAt(steps[1..], shifted) == StepAt(steps, path)
            && (StepAt(steps, path).Some? ==> (Uncaught(steps[1..], shifted) <==> Uncaught(steps, path)))
            && (StepAt(steps, path).Some? ==> forall emits :: EmitsAt(emits, steps[1..], shifted) <==> EmitsAt(emits, steps, path))
            && (!Stops(steps[0]) ==> (Reached(steps[1..], shifted) <==> Reached(steps, path)))
  {
    var rest, shifted := steps[1..], [path[0] - 1] + path[1..];
    assert shifted[1..] == path[1..];
    if StepAt(steps, path).Some? {
      assert rest[shifted[0]] == steps[path[0]];
      if !Stops(steps[0]) {
        if Reached(rest, shifted) {
          forall k | 0 <= k < path[0] ensures !Stops(steps[k]) {
            assert k > 0 ==> steps[k] == rest[k - 1];
          }
        }
        if Reached(steps, path) {
          forall k | 0 <= k < shifted[0] ensures !Stops(rest[k]) {
            assert rest[k] == steps[k + 1];
          }
        }
      }
    }
  }

  lemma {:induction false} ClearsSystemIff(steps: seq<Step>)
    ensures ClearsSystem(steps) <==> SystemCacheAsked(steps)
    decreases steps
  {
    if steps == [] {
      assert forall path: Path :: !AsksAt(steps, path);
    } else {
      var rest := steps[1..];
      ClearsSystemIff(rest);
      if steps[0].Nested? {
        ClearsSystemIff(steps[0].steps);
        ThrowsIff(steps[0].steps);
      }
      AskedFirst(steps);
    }
  }

  lemma AskedFirst(steps: seq<Step>)
    requires steps != []
    ensures SystemCacheAsked(steps) <==>
              || (steps[0].Nested? && (steps[0].clearsSystemCache || SystemCacheAsked(steps[0].steps)))
              || (!Stops(steps[0]) && SystemCacheAsked(steps[1..]))
  {
    if path: Path :| AsksAt(steps, path) {
      if path[0] > 0 {
        ShiftedAt(steps, path);
        assert AsksAt(steps[1..], [path[0] - 1] + path[1..]);
      } else if |path| > 1 {
        assert AsksAt(steps[0].steps, path[1..]);
      }
    }
    if steps[0].Nested? {
      if steps[0].clearsSystemCache {
        assert AsksAt(steps, [0]);
      }
      if path: Path :| AsksAt(steps[0].steps, path) {
        assert ([0] + path)[1..] == path;
        assert AsksAt(steps, [0] + path);
      }
    }
    if !Stops(steps[0]) {
      if path: Path :| AsksAt(steps[1..], path) {
        ShiftedAt(steps, [path[0] + 1] + path[1..]);
        assert [path[0]] + path[1..] == path;
        assert AsksAt(steps, [path[0] + 1] + path[1..]);
      }
    }
  }

  /** The places of the events, in order: each event is the one raised at its place, and every place at
      which an operation that emits raises one is among them, once. */
  ghost predicate RaisedAre(emits: bool, steps: seq<Step>, events: seq<Event>, paths: seq<Path>) {
    && |paths| == |events|
    && (forall i :: 0 <= i < |paths| ==> RaisesAt(emits, steps, paths[i]) && StepAt(steps, paths[i]) == Some(Raise(events[i])))
    && (forall i, j :: 0 <= i < j < |paths| ==> Before(paths[i], paths[j]))
    && (forall path: Path :: RaisesAt(emits, steps, path) ==> path in paths)
  }

  // ----- the events, place by place -----

  /** The same of the first step alone. */
  ghost predicate FirstAre(emits: bool, steps: seq<Step>, events: seq<Event>, paths: seq<Path>) {
    && |paths| == |events|
    && (forall i :: 0 <= i < |paths| ==>
          && RaisesAt(emits, steps, paths[i]) && paths[i][0] == 0
          && StepAt(steps, paths[i]) == Some(Raise(events[i])))
    && (forall i, j :: 0 <= i < j < |paths| ==> Before(paths[i], paths[j]))
    && (forall path: Path :: RaisesAt(emits, steps, path) && path[0] == 0 ==> path in paths)
  }

  function Later(paths: seq<Path>): (r: seq<Path>)
    requires forall i :: 0 <= i < |paths| ==> paths[i] != []
    ensures |r| == |paths| && forall i :: 0 <= i < |r| ==> r[i] == [paths[i][0] + 1] + paths[i][1..]
  {
    seq(|paths|, i requires 0 <= i < |paths| => [paths[i][0] + 1] + paths[i][1..])
  }

  function Under(paths: seq<Path>): (r: seq<Path>)
    ensures |r| == |paths| && forall i :: 0 <= i < |r| ==> r[i] == [0] + paths[i]
  {
    seq(|paths|, i requires 0 <= i < |paths| => [0] + paths[i])
  }

  lemma LaterAt(emits: bool, steps: seq<Step>, path: Path)
    requires steps != [] && path != [] && !Stops(steps[0])
    ensures var later := [path[0] + 1] + path[1..];
            && StepAt(steps, later) == StepAt(steps[1..], path)
            && (RaisesAt(emits, steps, later) <==> RaisesAt(emits, steps[1..], path))
  {
    hide StepAt, EmitsAt, Uncaught, Stops;
    var later := [path[0] + 1] + path[1..];
    ShiftedAt(steps, later);
    assert [later[0] - 1] + later[1..] == path;
  }

  lemma LaterInOrder(paths: seq<Path>)
    requires forall i :: 0 <= i < |paths| ==> paths[i] != []
    requires forall i, j :: 0 <= i < j < |paths| ==> Before(paths[i], paths[j])
    ensures forall i, j :: 0 <= i < j < |paths| ==> Before(Later(paths)[i], Later(paths)[j])
  {
    forall i, j | 0 <= i < j < |paths| ensures Before(Later(paths)[i], Later(paths)[j]) {
      var p, q := Later(paths)[i], Later(paths)[j];
      assert Before(paths[i], paths[j]);
      assert p[1..] == paths[i][1..] && q[1..] == paths[j][1..];
    }
  }

  ghost predicate RestAre(emits: bool, steps: seq<Step>, rest: seq<Event>, q: seq<Path>)
    requires steps != []
  {
    if Stops(steps[0]) then rest == [] && q == [] else RaisedAre(emits, steps[1..], rest, q)
  }

  lemma RestPaths(emits: bool, steps: seq<Step>, rest: seq<Event>, q: seq<Path>)
    requires steps != [] && RestAre(emits, steps, rest, q)
    ensures |q| == |rest| && forall i :: 0 <= i < |q| ==> q[i] != []
    ensures forall i, j :: 0 <= i < j < |q| ==> Before(q[i], q[j])
  {
    assert forall i :: 0 <= i < |q| ==> RaisesAt(emits, steps[1..], q[i]);
  }

  lemma RestAt(emits: bool, steps: seq<Step>, rest: seq<Event>, q: seq<Path>, i: nat)
    requires steps != [] && RestAre(emits, steps, rest, q) && i < |q| == |rest| && q[i] != []
    ensures var later := [q[i][0] + 1] + q[i][1..];
            RaisesAt(emits, steps, later) && StepAt(steps, later) == Some(Raise(rest[i]))
  {
    LaterAt(emits, steps, q[i]);
  }

  lemma RestIsAll(emits: bool, steps: seq<Step>, rest: seq<Event>, q: seq<Path>, path: Path)
    requires steps != [] && RestAre(emits, steps, rest, q) && RaisesAt(emits, steps, path) && path[0] > 0
    ensures exists k :: 0 <= k < |q| && q[k] == [path[0] - 1] + path[1..]
  {
    var earlier := [path[0] - 1] + path[1..];
    NothingStopped(emits, steps, path);
    LaterAt(emits, steps, earlier);
    assert [earlier[0] + 1] + earlier[1..] == path;
    assert earlier in q;
  }

  /** What the first step raises and what the steps after it raise. */
  lemma Joined(emits: bool, steps: seq<Step>, first: seq<Event>, p: seq<Path>, rest: seq<Event>, q: seq<Path>)
    requires steps != [] && FirstAre(emits, steps, first, p) && RestAre(emits, steps, rest, q)
    ensures forall i :: 0 <= i < |q| ==> q[i] != []
    ensures RaisedAre(emits, steps, first + rest, p + Later(q))
  {
    hide RaisesAt, RestAre, StepAt, Before;
    RestPaths(emits, steps, rest, q);
    var all, events := p + Later(q), first + rest;
    LaterInOrder(q);
    forall i | 0 <= i < |all|
      ensures RaisesAt(emits, steps, all[i]) && StepAt(steps, all[i]) == Some(Raise(events[i]))
    {
      if i >= |p| {
        RestAt(emits, steps, rest, q, i - |p|);
      }
    }
    forall i, j | 0 <= i < j < |all| ensures Before(all[i], all[j]) {
      if i < |p| <= j {
        RaisesSomewhere(emits, steps, all[i]);
        FirstIsBefore(all[i], all[j]);
      }
    }
    forall path: Path | RaisesAt(emits, steps, path) ensures path in all {
      assert path != [] by { RaisesSomewhere(emits, steps, path); }
      if path[0] > 0 {
        RestIsAll(emits, steps, rest, q, path);
        var k :| 0 <= k < |q| && q[k] == [path[0] - 1] + path[1..];
        assert all[|p| + k] == [q[k][0] + 1] + q[k][1..] == path;
      }
    }
  }

  lemma FirstIsBefore(p: Path, q: Path)
    requires p != [] && q != [] && p[0] == 0 < q[0]
    ensures Before(p, q)
  {
  }

  lemma RaisesSomewhere(emits: bool, steps: seq<Step>, path: Path)
    requires RaisesAt(emits, steps, path)
    ensures path != []
  {
  }

  lemma NothingStopped(emits: bool, steps: seq<Step>, path: Path)
    requires RaisesAt(emits, steps, path) && path[0] > 0
    ensures !Stops(steps[0])
  {
  }

  lemma UnderAre(emits: bool, steps: seq<Step>, events: seq<Event>, paths: seq<Path>)
    requires steps != [] && steps[0].Nested? && RaisedAre(steps[0].opts.emitEvents, steps[0].steps, events, paths)
    ensures FirstAre(emits, steps, events, Under(paths))
  {
    var under := Under(paths);
    forall i | 0 <= i < |under|
      ensures RaisesAt(emits, steps, under[i]) && StepAt(steps, under[i]) == Some(Raise(events[i]))
    {
      assert under[i][1..] == paths[i];
      assert RaisesAt(steps[0].opts.emitEvents, steps[0].steps, paths[i]);
    }
    forall i, j | 0 <= i < j < |under| ensures Before(under[i], under[j]) {
      assert under[i][1..] == paths[i] && under[j][1..] == paths[j];
    }
    forall path: Path | RaisesAt(emits, steps, path) && path[0] == 0 ensures path in under {
      assert RaisesAt(steps[0].opts.emitEvents, steps[0].steps, path[1..]);
      var k :| 0 <= k < |paths| && paths[k] == path[1..];
      assert under[k] == path;
    }
  }

  lemma OneIsRaised(emits: bool, steps: seq<Step>)
    requires steps != [] && steps[0].Raise?
    ensures FirstAre(emits, steps, if emits then [steps[0].event] else [], if emits then [[0]] else [])
  {
    forall path: Path | RaisesAt(emits, steps, path) && path[0] == 0 ensures path == [0] { }
    if emits {
      assert RaisesAt(emits, steps, [0]);
    }
  }

  lemma NoneIsRaised(emits: bool, steps: seq<Step>)
    requires steps != [] && steps[0].Throw?
    ensures FirstAre(emits, steps, [], [])
  {
  }

  /** The events that an operation leaves to be delivered are those raised at the places that were
      reached, by the operations that emit, in the order of the places and once each. */
  lemma {:induction false} RaisedInOrder(emits: bool, steps: seq<Step>) returns (paths: seq<Path>)
    ensures RaisedAre(emits, steps, Raised(emits, steps), paths)
    decreases steps
  {
    if steps == [] {
      paths := [];
    } else {
      hide RaisedAre, FirstAre;
      var stops := steps[0].Throw? || (steps[0].Nested? && Throws(steps[0].steps) && !steps[0].caught);
      if steps[0].Nested? {
        ThrowsIff(steps[0].steps);
      }
      assert stops <==> Stops(steps[0]);
      var q: seq<Path> := [];
      if !stops {
        q := RaisedInOrder(emits, steps[1..]);
      }
      var rest := if stops then [] else Raised(emits, steps[1..]);
      match steps[0] {
        case Raise(e) =>
          OneIsRaised(emits, steps);
          Joined(emits, steps, if emits then [e] else [], if emits then [[0]] else [], rest, q);
          paths := (if emits then [[0]] else []) + Later(q);
        case Nested(opts, _, inner, _) =>
          var p := RaisedInOrder(opts.emitEvents, inner);
          UnderAre(emits, steps, Raised(opts.emitEvents, inner), p);
          Joined(emits, steps, Raised(opts.emitEvents, inner), Under(p), rest, q);
          paths := Under(p) + Later(q);
        case Throw =>
          NoneIsRaised(emits, steps);
          Joined(emits, steps, [], [], rest, q);
          paths := [];
      }
    }
  }
}
