/**
 Effects of role operations wait in a lifecycle context and are let out once, after the commit, by who opened it.
 */
module BoundTransaction {
  import opened OperationSteps

  datatype Effect =
    | Committed(trx: nat)
    | RolledBack(trx: nat)
    | SystemCacheCleared(responsesToo: bool)
    | CacheCleared
    | Emitted(event: Event)
    | Collected(event: Event)

  /** The connection a service works on. */
  datatype Knex = Pool | Trx(id: nat)

  class LifecycleContext {
    var events: seq<Event>
    var responseCacheDirty: bool
    var systemCacheDirty: bool

    constructor ()
      ensures events == [] && !responseCacheDirty && !systemCacheDirty
    {
      events := [];
      responseCacheDirty := false;
      systemCacheDirty := false;
    }
  }

  // ----- the specification -----

  function Delivery(opts: Options, events: seq<Event>): (r: seq<Effect>)
    ensures |r| == |events|
    ensures forall i :: 0 <= i < |r| ==> r[i] == if opts.collects then Collected(events[i]) else Emitted(events[i])
  {
    if events == [] then []
    else Delivery(opts, events[..|events| - 1])
         + [if opts.collects then Collected(events[|events| - 1]) else Emitted(events[|events| - 1])]
  }

  /** The cache clears and deliveries of a flush, by the options of the operation that flushes. */
  function Flushed(opts: Options, hasCache: bool, systemDirty: bool, events: seq<Event>): seq<Effect> {
    Clears(opts, hasCache, systemDirty) + Deliveries(opts, events)
  }

  function Clears(opts: Options, hasCache: bool, systemDirty: bool): (r: seq<Effect>)
    ensures forall i :: 0 <= i < |r| ==> r[i].SystemCacheCleared? || r[i].CacheCleared?
  {
    (if systemDirty && opts.autoPurgeSystemCache then [SystemCacheCleared(opts.autoPurgeCache)] else [])
    + (if hasCache && opts.autoPurgeCache then [CacheCleared] else [])
  }

  function Deliveries(opts: Options, events: seq<Event>): (r: seq<Effect>)
    ensures forall i :: 0 <= i < |r| ==> r[i].Emitted? || r[i].Collected?
  {
    if opts.emitEvents then Delivery(opts, events) else []
  }

  // ----- what is let out -----

  /** The response cache is cleared once if there is one and the operation purges it, the system cache once
      if it was asked for and the operation purges it, and that first. */
  ghost predicate ClearsSeen(seen: seq<Effect>, opts: Options, hasCache: bool, asked: bool) {
    && multiset(seen)[CacheCleared] == (if hasCache && opts.autoPurgeCache then 1 else 0)
    && (forall b :: multiset(seen)[SystemCacheCleared(b)]
                    == if asked && opts.autoPurgeSystemCache && b == opts.autoPurgeCache then 1 else 0)
    && (forall i, j :: 0 <= i < |seen| && 0 <= j < |seen| && seen[i].SystemCacheCleared? && seen[j].CacheCleared? ==> i < j)
  }

  predicate IsDelivery(x: Effect) {
    x.Emitted? || x.Collected?
  }

  /** Nothing but these deliveries, in order, stands at the end, and none before. */
  predicate DeliveredLast(seen: seq<Effect>, opts: Options, events: seq<Event>) {
    && |events| <= |seen|
    && (forall i :: 0 <= i < |events| ==>
          seen[|seen| - |events| + i] == if opts.collects then Collected(events[i]) else Emitted(events[i]))
    && (forall i :: 0 <= i < |seen| - |events| ==> !IsDelivery(seen[i]))
  }

  /** After the commit: the clears that were asked for, and, unless the operation is silent, the events
      raised at the places that were reached. */
  ghost predicate LetOut(seen: seq<Effect>, trx: nat, opts: Options, hasCache: bool, asked: bool, steps: seq<Step>) {
    && seen != [] && seen[0] == Committed(trx)
    && (forall i :: 0 < i < |seen| ==> seen[i].SystemCacheCleared? || seen[i].CacheCleared? || IsDelivery(seen[i]))
    && ClearsSeen(seen, opts, hasCache, asked)
    && exists paths, events :: RaisedAre(opts.emitEvents, steps, events, paths)
                               && DeliveredLast(seen, opts, if opts.emitEvents then events else [])
  }

  lemma ClearsAreSeen(opts: Options, hasCache: bool, dirty: bool)
    ensures ClearsSeen(Clears(opts, hasCache, dirty), opts, hasCache, dirty)
  {
    var clears := Clears(opts, hasCache, dirty);
    if dirty && opts.autoPurgeSystemCache {
      if hasCache && opts.autoPurgeCache {
        assert clears == [SystemCacheCleared(opts.autoPurgeCache), CacheCleared];
      } else {
        assert clears == [SystemCacheCleared(opts.autoPurgeCache)];
      }
    } else if hasCache && opts.autoPurgeCache {
      assert clears == [CacheCleared];
    } else {
      assert clears == [];
    }
  }

  lemma NotAmong(effects: seq<Effect>, x: Effect)
    requires forall i :: 0 <= i < |effects| ==> effects[i] != x
    ensures multiset(effects)[x] == 0
  {
    assert x !in effects;
  }

  /** Deliveries behind the clears change nothing about them. */
  lemma DeliveriesBehind(clears: seq<Effect>, deliveries: seq<Effect>, opts: Options, hasCache: bool, asked: bool)
    requires ClearsSeen(clears, opts, hasCache, asked)
    requires forall i :: 0 <= i < |deliveries| ==> IsDelivery(deliveries[i])
    ensures ClearsSeen(clears + deliveries, opts, hasCache, asked)
  {
    var seen := clears + deliveries;
    assert multiset(seen) == multiset(clears) + multiset(deliveries);
    NotAmong(deliveries, CacheCleared);
    forall b ensures multiset(deliveries)[SystemCacheCleared(b)] == 0 {
      NotAmong(deliveries, SystemCacheCleared(b));
    }
    forall i, j | 0 <= i < |seen| && 0 <= j < |seen| && seen[i].SystemCacheCleared? && seen[j].CacheCleared? ensures i < j {
      assert i < |clears| && j < |clears|;
      assert clears[i] == seen[i] && clears[j] == seen[j];
    }
  }

  lemma FlushIsSeen(opts: Options, hasCache: bool, dirty: bool, events: seq<Event>)
    ensures ClearsSeen(Flushed(opts, hasCache, dirty, events), opts, hasCache, dirty)
    ensures DeliveredLast(Flushed(opts, hasCache, dirty, events), opts, if opts.emitEvents then events else [])
  {
    var clears, deliveries := Clears(opts, hasCache, dirty), Deliveries(opts, events);
    assert forall i :: 0 <= i < |clears| ==> !IsDelivery(clears[i]);
    ClearsAreSeen(opts, hasCache, dirty);
    hide ClearsSeen, Clears, DeliveredLast, Delivery, IsDelivery;
    assert forall i :: 0 <= i < |deliveries| ==> IsDelivery(deliveries[i]) by { OnlyDeliveries(opts, events); }
    DeliveriesBehind(clears, deliveries, opts, hasCache, dirty);
    DeliveriesAreLast(clears, opts, if opts.emitEvents then events else []);
    assert opts.emitEvents || deliveries == Delivery(opts, []) by { NoDelivery(opts); }
  }

  lemma OnlyDeliveries(opts: Options, events: seq<Event>)
    ensures forall i :: 0 <= i < |Deliveries(opts, events)| ==> IsDelivery(Deliveries(opts, events)[i])
  {
    hide Deliveries;
  }

  lemma NoDelivery(opts: Options)
    ensures Delivery(opts, []) == []
  {
  }

  lemma DeliveriesAreLast(clears: seq<Effect>, opts: Options, events: seq<Event>)
    requires forall i :: 0 <= i < |clears| ==> !IsDelivery(clears[i])
    ensures DeliveredLast(clears + Delivery(opts, events), opts, events)
  {
    hide Delivery;
  }

  lemma CommitIsSeen(trx: nat, opts: Options, hasCache: bool, asked: bool, flushed: seq<Effect>, events: seq<Event>)
    requires ClearsSeen(flushed, opts, hasCache, asked) && DeliveredLast(flushed, opts, events)
    ensures ClearsSeen([Committed(trx)] + flushed, opts, hasCache, asked)
    ensures DeliveredLast([Committed(trx)] + flushed, opts, events)
  {
    var seen := [Committed(trx)] + flushed;
    forall i | 0 <= i < |seen| - |events| ensures !IsDelivery(seen[i]) {
      assert i > 0 ==> seen[i] == flushed[i - 1];
    }
    forall i, j | 0 <= i < |seen| && 0 <= j < |seen| && seen[i].SystemCacheCleared? && seen[j].CacheCleared? ensures i < j {
      assert seen[i] == flushed[i - 1] && seen[j] == flushed[j - 1];
    }
  }

  /** What an outermost operation lets out after its commit. */
  lemma CommittedIsLetOut(trx: nat, opts: Options, hasCache: bool, clears: bool, steps: seq<Step>)
    ensures LetOut([Committed(trx)] + Flushed(opts, hasCache, clears || ClearsSystem(steps), Raised(opts.emitEvents, steps)),
                   trx, opts, hasCache, clears || SystemCacheAsked(steps), steps)
  {
    var events := Raised(opts.emitEvents, steps);
    var flushed := Flushed(opts, hasCache, clears || ClearsSystem(steps), events);
    ClearsSystemIff(steps);
    FlushIsSeen(opts, hasCache, clears || ClearsSystem(steps), events);
    FlushedOnly(opts, hasCache, clears || ClearsSystem(steps), events);
    var paths := RaisedInOrder(opts.emitEvents, steps);
    hide Flushed, ClearsSeen, DeliveredLast, RaisedAre, Raised, ClearsSystem;
    CommitIsSeen(trx, opts, hasCache, clears || ClearsSystem(steps), flushed, if opts.emitEvents then events else []);
  }

  lemma FlushedOnly(opts: Options, hasCache: bool, dirty: bool, events: seq<Event>)
    ensures var flushed := Flushed(opts, hasCache, dirty, events);
            forall i :: 0 <= i < |flushed| ==>
              flushed[i].SystemCacheCleared? || flushed[i].CacheCleared? || IsDelivery(flushed[i])
  {
    hide Clears, Deliveries;
  }

  // ----- the services -----

  /** The registries of bound transactions, and everything the outside world gets to see. */
  class Services {
    var bound: set<nat>
    var contexts: map<nat, LifecycleContext>
    var nextTrx: nat
    var effects: seq<Effect>
    const hasCache: bool

    ghost predicate Valid()
      reads this
    {
      bound == contexts.Keys && forall t :: t in bound ==> t < nextTrx
    }

    constructor (hasCache: bool)
      ensures Valid() && bound == {} && effects == [] && this.hasCache == hasCache
    {
      bound := {};
      contexts := map[];
      nextTrx := 0;
      effects := [];
      this.hasCache := hasCache;
    }

    method Emit(opts: Options, event: Event)
      modifies this`effects
      ensures effects == old(effects) + [if opts.collects then Collected(event) else Emitted(event)]
    {
      if opts.collects {
        effects := effects + [Collected(event)];
      } else {
        effects := effects + [Emitted(event)];
      }
    }

    method DeferInto(context: LifecycleContext, clearSystemCacheOnFlush: bool)
      modifies context
      ensures context.events == old(context.events) && context.responseCacheDirty
      ensures context.systemCacheDirty == (old(context.systemCacheDirty) || clearSystemCacheOnFlush)
    {
      context.responseCacheDirty := true;
      if clearSystemCacheOnFlush {
        context.systemCacheDirty := true;
      }
    }

    /** The body of an operation whose effects are deferred into a context. */
    method RunDeferred(knex: Knex, context: LifecycleContext, emits: bool, steps: seq<Step>) returns (threw: bool)
      requires Valid() && knex.Trx? && knex.id in contexts && contexts[knex.id] == context
      modifies context
      ensures threw == Throws(steps)
      ensures context.events == old(context.events) + Raised(emits, steps)
      ensures context.systemCacheDirty == (old(context.systemCacheDirty) || ClearsSystem(steps))
      ensures old(context.responseCacheDirty) ==> context.responseCacheDirty
      decreases steps, 0
    {
      if steps == [] {
        return false;
      }
      match steps[0] {
        case Throw =>
          return true;
        case Raise(event) =>
          if emits {
            context.events := context.events + [event];
          }
        case Nested(opts, clears, inner, caught) =>
          threw := Join(knex, opts, clears, inner);
          if threw && !caught {
            return;
          }
      }
      threw := RunDeferred(knex, context, emits, steps[1..]);
    }

    /** `withBoundContext` inside a bound transaction: queue into its context. */
    method Join(knex: Knex, opts: Options, clearSystemCacheOnFlush: bool, steps: seq<Step>) returns (threw: bool)
      requires Valid() && knex.Trx? && knex.id in bound
      modifies contexts[knex.id]
      ensures var context := contexts[knex.id];
              && threw == Throws(steps)
              && context.events == old(context.events) + Raised(opts.emitEvents, steps)
              && context.systemCacheDirty
                 == (old(context.systemCacheDirty) || clearSystemCacheOnFlush || ClearsSystem(steps))
              && context.responseCacheDirty
      decreases steps, 1
    {
      var context := contexts[knex.id];
      DeferInto(context, clearSystemCacheOnFlush);
      threw := RunDeferred(knex, context, opts.emitEvents, steps);
    }

    method FlushContext(context: LifecycleContext, opts: Options)
      requires context.responseCacheDirty
      modifies this`effects
      ensures effects == old(effects) + Flushed(opts, hasCache, context.systemCacheDirty, context.events)
      ensures ClearsSeen(effects[|old(effects)|..], opts, hasCache, context.systemCacheDirty)
      ensures DeliveredLast(effects[|old(effects)|..], opts, if opts.emitEvents then context.events else [])
    {
      hide Clears, Delivery, ClearsSeen, DeliveredLast;
      FlushIsSeen(opts, hasCache, context.systemCacheDirty, context.events);
      ClearCaches(context, opts);
      if opts.emitEvents {
        Deliver(opts, context.events);
      }
      assert effects[|old(effects)|..] == Flushed(opts, hasCache, context.systemCacheDirty, context.events);
    }

    method Deliver(opts: Options, events: seq<Event>)
      modifies this`effects
      ensures effects == old(effects) + Delivery(opts, events)
    {
      for i := 0 to |events|
        invariant effects == old(effects) + Delivery(opts, events[..i])
      {
        assert events[..i + 1][..i] == events[..i];
        Emit(opts, events[i]);
      }
      assert events[..|events|] == events;
    }

    method ClearCaches(context: LifecycleContext, opts: Options)
      requires context.responseCacheDirty
      modifies this`effects
      ensures effects == old(effects) + Clears(opts, hasCache, context.systemCacheDirty)
    {
      if context.systemCacheDirty && opts.autoPurgeSystemCache {
        effects := effects + [SystemCacheCleared(opts.autoPurgeCache)];
      }
      if context.responseCacheDirty && hasCache && opts.autoPurgeCache {
        effects := effects + [CacheCleared];
      }
    }

    /** `runInBoundSerializable`, opened by `withBoundContext` on the pool.  `commits` is the
        database's verdict on the transaction if nothing throws. */
    method RunInBoundSerializable(opts: Options, clearSystemCacheOnFlush: bool, steps: seq<Step>, commits: bool)
      returns (failed: bool)
      requires Valid()
      modifies this
      ensures Valid() && bound == old(bound) && contexts == old(contexts)
      ensures failed <==> Fails(steps) || !commits
      ensures |old(effects)| <= |effects| && effects[..|old(effects)|] == old(effects)
      ensures failed ==> effects[|old(effects)|..] == [RolledBack(old(nextTrx))]
      ensures !failed ==> LetOut(effects[|old(effects)|..], old(nextTrx), opts, hasCache,
                                 clearSystemCacheOnFlush || SystemCacheAsked(steps), steps)
    {
      hide Throws, Fails, Raised, ClearsSystem, Flushed, LetOut, SystemCacheAsked;
      ThrowsIff(steps);
      CommittedIsLetOut(nextTrx, opts, hasCache, clearSystemCacheOnFlush, steps);
      var context := new LifecycleContext();
      var trx := nextTrx;
      nextTrx := nextTrx + 1;
      bound := bound + {trx};
      contexts := contexts[trx := context];
      var threw := Join(Trx(trx), opts, clearSystemCacheOnFlush, steps);
      assert context.events == Raised(opts.emitEvents, steps);
      bound := bound - {trx};
      contexts := contexts - {trx};
      assert contexts == old(contexts);
      if threw || !commits {
        effects := effects + [RolledBack(trx)];
        return true;
      }
      effects := effects + [Committed(trx)];
      FlushContext(context, opts);
      failed := false;
      assert effects[|old(effects)|..] == [Committed(trx)] + Flushed(opts, hasCache, context.systemCacheDirty, context.events);
    }

    /** `withBoundContext`: a bound transaction is joined, and on the pool a new one is opened.
        In a transaction nobody has vouched for nothing is deferred. */
    method WithBoundContext(knex: Knex, opts: Options, clearSystemCacheOnFlush: bool, steps: seq<Step>, commits: bool)
      returns (failed: bool)
      requires Valid()
      modifies this, contexts.Values
      ensures Valid() && bound == old(bound) && contexts == old(contexts)
      ensures knex.Trx? && knex.id in bound ==>
                && failed == Throws(steps) && effects == old(effects)
                && contexts[knex.id].events == old(contexts[knex.id].events) + Raised(opts.emitEvents, steps)
      ensures |old(effects)| <= |effects| && effects[..|old(effects)|] == old(effects)
      ensures knex.Pool? ==> (failed <==> Fails(steps) || !commits)
      ensures knex.Pool? && failed ==> effects[|old(effects)|..] == [RolledBack(old(nextTrx))]
      ensures knex.Pool? && !failed ==> LetOut(effects[|old(effects)|..], old(nextTrx), opts, hasCache,
                                               clearSystemCacheOnFlush || SystemCacheAsked(steps), steps)
      ensures knex.Trx? && knex.id !in bound ==>
                failed == Throws(steps) && effects == old(effects) + Immediate(opts, steps)
    {
      hide LetOut, Fails, SystemCacheAsked;
      if knex.Trx? && knex.id in bound {
        assert contexts[knex.id] in contexts.Values;
        failed := Join(knex, opts, clearSystemCacheOnFlush, steps);
      } else if knex.Trx? {
        failed := RunUnverified(opts, steps);
      } else {
        failed := RunInBoundSerializable(opts, clearSystemCacheOnFlush, steps, commits);
      }
    }

    method RunUnverified(opts: Options, steps: seq<Step>) returns (threw: bool)
      modifies this`effects
      ensures threw == Throws(steps) && effects == old(effects) + Immediate(opts, steps)
      decreases steps
    {
      if steps == [] {
        return false;
      }
      match steps[0] {
        case Throw =>
          return true;
        case Raise(event) =>
          if opts.emitEvents {
            Emit(opts, event);
          }
        case Nested(nested, _, inner, caught) =>
          threw := RunUnverified(nested, inner);
          if threw && !caught {
            return;
          }
      }
      threw := RunUnverified(opts, steps[1..]);
    }
  }

  /** What reaches the world at once from a transaction whose outcome is someone else's. */
  function Immediate(opts: Options, steps: seq<Step>): seq<Effect>
    decreases steps
  {
    if steps == [] then []
    else
      match steps[0]
      case Raise(e) => (if opts.emitEvents then Delivery(opts, [e]) else []) + Immediate(opts, steps[1..])
      case Nested(nested, _, inner, caught) =>
        Immediate(nested, inner) + if Throws(inner) && !caught then [] else Immediate(opts, steps[1..])
      case Throw => []
  }

  // ----- what the world sees -----

  function EventsIn(effects: seq<Effect>): seq<Event> {
    if effects == [] then []
    else
      var last := effects[|effects| - 1];
      EventsIn(effects[..|effects| - 1]) + if last.Emitted? || last.Collected? then [last.event] else []
  }

  /** Every event raised anywhere below, had nothing been silenced. */
  function AllEvents(steps: seq<Step>): seq<Event> {
    if steps == [] then []
    else
      (match steps[0]
       case Raise(e) => [e]
       case Nested(_, _, inner, _) => AllEvents(inner)
       case Throw => []) + AllEvents(steps[1..])
  }

  predicate EveryoneEmits(steps: seq<Step>) {
    steps == [] || (EveryoneEmits(steps[1..]) && (steps[0].Nested? ==> steps[0].opts.emitEvents && EveryoneEmits(steps[0].steps)))
  }

  lemma {:induction false} EventsInDelivery(opts: Options, prefix: seq<Effect>, events: seq<Event>)
    requires EventsIn(prefix) == []
    ensures EventsIn(prefix + Delivery(opts, events)) == events
  {
    if events == [] {
      assert prefix + Delivery(opts, events) == prefix;
    } else {
      var front := events[..|events| - 1];
      EventsInDelivery(opts, prefix, front);
      var all := prefix + Delivery(opts, events);
      assert all[..|all| - 1] == prefix + Delivery(opts, front);
      assert events == front + [events[|events| - 1]];
    }
  }

  /** Whatever the nesting, a transaction that succeeds delivers each event raised in it exactly
      once and in order, unless the outermost operation is silent. */
  lemma DeliveredExactlyOnce(opts: Options, hasCache: bool, systemDirty: bool, trx: nat, steps: seq<Step>)
    ensures var seen := [Committed(trx)] + Flushed(opts, hasCache, systemDirty, Raised(opts.emitEvents, steps));
            EventsIn(seen) == if opts.emitEvents then Raised(true, steps) else []
  {
    var prefix := [Committed(trx)] + Clears(opts, hasCache, systemDirty);
    var raised := Raised(opts.emitEvents, steps);
    NoEventsBefore(prefix);
    hide Raised, Clears;
    assert [Committed(trx)] + Flushed(opts, hasCache, systemDirty, raised) == prefix + Deliveries(opts, raised);
    if opts.emitEvents {
      EventsInDelivery(opts, prefix, raised);
    } else {
      assert prefix + [] == prefix;
    }
  }

  lemma {:induction false} NoEventsBefore(effects: seq<Effect>)
    requires forall i :: 0 <= i < |effects| ==> !effects[i].Emitted? && !effects[i].Collected?
    ensures EventsIn(effects) == []
  {
    if effects != [] {
      NoEventsBefore(effects[..|effects| - 1]);
    }
  }

  /** Nothing is delivered before the commit or before the caches are cleared. */
  lemma DeliveredAfterClears(opts: Options, hasCache: bool, systemDirty: bool, trx: nat, events: seq<Event>, i: nat, j: nat)
    requires var seen := [Committed(trx)] + Flushed(opts, hasCache, systemDirty, events);
             i < |seen| && j < |seen| && (seen[i].Emitted? || seen[i].Collected?) && !(seen[j].Emitted? || seen[j].Collected?)
    ensures j < i
  {
    hide Clears, Deliveries;
    assert [Committed(trx)] + Flushed(opts, hasCache, systemDirty, events)
        == ([Committed(trx)] + Clears(opts, hasCache, systemDirty)) + Deliveries(opts, events);
  }

  /** No operation of any depth fails, caught or not. */
  predicate NothingFails(steps: seq<Step>) {
    steps == [] || (!steps[0].Throw? && NothingFails(steps[1..]) && (steps[0].Nested? ==> NothingFails(steps[0].steps)))
  }

  /** When everybody emits and nothing fails, no event of any depth is missing. */
  lemma {:induction false} NothingIsLost(steps: seq<Step>)
    requires NothingFails(steps) && EveryoneEmits(steps)
    ensures !Throws(steps) && Raised(true, steps) == AllEvents(steps)
  {
    if steps != [] {
      NothingIsLost(steps[1..]);
      if steps[0].Nested? {
        NothingIsLost(steps[0].steps);
      }
    }
  }

  // ----- failures that are caught -----

  /** The events of the operations that did not fail. */
  function RaisedBySuccessful(emits: bool, steps: seq<Step>): seq<Event>
    decreases steps
  {
    if steps == [] then []
    else
      match steps[0]
      case Raise(e) => (if emits then [e] else []) + RaisedBySuccessful(emits, steps[1..])
      case Nested(opts, _, inner, _) =>
        (if Throws(inner) then [] else RaisedBySuccessful(opts.emitEvents, inner)) + RaisedBySuccessful(emits, steps[1..])
      case Throw => []
  }

  /** Every operation whose failure is caught had raised nothing yet. */
  predicate FailuresAreSilent(steps: seq<Step>) {
    steps == [] ||
    (FailuresAreSilent(steps[1..])
     && (steps[0].Nested? ==> if Throws(steps[0].steps) then Raised(steps[0].opts.emitEvents, steps[0].steps) == []
                              else FailuresAreSilent(steps[0].steps)))
  }

  lemma {:induction false} SuccessfulAreRaised(emits: bool, steps: seq<Step>)
    requires !Throws(steps)
    ensures |RaisedBySuccessful(emits, steps)| <= |Raised(emits, steps)|
    ensures |RaisedBySuccessful(emits, steps)| == |Raised(emits, steps)| <==> FailuresAreSilent(steps)
    ensures FailuresAreSilent(steps) ==> RaisedBySuccessful(emits, steps) == Raised(emits, steps)
    decreases steps
  {
    if steps != [] {
      SuccessfulAreRaised(emits, steps[1..]);
      if steps[0].Nested? && !Throws(steps[0].steps) {
        SuccessfulAreRaised(steps[0].opts.emitEvents, steps[0].steps);
      }
    }
  }

  /** A transaction delivers the events of its successful operations alone exactly when no operation
      whose failure was caught had raised one: what is queued is not taken back. */
  lemma OnlySuccessfulAreDeliveredIff(opts: Options, hasCache: bool, systemDirty: bool, trx: nat, steps: seq<Step>)
    requires opts.emitEvents && !Throws(steps)
    ensures var seen := [Committed(trx)] + Flushed(opts, hasCache, systemDirty, Raised(opts.emitEvents, steps));
            EventsIn(seen) == RaisedBySuccessful(true, steps) <==> FailuresAreSilent(steps)
  {
    DeliveredExactlyOnce(opts, hasCache, systemDirty, trx, steps);
    SuccessfulAreRaised(true, steps);
  }

  /** An outermost operation that does not emit silences everything that joined it, even what asked
      to be emitted. */
  lemma OutermostSilencesAll(opts: Options, hasCache: bool, systemDirty: bool, trx: nat, events: seq<Event>)
    requires !opts.emitEvents
    ensures EventsIn([Committed(trx)] + Flushed(opts, hasCache, systemDirty, events)) == []
  {
    NoEventsBefore([Committed(trx)] + Flushed(opts, hasCache, systemDirty, events));
  }

  lemma {:induction false} EventsInBoth(a: seq<Effect>, b: seq<Effect>)
    ensures EventsIn(a + b) == EventsIn(a) + EventsIn(b)
  {
    if b == [] {
      assert a + b == a;
    } else {
      var front := b[..|b| - 1];
      assert (a + b)[..|a + b| - 1] == a + front;
      EventsInBoth(a, front);
    }
  }

  lemma DeliveryOfOne(opts: Options, e: Event)
    ensures Delivery(opts, [e]) == [if opts.collects then Collected(e) else Emitted(e)]
    ensures EventsIn(Delivery(opts, [e])) == [e] && EventsIn([]) == []
  {
    assert [e][..0] == [];
    EventsInDelivery(opts, [], [e]);
    assert [] + Delivery(opts, [e]) == Delivery(opts, [e]);
  }

  /** In a transaction nobody has vouched for the same events go out as would have been queued, at once. */
  lemma {:induction false} ImmediateIsRaised(opts: Options, steps: seq<Step>)
    ensures EventsIn(Immediate(opts, steps)) == Raised(opts.emitEvents, steps)
    decreases steps
  {
    hide EventsIn, Delivery, Throws;
    DeliveryOfOne(opts, Event("", 0));
    if steps != [] {
      var later := Immediate(opts, steps[1..]);
      ImmediateIsRaised(opts, steps[1..]);
      match steps[0] {
        case Raise(e) =>
          DeliveryOfOne(opts, e);
          EventsInBoth(if opts.emitEvents then Delivery(opts, [e]) else [], later);
        case Nested(nested, _, inner, caught) =>
          ImmediateIsRaised(nested, inner);
          EventsInBoth(Immediate(nested, inner), if Throws(inner) && !caught then [] else later);
        case Throw =>
      }
    }
  }

  /** And nothing else does. */
  lemma {:induction false} ImmediateIsDelivered(opts: Options, steps: seq<Step>)
    ensures forall x :: x in Immediate(opts, steps) ==> IsDelivery(x)
    decreases steps
  {
    hide Delivery, Throws;
    if steps != [] {
      ImmediateIsDelivered(opts, steps[1..]);
      match steps[0] {
        case Raise(e) => DeliveryOfOne(opts, e);
        case Nested(nested, _, inner, _) => ImmediateIsDelivered(nested, inner);
        case Throw =>
      }
    }
  }
}
