/**
 Which extensions may own settings: names must be valid and unique, and no two secrets read from
 the environment may share a variable.  Sanitising names for the environment is lossy, so sharing
 is found by deriving all variables and failing every owner of one that is derived twice.
 */
module SettingsSubjects {
  import opened Rows
  import opened Wrappers

  /** The keys are those of the settings that are read from the environment. */
  datatype Extension = Extension(name: string, settings: Option<Settings>)
  datatype Settings = Settings(configSecretKeys: seq<string>)
  datatype Derivation = Derivation(subject: string, key: string)

  datatype Collision = Collision(variables: set<string>, others: set<string>, keys: set<string>)

  datatype Status = Eligible | Invalid | Duplicate | Collides(collision: Collision)

  /** What is not defined here: which names are valid, and the variable of a secret. */
  datatype Naming = Naming(valid: string -> bool, variable: (string, string) -> string)

  /** An object has each of its keys once. */
  predicate Proper(extensions: seq<Extension>) {
    forall i :: 0 <= i < |extensions| && extensions[i].settings.Some? ==>
      DistinctKeys(extensions[i].settings.value.configSecretKeys)
  }

  predicate DistinctKeys(keys: seq<string>) {
    forall j, k :: 0 <= j < k < |keys| ==> keys[j] != keys[k]
  }

  function Names(extensions: seq<Extension>): seq<string> {
    if extensions == [] then []
    else
      Names(extensions[..|extensions| - 1])
      + if extensions[|extensions| - 1].settings.Some? then [extensions[|extensions| - 1].name] else []
  }

  /** An owner whose name is valid and its alone. */
  predicate Sole(naming: Naming, names: seq<string>, e: Extension) {
    e.settings.Some? && naming.valid(e.name) && multiset(names)[e.name] <= 1
  }

  function KeysAsDerivations(subject: string, keys: seq<string>): (r: seq<Derivation>)
    ensures |r| == |keys|
    ensures forall i :: 0 <= i < |keys| ==> r[i] == Derivation(subject, keys[i])
  {
    if keys == [] then [] else KeysAsDerivations(subject, keys[..|keys| - 1]) + [Derivation(subject, keys[|keys| - 1])]
  }

  /** Every derivation of the sole owners, in order. */
  function Derivations(naming: Naming, names: seq<string>, extensions: seq<Extension>): seq<Derivation> {
    if extensions == [] then []
    else
      var last := extensions[|extensions| - 1];
      Derivations(naming, names, extensions[..|extensions| - 1])
      + if Sole(naming, names, last) then KeysAsDerivations(last.name, last.settings.value.configSecretKeys) else []
  }

  function Variable(naming: Naming, d: Derivation): string {
    naming.variable(d.subject, d.key)
  }

  function Derives(naming: Naming, v: string): Derivation -> bool {
    (d: Derivation) => Variable(naming, d) == v
  }

  type ByVariable = map<string, seq<Derivation>>

  ghost predicate Indexes(naming: Naming, all: seq<Derivation>, derived: ByVariable) {
    && (forall d :: d in all ==> Variable(naming, d) in derived)
    && (forall v :: v in derived ==> derived[v] != [] && derived[v] == Keep(all, Derives(naming, v)))
  }

  // ----- counting and deriving -----

  method CountOwners(extensions: seq<Extension>) returns (counts: map<string, nat>)
    ensures forall n :: n in counts <==> n in Names(extensions)
    ensures forall n :: n in counts ==> counts[n] == multiset(Names(extensions))[n]
  {
    counts := map[];
    for i := 0 to |extensions|
      invariant forall n :: n in counts <==> n in Names(extensions[..i])
      invariant forall n :: n in counts ==> counts[n] == multiset(Names(extensions[..i]))[n]
    {
      assert extensions[..i + 1][..i] == extensions[..i];
      if extensions[i].settings.Some? {
        var n := extensions[i].name;
        assert n !in counts ==> multiset(Names(extensions[..i]))[n] == 0;
        counts := counts[n := (if n in counts then counts[n] else 0) + 1];
      }
    }
    assert extensions[..|extensions|] == extensions;
  }

  lemma IndexMore(naming: Naming, all: seq<Derivation>, derived: ByVariable, d: Derivation)
    requires Indexes(naming, all, derived)
    ensures var v := Variable(naming, d);
            Indexes(naming, all + [d], derived[v := (if v in derived then derived[v] else []) + [d]])
  {
    var v := Variable(naming, d);
    var more := derived[v := (if v in derived then derived[v] else []) + [d]];
    forall u | u in more ensures more[u] != [] && more[u] == Keep(all + [d], Derives(naming, u)) {
      KeepAppend(all, [d], Derives(naming, u));
      assert Keep([d], Derives(naming, u)) == if Derives(naming, u)(d) then [d] else [];
      if u == v && v !in derived {
        KeepNone(all, Derives(naming, v));
      }
    }
  }

  method DeriveKeys(naming: Naming, subject: string, keys: seq<string>, derived: ByVariable, ghost all: seq<Derivation>)
    returns (more: ByVariable)
    requires Indexes(naming, all, derived)
    ensures Indexes(naming, all + KeysAsDerivations(subject, keys), more)
  {
    more := derived;
    assert all + [] == all;
    for i := 0 to |keys|
      invariant Indexes(naming, all + KeysAsDerivations(subject, keys[..i]), more)
    {
      hide Indexes;
      assert keys[..i + 1][..i] == keys[..i];
      var d := Derivation(subject, keys[i]);
      var v := Variable(naming, d);
      IndexMore(naming, all + KeysAsDerivations(subject, keys[..i]), more, d);
      assert all + KeysAsDerivations(subject, keys[..i]) + [d] == all + KeysAsDerivations(subject, keys[..i + 1]);
      more := more[v := (if v in more then more[v] else []) + [d]];
    }
    assert keys[..|keys|] == keys;
  }

  method DeriveAll(naming: Naming, extensions: seq<Extension>, counts: map<string, nat>, ghost names: seq<string>)
    returns (derived: ByVariable)
    requires forall n :: n in counts <==> n in names
    requires forall n :: n in counts ==> counts[n] == multiset(names)[n]
    ensures Indexes(naming, Derivations(naming, names, extensions), derived)
  {
    derived := map[];
    for i := 0 to |extensions|
      invariant Indexes(naming, Derivations(naming, names, extensions[..i]), derived)
    {
      hide Indexes;
      assert extensions[..i + 1][..i] == extensions[..i];
      var e := extensions[i];
      if e.settings.Some? && naming.valid(e.name) && (if e.name in counts then counts[e.name] else 0) <= 1 {
        derived := DeriveKeys(naming, e.name, e.settings.value.configSecretKeys, derived, Derivations(naming, names, extensions[..i]));
      } else {
        assert !Sole(naming, names, e);
        assert Derivations(naming, names, extensions[..i]) + [] == Derivations(naming, names, extensions[..i]);
      }
    }
    assert extensions[..|extensions|] == extensions;
  }

  // ----- colliding -----

  predicate Mentions(derivations: seq<Derivation>, subject: string) {
    exists i :: 0 <= i < |derivations| && derivations[i].subject == subject
  }

  /** The subjects beside one that derive the variable. */
  function OthersOf(derivations: seq<Derivation>, subject: string): set<string> {
    set i | 0 <= i < |derivations| && derivations[i].subject != subject :: derivations[i].subject
  }

  /** Two keys from which the subject derives the variable. */
  predicate Shares(derivations: seq<Derivation>, subject: string, i: nat, j: nat)
    requires i < |derivations| && j < |derivations|
  {
    derivations[i].subject == subject && derivations[j].subject == subject && derivations[i].key != derivations[j].key
  }

  /** The keys of one subject when it derives the variable from several. */
  function SharedKeys(derivations: seq<Derivation>, subject: string): set<string> {
    set i, j | 0 <= i < |derivations| && 0 <= j < |derivations| && Shares(derivations, subject, i, j) :: derivations[i].key
  }

  const NO_COLLISION := Collision({}, {}, {})

  type Collisions = map<string, Collision>

  function CollisionFor(collisions: Collisions, subject: string): Collision {
    if subject in collisions then collisions[subject] else NO_COLLISION
  }

  /** A collision, after one more variable. */
  function Added(c: Collision, v: string, derivations: seq<Derivation>, subject: string): Collision {
    Collision(c.variables + {v}, c.others + OthersOf(derivations, subject), c.keys + SharedKeys(derivations, subject))
  }

  /** One variable seen from one of its derivations. */
  method Others(derivations: seq<Derivation>, d: Derivation) returns (others: set<string>, keys: set<string>)
    ensures others == OthersOf(derivations, d.subject)
    ensures forall k :: k in keys <==> SeenFrom(derivations, |derivations|, d, k)
  {
    others, keys := {}, {};
    for i := 0 to |derivations|
      invariant others == set j | 0 <= j < i && derivations[j].subject != d.subject :: derivations[j].subject
      invariant forall k :: k in keys <==> SeenFrom(derivations, i, d, k)
    {
      if derivations[i].subject != d.subject {
        others := others + {derivations[i].subject};
      } else if derivations[i].key != d.key {
        keys := keys + {d.key, derivations[i].key};
      }
    }
  }

  ghost predicate SeenFrom(derivations: seq<Derivation>, n: nat, d: Derivation, k: string)
    requires n <= |derivations|
  {
    exists i :: 0 <= i < n && derivations[i].subject == d.subject && derivations[i].key != d.key
                && (k == d.key || k == derivations[i].key)
  }

  /** The keys added for a subject once the first `n` derivations have been looked from. */
  ghost predicate SeenUpTo(derivations: seq<Derivation>, n: nat, subject: string, k: string)
    requires n <= |derivations|
  {
    exists i :: 0 <= i < n && derivations[i].subject == subject && SeenFrom(derivations, |derivations|, derivations[i], k)
  }

  lemma SeenAll(derivations: seq<Derivation>, subject: string, k: string)
    ensures SeenUpTo(derivations, |derivations|, subject, k) <==> k in SharedKeys(derivations, subject)
  {
    if SeenUpTo(derivations, |derivations|, subject, k) {
      var i :| 0 <= i < |derivations| && derivations[i].subject == subject && SeenFrom(derivations, |derivations|, derivations[i], k);
      var j :| 0 <= j < |derivations| && derivations[j].subject == derivations[i].subject
               && derivations[j].key != derivations[i].key && (k == derivations[i].key || k == derivations[j].key);
      assert Shares(derivations, subject, i, j) && Shares(derivations, subject, j, i);
    }
    if k in SharedKeys(derivations, subject) {
      var i, j :| 0 <= i < |derivations| && 0 <= j < |derivations| && Shares(derivations, subject, i, j) && derivations[i].key == k;
      assert SeenFrom(derivations, |derivations|, derivations[i], k);
    }
  }

  ghost predicate Extends(derivations: seq<Derivation>, n: nat, v: string, subject: string, was: Collision, now: Collision)
    requires n <= |derivations|
  {
    && now.variables == was.variables + {v}
    && now.others == was.others + OthersOf(derivations, subject)
    && forall k :: k in now.keys <==> k in was.keys || SeenUpTo(derivations, n, subject, k)
  }

  ghost predicate ExtendedUpTo(derivations: seq<Derivation>, n: nat, v: string, was: Collisions, now: Collisions)
    requires n <= |derivations|
  {
    forall s ::
      if Mentions(derivations[..n], s) then s in now && Extends(derivations, n, v, s, CollisionFor(was, s), now[s])
      else (s in now <==> s in was) && (s in was ==> now[s] == was[s])
  }

  lemma ExtendMore(derivations: seq<Derivation>, n: nat, v: string, was: Collisions, now: Collisions, keys: set<string>)
    requires n < |derivations| && ExtendedUpTo(derivations, n, v, was, now)
    requires forall k :: k in keys <==> SeenFrom(derivations, |derivations|, derivations[n], k)
    ensures var d := derivations[n];
            var c := CollisionFor(now, d.subject);
            ExtendedUpTo(derivations, n + 1, v, was,
              now[d.subject := Collision(c.variables + {v}, c.others + OthersOf(derivations, d.subject), c.keys + keys)])
  {
    hide SeenFrom, OthersOf;
    var d := derivations[n];
    var c := CollisionFor(now, d.subject);
    var after := now[d.subject := Collision(c.variables + {v}, c.others + OthersOf(derivations, d.subject), c.keys + keys)];
    forall s
      ensures Mentions(derivations[..n + 1], s) <==> Mentions(derivations[..n], s) || s == d.subject
      ensures forall k :: SeenUpTo(derivations, n + 1, s, k) <==>
                SeenUpTo(derivations, n, s, k) || (s == d.subject && SeenFrom(derivations, |derivations|, d, k))
    {
      MentionsMore(derivations, n, s);
    }
    forall s | s == d.subject ensures Extends(derivations, n + 1, v, s, CollisionFor(was, s), after[s]) {
      if !Mentions(derivations[..n], s) {
        assert forall k :: !SeenUpTo(derivations, n, s, k) by {
          NotSeenUnmentioned(derivations, n, s);
        }
      }
    }
    forall s | s != d.subject && Mentions(derivations[..n], s)
      ensures Extends(derivations, n + 1, v, s, CollisionFor(was, s), after[s])
    {
    }
  }

  lemma MentionsMore(derivations: seq<Derivation>, n: nat, s: string)
    requires n < |derivations|
    ensures Mentions(derivations[..n + 1], s) <==> Mentions(derivations[..n], s) || s == derivations[n].subject
    ensures forall k :: SeenUpTo(derivations, n + 1, s, k) <==>
              SeenUpTo(derivations, n, s, k)
              || (s == derivations[n].subject && SeenFrom(derivations, |derivations|, derivations[n], k))
  {
    hide SeenFrom;
    var longer, shorter := derivations[..n + 1], derivations[..n];
    if i :| 0 <= i < |longer| && longer[i].subject == s {
      assert i < n ==> shorter[i].subject == s;
    }
    if Mentions(shorter, s) {
      var i :| 0 <= i < |shorter| && shorter[i].subject == s;
      assert longer[i].subject == s;
    }
    if s == derivations[n].subject {
      assert longer[n].subject == s;
    }
  }

  lemma NotSeenUnmentioned(derivations: seq<Derivation>, n: nat, s: string)
    requires n <= |derivations| && !Mentions(derivations[..n], s)
    ensures forall k :: !SeenUpTo(derivations, n, s, k)
  {
    hide SeenFrom;
    forall i | 0 <= i < n ensures derivations[i].subject != s {
      assert derivations[..n][i] == derivations[i];
    }
  }

  /** A variable that is derived more than once: each of its subjects collides. */
  method AddVariable(v: string, derivations: seq<Derivation>, was: Collisions) returns (collisions: Collisions)
    ensures forall s ::
              if Mentions(derivations, s) then s in collisions && collisions[s] == Added(CollisionFor(was, s), v, derivations, s)
              else (s in collisions <==> s in was) && (s in was ==> collisions[s] == was[s])
  {
    collisions := was;
    for i := 0 to |derivations|
      invariant ExtendedUpTo(derivations, i, v, was, collisions)
    {
      hide ExtendedUpTo, SeenFrom;
      var d := derivations[i];
      var others, keys := Others(derivations, d);
      var c := CollisionFor(collisions, d.subject);
      ExtendMore(derivations, i, v, was, collisions, keys);
      collisions := collisions[d.subject := Collision(c.variables + {v}, c.others + others, c.keys + keys)];
    }
    assert derivations[..|derivations|] == derivations;
    forall s | Mentions(derivations, s) ensures s in collisions && collisions[s] == Added(CollisionFor(was, s), v, derivations, s) {
      forall k ensures k in collisions[s].keys <==> k in CollisionFor(was, s).keys || k in SharedKeys(derivations, s) {
        SeenAll(derivations, s, k);
      }
    }
  }

  /** The variables derived more than once that concern a subject. */
  ghost predicate Concerns(derived: ByVariable, v: string, subject: string) {
    v in derived && |derived[v]| > 1 && Mentions(derived[v], subject)
  }

  ghost predicate CollisionIs(derived: ByVariable, done: set<string>, subject: string, c: Collision) {
    && (forall v :: v in c.variables <==> v in done && Concerns(derived, v, subject))
    && (forall o :: o in c.others <==> exists v :: v in done && Concerns(derived, v, subject) && o in OthersOf(derived[v], subject))
    && (forall k :: k in c.keys <==> exists v :: v in done && Concerns(derived, v, subject) && k in SharedKeys(derived[v], subject))
  }

  ghost predicate CollisionsOf(derived: ByVariable, done: set<string>, collisions: Collisions) {
    forall s ::
      && CollisionIs(derived, done, s, CollisionFor(collisions, s))
      && (s in collisions <==> exists v :: v in done && Concerns(derived, v, s))
  }

  /** The subject and another derive one variable. */
  ghost predicate Meets(derived: ByVariable, subject: string, other: string) {
    exists v, i, j ::
      && v in derived && 0 <= i < |derived[v]| && 0 <= j < |derived[v]|
      && derived[v][i].subject == subject && derived[v][j].subject == other
  }

  /** The others named are the subjects with which it has a variable in common, without itself. */
  ghost predicate OthersNamed(derived: ByVariable, collisions: Collisions) {
    forall s, o :: s in collisions ==> (o in collisions[s].others <==> o != s && Meets(derived, s, o))
  }

  lemma OthersAreThoseMet(derived: ByVariable, collisions: Collisions)
    requires CollisionsOf(derived, derived.Keys, collisions)
    ensures OthersNamed(derived, collisions)
  {
    hide Meets;
    forall s, o | s in collisions ensures o in collisions[s].others <==> o != s && Meets(derived, s, o) {
      assert CollisionIs(derived, derived.Keys, s, collisions[s]);
      MeetsIff(derived, s, o);
    }
  }

  lemma MeetsIff(derived: ByVariable, s: string, o: string)
    ensures (exists v :: v in derived.Keys && Concerns(derived, v, s) && o in OthersOf(derived[v], s)) <==> o != s && Meets(derived, s, o)
  {
    if v :| v in derived.Keys && Concerns(derived, v, s) && o in OthersOf(derived[v], s) {
      var i :| 0 <= i < |derived[v]| && derived[v][i].subject == s;
      var j :| 0 <= j < |derived[v]| && derived[v][j].subject == o;
      assert Meets(derived, s, o);
    }
    if o != s && Meets(derived, s, o) {
      var v, i, j :| v in derived && 0 <= i < |derived[v]| && 0 <= j < |derived[v]|
                     && derived[v][i].subject == s && derived[v][j].subject == o;
      assert i != j;
      assert Concerns(derived, v, s) && o in OthersOf(derived[v], s);
    }
  }

  lemma CollisionMore(derived: ByVariable, done: set<string>, v: string, s: string, c: Collision, c': Collision)
    requires v in derived && v !in done && CollisionIs(derived, done, s, c)
    requires c' == if Concerns(derived, v, s) then Added(c, v, derived[v], s) else c
    ensures CollisionIs(derived, done + {v}, s, c')
  {
    hide OthersOf, SharedKeys;
    forall o ensures o in c'.others <==> exists u :: u in done + {v} && Concerns(derived, u, s) && o in OthersOf(derived[u], s) {
      if Concerns(derived, v, s) && o in OthersOf(derived[v], s) {
        assert v in done + {v};
      }
    }
    forall k ensures k in c'.keys <==> exists u :: u in done + {v} && Concerns(derived, u, s) && k in SharedKeys(derived[u], s) {
      if Concerns(derived, v, s) && k in SharedKeys(derived[v], s) {
        assert v in done + {v};
      }
    }
  }

  method Collide(derived: ByVariable) returns (collisions: Collisions)
    ensures CollisionsOf(derived, derived.Keys, collisions)
    ensures OthersNamed(derived, collisions)
  {
    collisions := map[];
    var left := derived.Keys;
    while left != {}
      invariant left <= derived.Keys && CollisionsOf(derived, derived.Keys - left, collisions)
      decreases |left|
    {
      var v :| v in left;
      ghost var done := derived.Keys - left;
      ghost var before := collisions;
      if |derived[v]| > 1 {
        collisions := AddVariable(v, derived[v], collisions);
      }
      CollisionsMore(derived, done, v, before, collisions);
      left := left - {v};
      assert derived.Keys - left == done + {v};
    }
    assert derived.Keys - left == derived.Keys;
    OthersAreThoseMet(derived, collisions);
  }

  lemma CollisionsMore(derived: ByVariable, done: set<string>, v: string, before: Collisions, after: Collisions)
    requires v in derived && v !in done && CollisionsOf(derived, done, before)
    requires forall s ::
               if Concerns(derived, v, s) then s in after && after[s] == Added(CollisionFor(before, s), v, derived[v], s)
               else (s in after <==> s in before) && (s in before ==> after[s] == before[s])
    ensures CollisionsOf(derived, done + {v}, after)
  {
    hide CollisionIs, Concerns, Added;
    forall s
      ensures CollisionIs(derived, done + {v}, s, CollisionFor(after, s))
      ensures s in after <==> exists u :: u in done + {v} && Concerns(derived, u, s)
    {
      CollisionMore(derived, done, v, s, CollisionFor(before, s), CollisionFor(after, s));
      if Concerns(derived, v, s) {
        assert v in done + {v};
      }
    }
  }

  // ----- the statuses -----

  type Statuses = map<nat, Status>

  function StatusOf(naming: Naming, names: seq<string>, collisions: Collisions, e: Extension): Status {
    if !naming.valid(e.name) then Invalid
    else if multiset(names)[e.name] > 1 then Duplicate
    else if e.name in collisions then Collides(collisions[e.name])
    else Eligible
  }

  /** `resolveSettingsSubjects`: a status for every extension that declares settings. */
  method ResolveSettingsSubjects(naming: Naming, extensions: seq<Extension>)
    returns (statuses: Statuses, ghost derived: ByVariable, ghost collisions: Collisions)
    ensures forall i: nat :: i in statuses <==> i < |extensions| && extensions[i].settings.Some?
    ensures forall i :: i in statuses ==> statuses[i] == StatusOf(naming, Names(extensions), collisions, extensions[i])
    ensures Proper(extensions) ==> forall i: nat :: i in statuses ==> RightStatus(naming, extensions, i, statuses[i])
    ensures Indexes(naming, Derivations(naming, Names(extensions), extensions), derived)
    ensures CollisionsOf(derived, derived.Keys, collisions)
  {
    hide Indexes, CollisionsOf, RightStatus;
    ghost var names := Names(extensions);
    var counts := CountOwners(extensions);
    var byVariable := DeriveAll(naming, extensions, counts, names);
    var colliding := Collide(byVariable);
    derived, collisions := byVariable, colliding;
    statuses := map[];
    for i := 0 to |extensions|
      invariant forall j: nat :: j in statuses <==> j < i && extensions[j].settings.Some?
      invariant forall j :: j in statuses ==> statuses[j] == StatusOf(naming, names, collisions, extensions[j])
    {
      var e := extensions[i];
      if e.settings.Some? {
        var status;
        if !naming.valid(e.name) {
          status := Invalid;
        } else if (if e.name in counts then counts[e.name] else 0) > 1 {
          status := Duplicate;
        } else if e.name in colliding {
          status := Collides(colliding[e.name]);
        } else {
          status := Eligible;
        }
        statuses := statuses[i := status];
      }
    }
    if Proper(extensions) {
      forall i: nat | i in statuses ensures RightStatus(naming, extensions, i, statuses[i]) {
        StatusesAreRight(naming, extensions, derived, collisions, i);
      }
    }
  }

  // ----- who is rejected -----

  /** A variable of the subject is derived at two places. */
  ghost predicate DerivedTwice(naming: Naming, all: seq<Derivation>, subject: string) {
    exists p, q :: 0 <= p < |all| && 0 <= q < |all| && p != q
      && all[p].subject == subject && Variable(naming, all[p]) == Variable(naming, all[q])
  }

  lemma {:induction false} KeptTwice(naming: Naming, all: seq<Derivation>, v: string)
    ensures |Keep(all, Derives(naming, v))| > 1 <==>
              exists p, q :: 0 <= p < q < |all| && Variable(naming, all[p]) == v && Variable(naming, all[q]) == v
  {
    if all != [] {
      var tail := all[1..];
      KeptTwice(naming, tail, v);
      KeptOnce(naming, tail, v);
      if p, q :| 0 <= p < q < |tail| && Variable(naming, tail[p]) == v && Variable(naming, tail[q]) == v {
        assert Variable(naming, all[p + 1]) == v && Variable(naming, all[q + 1]) == v;
      }
      if Variable(naming, all[0]) == v && exists q :: 0 <= q < |tail| && Variable(naming, tail[q]) == v {
        var q :| 0 <= q < |tail| && Variable(naming, tail[q]) == v;
        assert Variable(naming, all[0]) == v && Variable(naming, all[q + 1]) == v;
      }
      if p, q :| 0 <= p < q < |all| && Variable(naming, all[p]) == v && Variable(naming, all[q]) == v {
        assert tail[q - 1] == all[q];
        if p > 0 {
          assert tail[p - 1] == all[p];
        }
      }
    }
  }

  lemma KeptOnce(naming: Naming, all: seq<Derivation>, v: string)
    ensures |Keep(all, Derives(naming, v))| > 0 <==> exists q :: 0 <= q < |all| && Variable(naming, all[q]) == v
  {
    KeepMembers(all, Derives(naming, v));
    var kept := Keep(all, Derives(naming, v));
    if |kept| > 0 {
      assert kept[0] in kept;
      var q :| 0 <= q < |all| && all[q] == kept[0];
    }
    if q :| 0 <= q < |all| && Variable(naming, all[q]) == v {
      assert all[q] in kept;
    }
  }

  /** A subject collides exactly when one of its variables is derived twice among the sole owners. */
  lemma CollidesIff(naming: Naming, all: seq<Derivation>, derived: ByVariable, collisions: Collisions, subject: string)
    requires Indexes(naming, all, derived) && CollisionsOf(derived, derived.Keys, collisions)
    ensures subject in collisions <==> DerivedTwice(naming, all, subject)
  {
    hide Indexes, Concerns, DerivedTwice, CollisionIs;
    forall v | v in derived.Keys && Concerns(derived, v, subject) ensures DerivedTwice(naming, all, subject) {
      ConcernedIsDerivedTwice(naming, all, derived, v, subject);
    }
    if DerivedTwice(naming, all, subject) {
      var v := DerivedTwiceConcerns(naming, all, derived, subject);
    }
  }

  lemma ConcernedIsDerivedTwice(naming: Naming, all: seq<Derivation>, derived: ByVariable, v: string, subject: string)
    requires Indexes(naming, all, derived) && Concerns(derived, v, subject)
    ensures DerivedTwice(naming, all, subject)
  {
    KeptTwice(naming, all, v);
    KeepMembers(all, Derives(naming, v));
    var i :| 0 <= i < |derived[v]| && derived[v][i].subject == subject;
    assert derived[v][i] in derived[v];
    var at :| 0 <= at < |all| && all[at] == derived[v][i];
    var p, q :| 0 <= p < q < |all| && Variable(naming, all[p]) == v && Variable(naming, all[q]) == v;
    assert Variable(naming, all[at]) == v;
    assert at != p || at != q;
  }

  lemma DerivedTwiceConcerns(naming: Naming, all: seq<Derivation>, derived: ByVariable, subject: string) returns (v: string)
    requires Indexes(naming, all, derived) && DerivedTwice(naming, all, subject)
    ensures v in derived.Keys && Concerns(derived, v, subject)
  {
    var p, q :| && 0 <= p < |all| && 0 <= q < |all| && p != q
                && all[p].subject == subject && Variable(naming, all[p]) == Variable(naming, all[q]);
    v := Variable(naming, all[p]);
    var low, high := if p < q then p else q, if p < q then q else p;
    assert Variable(naming, all[low]) == v && Variable(naming, all[high]) == v;
    assert all[p] in all;
    KeptTwice(naming, all, v);
    KeepMembers(all, Derives(naming, v));
    assert all[p] in derived[v];
    var i :| 0 <= i < |derived[v]| && derived[v][i] == all[p];
  }

  lemma {:induction false} SoleDerives(naming: Naming, names: seq<string>, extensions: seq<Extension>, i: nat, a: nat)
    requires i < |extensions| && Sole(naming, names, extensions[i])
    requires a < |extensions[i].settings.value.configSecretKeys|
    ensures Derivation(extensions[i].name, extensions[i].settings.value.configSecretKeys[a])
            in Derivations(naming, names, extensions)
  {
    var n := |extensions| - 1;
    if i < n {
      SoleDerives(naming, names, extensions[..n], i, a);
    } else {
      assert KeysAsDerivations(extensions[n].name, extensions[n].settings.value.configSecretKeys)[a]
        in KeysAsDerivations(extensions[n].name, extensions[n].settings.value.configSecretKeys);
    }
  }

  lemma {:induction false} NameCounts(extensions: seq<Extension>, i: nat, j: nat)
    requires i < j < |extensions| && extensions[i].settings.Some? && extensions[j].settings.Some?
    requires extensions[i].name == extensions[j].name
    ensures multiset(Names(extensions))[extensions[i].name] > 1
  {
    hide Names;
    var n := |extensions| - 1;
    var front := extensions[..n];
    assert front[i] == extensions[i];
    NamesMore(extensions, extensions[i].name);
    if j < n {
      assert front[j] == extensions[j];
      NameCounts(front, i, j);
    } else {
      NamePresent(front, i);
    }
  }

  lemma NamesMore(extensions: seq<Extension>, name: string)
    requires extensions != []
    ensures var last := extensions[|extensions| - 1];
            multiset(Names(extensions))[name] == multiset(Names(extensions[..|extensions| - 1]))[name]
                                                 + if last.settings.Some? && last.name == name then 1 else 0
  {
  }

  lemma {:induction false} NamePresent(extensions: seq<Extension>, i: nat)
    requires i < |extensions| && extensions[i].settings.Some?
    ensures extensions[i].name in multiset(Names(extensions))
  {
    if i < |extensions| - 1 {
      NamePresent(extensions[..|extensions| - 1], i);
    }
  }

  /** A secret of the deployment is read by one owner under one key: over the secrets of eligible
      owners, the variable is injective. */
  lemma VariablesAreInjective(naming: Naming, extensions: seq<Extension>, derived: ByVariable, collisions: Collisions,
                              i: nat, a: nat, j: nat, b: nat)
    requires Proper(extensions)
    requires Indexes(naming, Derivations(naming, Names(extensions), extensions), derived)
    requires CollisionsOf(derived, derived.Keys, collisions)
    requires i < |extensions| && extensions[i].settings.Some? && a < |extensions[i].settings.value.configSecretKeys|
    requires j < |extensions| && extensions[j].settings.Some? && b < |extensions[j].settings.value.configSecretKeys|
    requires StatusOf(naming, Names(extensions), collisions, extensions[i]) == Eligible
    requires StatusOf(naming, Names(extensions), collisions, extensions[j]) == Eligible
    requires (i, a) != (j, b)
    ensures naming.variable(extensions[i].name, extensions[i].settings.value.configSecretKeys[a])
            != naming.variable(extensions[j].name, extensions[j].settings.value.configSecretKeys[b])
  {
    var names := Names(extensions);
    var all := Derivations(naming, names, extensions);
    var x := Derivation(extensions[i].name, extensions[i].settings.value.configSecretKeys[a]);
    var y := Derivation(extensions[j].name, extensions[j].settings.value.configSecretKeys[b]);
    SoleDerives(naming, names, extensions, i, a);
    SoleDerives(naming, names, extensions, j, b);
    if i < j && x.subject == y.subject {
      NameCounts(extensions, i, j);
    } else if j < i && x.subject == y.subject {
      NameCounts(extensions, j, i);
    }
    assert x != y;
    CollidesIff(naming, all, derived, collisions, x.subject);
    var p :| 0 <= p < |all| && all[p] == x;
    var q :| 0 <= q < |all| && all[q] == y;
  }

  // ----- the statuses, by the extensions alone -----

  predicate Owns(extensions: seq<Extension>, i: int) {
    0 <= i < |extensions| && extensions[i].settings.Some?
  }

  /** No other owner has the name. */
  ghost predicate NameAlone(extensions: seq<Extension>, i: nat)
    requires i < |extensions|
  {
    forall j :: Owns(extensions, j) && j != i ==> extensions[j].name != extensions[i].name
  }

  ghost predicate Qualifies(naming: Naming, extensions: seq<Extension>, i: int) {
    Owns(extensions, i) && naming.valid(extensions[i].name) && NameAlone(extensions, i)
  }

  /** Secret `a` of owner `i` is read from this variable. */
  predicate ReadsFrom(naming: Naming, extensions: seq<Extension>, i: int, a: int, v: string) {
    && Owns(extensions, i) && 0 <= a < |extensions[i].settings.value.configSecretKeys|
    && naming.variable(extensions[i].name, extensions[i].settings.value.configSecretKeys[a]) == v
  }

  /** A secret of the owner shares its variable with another secret, its own or of another owner whose name
      is valid and its alone. */
  ghost predicate Clashes(naming: Naming, extensions: seq<Extension>, i: int) {
    exists v, a, j, b :: ReadsFrom(naming, extensions, i, a, v) && ReadsFrom(naming, extensions, j, b, v)
                         && Qualifies(naming, extensions, j) && (i, a) != (j, b)
  }

  lemma {:induction false} NameAbsent(extensions: seq<Extension>, name: string)
    requires forall j :: Owns(extensions, j) ==> extensions[j].name != name
    ensures multiset(Names(extensions))[name] == 0
  {
    hide Names;
    if extensions == [] {
      assert Names(extensions) == [] by { NoNames(); }
    } else {
      var front := extensions[..|extensions| - 1];
      forall j | Owns(front, j) ensures front[j].name != name {
        assert Owns(extensions, j);
      }
      NameAbsent(front, name);
      NamesMore(extensions, name);
      assert Owns(extensions, |extensions| - 1) ==> extensions[|extensions| - 1].name != name;
    }
  }

  lemma NoNames()
    ensures Names([]) == []
  {
  }

  lemma {:induction false} NameOnce(extensions: seq<Extension>, i: nat)
    requires Owns(extensions, i) && NameAlone(extensions, i)
    ensures multiset(Names(extensions))[extensions[i].name] == 1
  {
    hide Names;
    var n := |extensions| - 1;
    var front := extensions[..n];
    NamesMore(extensions, extensions[i].name);
    if i == n {
      forall j | Owns(front, j) ensures front[j].name != extensions[i].name {
        assert Owns(extensions, j);
      }
      NameAbsent(front, extensions[i].name);
    } else {
      forall j | Owns(front, j) && j != i ensures front[j].name != front[i].name {
        assert Owns(extensions, j);
      }
      NameOnce(front, i);
      assert Owns(extensions, n) ==> extensions[n].name != extensions[i].name;
    }
  }

  /** An owner's name is counted more than once exactly when another owner has it. */
  lemma NameCountedIff(extensions: seq<Extension>, i: nat)
    requires Owns(extensions, i)
    ensures multiset(Names(extensions))[extensions[i].name] > 1 <==> !NameAlone(extensions, i)
  {
    if NameAlone(extensions, i) {
      NameOnce(extensions, i);
    } else {
      var j :| Owns(extensions, j) && j != i && extensions[j].name == extensions[i].name;
      if i < j {
        NameCounts(extensions, i, j);
      } else {
        NameCounts(extensions, j, i);
      }
    }
  }

  lemma SoleQualifies(naming: Naming, extensions: seq<Extension>, i: nat)
    requires i < |extensions|
    ensures Sole(naming, Names(extensions), extensions[i]) <==> Qualifies(naming, extensions, i)
  {
    if Owns(extensions, i) {
      NameCountedIff(extensions, i);
    }
  }

  /** A derivation comes from a secret of a sole owner among the first `n` extensions. */
  ghost predicate ComesFrom(naming: Naming, extensions: seq<Extension>, n: nat, d: Derivation, j: int, b: int) {
    && j < n && Qualifies(naming, extensions, j) && 0 <= b < |extensions[j].settings.value.configSecretKeys|
    && d == Derivation(extensions[j].name, extensions[j].settings.value.configSecretKeys[b])
  }

  lemma DerivationsMore(naming: Naming, names: seq<string>, extensions: seq<Extension>, n: nat)
    requires 0 < n <= |extensions|
    ensures var last := extensions[n - 1];
            Derivations(naming, names, extensions[..n])
            == Derivations(naming, names, extensions[..n - 1])
               + if Sole(naming, names, last) then KeysAsDerivations(last.name, last.settings.value.configSecretKeys) else []
  {
    assert extensions[..n][..n - 1] == extensions[..n - 1];
  }

  lemma {:induction false} DerivedFrom(naming: Naming, extensions: seq<Extension>, n: nat, p: nat) returns (j: nat, b: nat)
    requires n <= |extensions| && p < |Derivations(naming, Names(extensions), extensions[..n])|
    ensures ComesFrom(naming, extensions, n, Derivations(naming, Names(extensions), extensions[..n])[p], j, b)
  {
    if n == 0 {
      assert false;
    } else {
      DerivationsMore(naming, Names(extensions), extensions, n);
      hide Names, Sole, Qualifies, Derivations, KeysAsDerivations;
      var front := Derivations(naming, Names(extensions), extensions[..n - 1]);
      if p < |front| {
        j, b := DerivedFrom(naming, extensions, n - 1, p);
      } else {
        SoleQualifies(naming, extensions, n - 1);
        j, b := n - 1, p - |front|;
      }
    }
  }

  lemma OtherName(naming: Naming, extensions: seq<Extension>, n: nat, d: Derivation, j: int, b: int, i: nat)
    requires ComesFrom(naming, extensions, n, d, j, b) && n <= i && Qualifies(naming, extensions, i)
    ensures d.subject != extensions[i].name
  {
    assert Owns(extensions, j);
  }

  predicate NoRepeats(derivations: seq<Derivation>) {
    forall p, q :: 0 <= p < q < |derivations| ==> derivations[p] != derivations[q]
  }

  lemma NoRepeatsJoin(a: seq<Derivation>, b: seq<Derivation>)
    requires NoRepeats(a) && NoRepeats(b) && forall p, q :: 0 <= p < |a| && 0 <= q < |b| ==> a[p] != b[q]
    ensures NoRepeats(a + b)
  {
  }

  /** What one owner adds. */
  lemma OwnDerivations(naming: Naming, extensions: seq<Extension>, i: nat) returns (own: seq<Derivation>)
    requires Proper(extensions) && Owns(extensions, i)
    ensures own == KeysAsDerivations(extensions[i].name, extensions[i].settings.value.configSecretKeys)
    ensures NoRepeats(own) && forall p :: 0 <= p < |own| ==> own[p].subject == extensions[i].name
  {
    own := KeysAsDerivations(extensions[i].name, extensions[i].settings.value.configSecretKeys);
    assert DistinctKeys(extensions[i].settings.value.configSecretKeys);
  }

  /** No derivation stands twice. */
  lemma {:induction false} DerivedOnce(naming: Naming, extensions: seq<Extension>, n: nat)
    requires Proper(extensions) && n <= |extensions|
    ensures NoRepeats(Derivations(naming, Names(extensions), extensions[..n]))
  {
    if n == 0 {
      assert extensions[..0] == [];
    } else {
      DerivationsMore(naming, Names(extensions), extensions, n);
      DerivedOnce(naming, extensions, n - 1);
      SoleQualifies(naming, extensions, n - 1);
      hide Names, Derivations, NoRepeats, KeysAsDerivations, Proper, Sole;
      var front := Derivations(naming, Names(extensions), extensions[..n - 1]);
      if Sole(naming, Names(extensions), extensions[n - 1]) {
        var own := OwnDerivations(naming, extensions, n - 1);
        forall p | 0 <= p < |front| ensures front[p].subject != extensions[n - 1].name {
          var j, b := DerivedFrom(naming, extensions, n - 1, p);
          OtherName(naming, extensions, n - 1, front[p], j, b, n - 1);
        }
        NoRepeatsJoin(front, own);
      } else {
        assert front + [] == front;
      }
    }
  }

  lemma OwnSecretIsDerived(naming: Naming, extensions: seq<Extension>, j: int, b: int, v: string) returns (p: nat)
    requires Qualifies(naming, extensions, j) && ReadsFrom(naming, extensions, j, b, v)
    ensures var all := Derivations(naming, Names(extensions), extensions);
            && p < |all| && Variable(naming, all[p]) == v
            && all[p] == Derivation(extensions[j].name, extensions[j].settings.value.configSecretKeys[b])
  {
    hide Names, Derivations;
    SoleQualifies(naming, extensions, j);
    SoleDerives(naming, Names(extensions), extensions, j, b);
    var all := Derivations(naming, Names(extensions), extensions);
    p :| p < |all| && all[p] == Derivation(extensions[j].name, extensions[j].settings.value.configSecretKeys[b]);
  }

  /** A variable of a sole owner is derived twice exactly when the owner clashes. */
  lemma DerivedTwiceIff(naming: Naming, extensions: seq<Extension>, i: nat)
    requires Proper(extensions) && Qualifies(naming, extensions, i)
    ensures DerivedTwice(naming, Derivations(naming, Names(extensions), extensions), extensions[i].name)
            <==> Clashes(naming, extensions, i)
  {
    hide Names, Derivations;
    var all := Derivations(naming, Names(extensions), extensions);
    assert extensions[..|extensions|] == extensions;
    if DerivedTwice(naming, all, extensions[i].name) {
      var p, q :| && 0 <= p < |all| && 0 <= q < |all| && p != q
                  && all[p].subject == extensions[i].name && Variable(naming, all[p]) == Variable(naming, all[q]);
      var j, a := DerivedFrom(naming, extensions, |extensions|, p);
      var k, b := DerivedFrom(naming, extensions, |extensions|, q);
      assert Owns(extensions, j) && j == i;
      DerivedOnce(naming, extensions, |extensions|);
      var v := Variable(naming, all[p]);
      assert ReadsFrom(naming, extensions, i, a, v) && ReadsFrom(naming, extensions, k, b, v);
    }
    if Clashes(naming, extensions, i) {
      var v, a, j, b :| ReadsFrom(naming, extensions, i, a, v) && ReadsFrom(naming, extensions, j, b, v)
                        && Qualifies(naming, extensions, j) && (i, a) != (j, b);
      var p := OwnSecretIsDerived(naming, extensions, i, a, v);
      var q := OwnSecretIsDerived(naming, extensions, j, b, v);
      DifferentSecrets(naming, extensions, i, a, j, b);
      assert p != q;
    }
  }

  lemma DifferentSecrets(naming: Naming, extensions: seq<Extension>, i: int, a: int, j: int, b: int)
    requires Proper(extensions) && Qualifies(naming, extensions, i) && Qualifies(naming, extensions, j) && (i, a) != (j, b)
    requires 0 <= a < |extensions[i].settings.value.configSecretKeys| && 0 <= b < |extensions[j].settings.value.configSecretKeys|
    ensures Derivation(extensions[i].name, extensions[i].settings.value.configSecretKeys[a])
            != Derivation(extensions[j].name, extensions[j].settings.value.configSecretKeys[b])
  {
    if i == j {
      assert DistinctKeys(extensions[i].settings.value.configSecretKeys);
    } else {
      assert Owns(extensions, j);
    }
  }

  /** Every owner gets the first of these that applies: its name is not valid, another owner has it, one of
      its secrets shares a variable; otherwise it is eligible. */
  ghost predicate RightStatus(naming: Naming, extensions: seq<Extension>, i: nat, status: Status)
    requires i < |extensions|
  {
    if !naming.valid(extensions[i].name) then status == Invalid
    else if !NameAlone(extensions, i) then status == Duplicate
    else if Clashes(naming, extensions, i) then status.Collides?
    else status == Eligible
  }

  lemma StatusesAreRight(naming: Naming, extensions: seq<Extension>, derived: ByVariable, collisions: Collisions, i: nat)
    requires Proper(extensions) && Owns(extensions, i)
    requires Indexes(naming, Derivations(naming, Names(extensions), extensions), derived)
    requires CollisionsOf(derived, derived.Keys, collisions)
    ensures RightStatus(naming, extensions, i, StatusOf(naming, Names(extensions), collisions, extensions[i]))
  {
    hide Names, Derivations, Indexes, CollisionsOf, DerivedTwice, Clashes, NameAlone;
    NameCountedIff(extensions, i);
    if naming.valid(extensions[i].name) && NameAlone(extensions, i) {
      CollidesIff(naming, Derivations(naming, Names(extensions), extensions), derived, collisions, extensions[i].name);
      DerivedTwiceIff(naming, extensions, i);
    }
  }
}
