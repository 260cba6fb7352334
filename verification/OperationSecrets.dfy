/**
 Secret options of flow operations: encrypted on the way in, masked on the way out, decrypted for the runtime.
 */
module OperationSecrets {
  import opened Wrappers

  type Id = nat

  /** An option value.  Whatever carries the envelope marker is `Marked`; if it was sealed here it
      opens, and if not, decryption fails. */
  datatype Value =
    | Null
    | Text(s: string)
    | Other(n: int)
    | Marked(envelope: Envelope)
    | NotAnEnvelope

  /** The cipher is abstract: a sealed value opens to what was sealed, carries the marker, and is otherwise
      unlike any value a client can write as text. */
  datatype Envelope = Sealed(plain: string, salt: nat) | Foreign(content: int)

  type Options = map<string, Value>

  const SECRET_MASK: string := "**********"

  datatype Operation = Operation(kind: string, options: Options)

  datatype Failure =
    | MaskWithoutSecret
    | NotText
    | Reclassified
    | ManyOperations

  /** `undefined`, `null` and the empty string. */
  predicate Empty(options: Options, key: string) {
    key !in options || options[key] == Null || options[key] == Text("")
  }

  predicate HasMarker(options: Options, key: string) {
    key in options && options[key].Marked?
  }

  predicate IsMask(options: Options, key: string) {
    key in options && options[key] == Text(SECRET_MASK)
  }

  // ----- the registry -----

  class Registry {
    var declared: map<string, set<string>>

    constructor ()
      ensures declared == map[]
    {
      declared := map[];
    }

    /** Declarations for one type unite. */
    method Register(kind: string, keys: seq<string>)
      modifies this
      ensures declared.Keys == old(declared).Keys + {kind}
      ensures forall other :: other != kind ==> DeclaredIn(declared, other) == DeclaredIn(old(declared), other)
      ensures forall k :: k in DeclaredIn(declared, kind) <==> k in DeclaredIn(old(declared), kind) || k in keys
    {
      var existing := DeclaredIn(declared, kind);
      for i := 0 to |keys|
        invariant forall k :: k in existing <==> k in DeclaredIn(declared, kind) || k in keys[..i]
      {
        assert keys[..i + 1] == keys[..i] + [keys[i]];
        existing := existing + {keys[i]};
      }
      assert keys[..|keys|] == keys;
      declared := declared[kind := existing];
    }
  }

  function DeclaredIn(declared: map<string, set<string>>, kind: string): set<string> {
    if kind in declared then declared[kind] else {}
  }

  // ----- encryption -----

  /** What encrypting the declared keys makes of the options of a payload. */
  ghost predicate Encrypts(options: Options, keys: set<string>, existing: Option<Options>, result: Options) {
    && result.Keys == options.Keys
    && forall k :: k in options ==>
         if k !in keys || Empty(options, k) then result[k] == options[k]
         else if IsMask(options, k) then existing.Some? && HasMarker(existing.value, k) && result[k] == existing.value[k]
         else options[k].Text? && SealOf(result[k], options[k].s)
  }

  predicate SealOf(v: Value, plain: string) {
    v.Marked? && v.envelope.Sealed? && v.envelope.plain == plain
  }

  /** Why a declared key can fail a write. */
  predicate Offends(options: Options, key: string, existing: Option<Options>) {
    && !Empty(options, key)
    && if IsMask(options, key) then existing.None? || !HasMarker(existing.value, key) else !options[key].Text?
  }

  method EncryptSecret(plain: string) returns (v: Value)
    ensures SealOf(v, plain)
  {
    var salt: nat := *;
    v := Marked(Sealed(plain, salt));
  }

  method EncryptDeclared(options: Options, keys: set<string>, existing: Option<Options>) returns (r: Result<Options, Failure>)
    ensures r.Err? <==> exists k :: k in keys && Offends(options, k, existing)
    ensures r.Ok? ==> Encrypts(options, keys, existing, r.value)
  {
    var result := options;
    var left := keys;
    while left != {}
      invariant left <= keys
      invariant forall k :: k in keys - left ==> !Offends(options, k, existing)
      invariant forall k :: k in left && k in options ==> k in result && result[k] == options[k]
      invariant Encrypts(options, keys - left, existing, result)
      decreases |left|
    {
      var key :| key in left;
      if !Empty(options, key) {
        if IsMask(options, key) {
          if existing.None? || !HasMarker(existing.value, key) {
            return Err(MaskWithoutSecret);
          }
          result := result[key := existing.value[key]];
        } else if !options[key].Text? {
          return Err(NotText);
        } else {
          var sealed := EncryptSecret(options[key].s);
          result := result[key := sealed];
        }
      }
      left := left - {key};
    }
    assert keys - left == keys;
    r := Ok(result);
  }

  // ----- the operations -----

  type Rows = map<Id, Operation>

  /** A declared secret is never in the clear: what is stored of it is null, the empty string or an
      envelope. */
  ghost predicate Safe(declared: map<string, set<string>>, rows: Rows) {
    forall id, k ::
      && id in rows && rows[id].kind in declared && k in declared[rows[id].kind] && k in rows[id].options ==>
        var v := rows[id].options[k];
        v == Null || v == Text("") || v.Marked?
  }

  ghost predicate Created(declared: map<string, set<string>>, rows: Rows, id: Id, kind: string, options: Options, after: Rows) {
    && id in after && after[id].kind == kind
    && Encrypts(options, DeclaredIn(declared, kind), None, after[id].options)
    && after == rows[id := after[id]]
  }

  function KindAfter(op: Operation, kind: Option<string>): string {
    if kind.Some? then kind.value else op.kind
  }

  /** One row after an accepted update: the type if it was given, and the options if they were,
      with the secrets of the type the row then has encrypted. */
  ghost predicate RowUpdated(declared: map<string, set<string>>, was: Operation, kind: Option<string>, options: Option<Options>, now: Operation) {
    && now.kind == KindAfter(was, kind)
    && if options.Some? then Encrypts(options.value, DeclaredIn(declared, now.kind), Some(was.options), now.options)
       else now.options == was.options
            && forall k :: k in DeclaredIn(declared, now.kind) && kind.Some? ==> Empty(was.options, k) || HasMarker(was.options, k)
  }

  ghost predicate Updated(declared: map<string, set<string>>, rows: Rows, ids: seq<Id>, kind: Option<string>,
                          options: Option<Options>, after: Rows)
  {
    && after.Keys == rows.Keys
    && forall id :: id in rows ==>
         if id in ids then RowUpdated(declared, rows[id], kind, options, after[id]) else after[id] == rows[id]
  }

  class Operations {
    const registry: Registry
    var rows: Rows

    constructor (registry: Registry)
      ensures this.registry == registry && rows == map[]
    {
      this.registry := registry;
      rows := map[];
    }

    method Create(id: Id, kind: string, options: Options) returns (failure: Option<Failure>)
      requires id !in rows
      modifies this
      ensures failure.Some? <==> exists k :: k in DeclaredIn(registry.declared, kind) && Offends(options, k, None)
      ensures failure.Some? ==> rows == old(rows)
      ensures failure.None? ==> Created(registry.declared, old(rows), id, kind, options, rows)
    {
      var keys := DeclaredIn(registry.declared, kind);
      if |keys| == 0 {
        assert keys == {};
        rows := rows[id := Operation(kind, options)];
        return None;
      }
      var encrypted := EncryptDeclared(options, keys, None);
      if encrypted.Err? {
        return Some(encrypted.failure);
      }
      rows := rows[id := Operation(kind, encrypted.value)];
      failure := None;
    }

    /** `updateMany` with a payload that may carry a type and options. */
    method Update(ids: seq<Id>, kind: Option<string>, options: Option<Options>) returns (failure: Option<Failure>)
      modifies this
      ensures failure.Some? ==> rows == old(rows)
      ensures failure.None? ==> Updated(registry.declared, old(rows), ids, kind, options, rows)
      ensures failure.Some? <==>
                if options.None? then
                  kind.Some? && exists id :: id in ids && id in old(rows) && Reclassifies(registry.declared, old(rows)[id].options, kind.value)
                else
                  && Declaring(registry.declared, old(rows), ids, kind)
                  && (|ids| > 1 || exists k :: k in DeclaredIn(registry.declared, TargetKind(old(rows), ids, kind))
                                     && Offends(options.value, k, TargetOptions(old(rows), ids)))
      ensures options.Some? && |ids| > 1 ==>
                (failure.Some? <==>
                 if kind.Some? then HasSecrets(registry.declared, kind.value)
                 else exists id :: id in ids && id in old(rows) && HasSecrets(registry.declared, old(rows)[id].kind))
    {
      TypesDeclare(registry.declared, rows, ids, kind);
      if options.None? {
        failure := GateReclassification(ids, kind);
        if failure.None? {
          rows := WithKind(rows, ids, kind);
        }
        return;
      }
      if !Declaring(registry.declared, rows, ids, kind) {
        NothingDeclared(registry.declared, rows, ids, kind, options.value);
        rows := WithOptions(rows, ids, kind, options.value);
        return None;
      }
      if |ids| > 1 {
        return Some(ManyOperations);
      }
      var keys := DeclaredIn(registry.declared, TargetKind(rows, ids, kind));
      var encrypted := EncryptDeclared(options.value, keys, TargetOptions(rows, ids));
      if encrypted.Err? {
        return Some(encrypted.failure);
      }
      rows := WithOptions(rows, ids, kind, encrypted.value);
      failure := None;
    }

    /** A change of type alone must not declare a stored cleartext secret. */
    method GateReclassification(ids: seq<Id>, kind: Option<string>) returns (failure: Option<Failure>)
      ensures failure.Some? <==>
                kind.Some? && exists id :: id in ids && id in rows && Reclassifies(registry.declared, rows[id].options, kind.value)
    {
      if kind.None? || |DeclaredIn(registry.declared, kind.value)| == 0 {
        assert kind.Some? ==> DeclaredIn(registry.declared, kind.value) == {};
        return None;
      }
      for i := 0 to |ids|
        invariant forall j :: 0 <= j < i && ids[j] in rows ==> !Reclassifies(registry.declared, rows[ids[j]].options, kind.value)
      {
        if ids[i] in rows && Reclassifies(registry.declared, rows[ids[i]].options, kind.value) {
          return Some(Reclassified);
        }
      }
      failure := None;
    }
  }

  predicate Reclassifies(declared: map<string, set<string>>, options: Options, kind: string) {
    exists k :: k in DeclaredIn(declared, kind) && !Empty(options, k) && !HasMarker(options, k)
  }

  /** Whether a type that the rows have or get declares secrets. */
  predicate Declaring(declared: map<string, set<string>>, rows: Rows, ids: seq<Id>, kind: Option<string>) {
    || (kind.Some? && DeclaredIn(declared, kind.value) != {})
    || (kind.None? && exists i :: 0 <= i < |ids| && ids[i] in rows && DeclaredIn(declared, rows[ids[i]].kind) != {})
  }

  /** The registry has a secret key for the type. */
  predicate HasSecrets(declared: map<string, set<string>>, kind: string) {
    kind in declared && exists k :: k in declared[kind]
  }

  lemma TypesDeclare(declared: map<string, set<string>>, rows: Rows, ids: seq<Id>, kind: Option<string>)
    ensures Declaring(declared, rows, ids, kind) <==>
            if kind.Some? then HasSecrets(declared, kind.value)
            else exists id :: id in ids && id in rows && HasSecrets(declared, rows[id].kind)
  {
    forall t ensures DeclaredIn(declared, t) != {} <==> HasSecrets(declared, t) {
      if DeclaredIn(declared, t) != {} {
        var k :| k in DeclaredIn(declared, t);
      }
    }
    if kind.None? {
      if id :| id in ids && id in rows && HasSecrets(declared, rows[id].kind) {
        var i :| 0 <= i < |ids| && ids[i] == id;
      }
    }
  }

  function TargetKind(rows: Rows, ids: seq<Id>, kind: Option<string>): string {
    if kind.Some? then kind.value
    else if ids != [] && ids[0] in rows then rows[ids[0]].kind
    else ""
  }

  function TargetOptions(rows: Rows, ids: seq<Id>): Option<Options> {
    if ids != [] && ids[0] in rows then Some(rows[ids[0]].options) else None
  }

  function WithKind(rows: Rows, ids: seq<Id>, kind: Option<string>): Rows {
    map id | id in rows :: if id in ids then Operation(KindAfter(rows[id], kind), rows[id].options) else rows[id]
  }

  function WithOptions(rows: Rows, ids: seq<Id>, kind: Option<string>, options: Options): Rows {
    map id | id in rows :: if id in ids then Operation(KindAfter(rows[id], kind), options) else rows[id]
  }

  lemma NothingDeclared(declared: map<string, set<string>>, rows: Rows, ids: seq<Id>, kind: Option<string>, options: Options)
    requires !Declaring(declared, rows, ids, kind)
    ensures Updated(declared, rows, ids, kind, Some(options), WithOptions(rows, ids, kind, options))
  {
    forall id | id in rows && id in ids ensures DeclaredIn(declared, KindAfter(rows[id], kind)) == {} {
      var i :| 0 <= i < |ids| && ids[i] == id;
    }
  }

  // ----- never in the clear -----

  lemma EncryptedIsSafe(options: Options, keys: set<string>, existing: Option<Options>, result: Options, k: string)
    requires Encrypts(options, keys, existing, result) && k in keys
    ensures Empty(result, k) || HasMarker(result, k)
  {
  }

  lemma CreateKeepsSafe(declared: map<string, set<string>>, rows: Rows, id: Id, kind: string, options: Options, after: Rows)
    requires Safe(declared, rows) && Created(declared, rows, id, kind, options, after)
    ensures Safe(declared, after)
  {
    forall k | k in DeclaredIn(declared, kind) ensures Empty(after[id].options, k) || HasMarker(after[id].options, k) {
      EncryptedIsSafe(options, DeclaredIn(declared, kind), None, after[id].options, k);
    }
  }

  /** One declared key of one row. */
  predicate KeySafe(row: Operation, k: string) {
    Empty(row.options, k) || HasMarker(row.options, k)
  }

  lemma SafeMeans(declared: map<string, set<string>>, rows: Rows)
    ensures Safe(declared, rows)
            <==> forall id, k :: id in rows && k in DeclaredIn(declared, rows[id].kind) ==> KeySafe(rows[id], k)
  {
    forall id, k | id in rows && k in DeclaredIn(declared, rows[id].kind)
      ensures KeySafe(rows[id], k) <==>
              (k in rows[id].options ==>
                 var v := rows[id].options[k];
                 v == Null || v == Text("") || v.Marked?)
    {
    }
  }

  lemma UpdateKeepsSafe(declared: map<string, set<string>>, rows: Rows, ids: seq<Id>, kind: Option<string>,
                        options: Option<Options>, after: Rows)
    requires Safe(declared, rows) && Updated(declared, rows, ids, kind, options, after)
    ensures Safe(declared, after)
  {
    SafeMeans(declared, rows);
    SafeMeans(declared, after);
    forall id, k | id in after && k in DeclaredIn(declared, after[id].kind) ensures KeySafe(after[id], k) {
      assert id in ids || KeySafe(rows[id], k);
      if id in ids && options.Some? {
        EncryptedIsSafe(options.value, DeclaredIn(declared, after[id].kind), Some(rows[id].options), after[id].options, k);
      }
    }
  }

  /** An accepted request. */
  datatype Request =
    | Creation(id: Id, created: string, initial: Options)
    | Change(ids: seq<Id>, kind: Option<string>, options: Option<Options>)
    | Removal(removed: set<Id>)

  ghost predicate Accepted(declared: map<string, set<string>>, rows: Rows, request: Request, after: Rows) {
    match request
    case Creation(id, kind, options) => id !in rows && Created(declared, rows, id, kind, options, after)
    case Change(ids, kind, options) => Updated(declared, rows, ids, kind, options, after)
    case Removal(removed) => after == map id | id in rows && id !in removed :: rows[id]
  }

  ghost predicate IsRun(declared: map<string, set<string>>, states: seq<Rows>, requests: seq<Request>) {
    && |states| == |requests| + 1
    && forall i :: 0 <= i < |requests| ==> Accepted(declared, states[i], requests[i], states[i + 1])
  }

  /** Over every run of accepted requests no declared secret is ever stored in the clear. */
  lemma {:induction false} NeverInTheClear(declared: map<string, set<string>>, states: seq<Rows>, requests: seq<Request>, n: nat)
    requires IsRun(declared, states, requests) && n < |states| && states[0] == map[]
    ensures Safe(declared, states[n])
  {
    if n > 0 {
      NeverInTheClear(declared, states, requests, n - 1);
      assert Accepted(declared, states[n - 1], requests[n - 1], states[n]);
      match requests[n - 1] {
        case Creation(id, kind, options) => CreateKeepsSafe(declared, states[n - 1], id, kind, options, states[n]);
        case Change(ids, kind, options) => UpdateKeepsSafe(declared, states[n - 1], ids, kind, options, states[n]);
        case Removal(_) =>
      }
    }
  }

  // ----- reading -----

  /** What a reader outside gets to see of the options. */
  ghost predicate Masks(options: Options, keys: set<string>, masked: Options) {
    && masked.Keys == options.Keys
    && forall k :: k in options ==>
         masked[k] == if !Empty(options, k) && (options[k].Marked? || k in keys) then Text(SECRET_MASK) else options[k]
  }

  method MaskOperationOptions(options: Options, keys: set<string>) returns (masked: Options)
    ensures Masks(options, keys, masked)
  {
    masked := options;
    var left := options.Keys;
    while left != {}
      invariant left <= options.Keys && masked.Keys == options.Keys
      invariant forall k :: k in left ==> masked[k] == options[k]
      invariant forall k :: k in options && k !in left ==>
                  masked[k] == if !Empty(options, k) && (options[k].Marked? || k in keys) then Text(SECRET_MASK) else options[k]
      decreases |left|
    {
      var key :| key in left;
      if !Empty(options, key) && (options[key].Marked? || key in keys) {
        masked := masked[key := Text(SECRET_MASK)];
      }
      left := left - {key};
    }
  }

  /** No envelope and no declared secret is shown. */
  lemma NothingSecretIsShown(options: Options, keys: set<string>, masked: Options, k: string)
    requires Masks(options, keys, masked) && k in masked
    ensures !masked[k].Marked?
    ensures k in keys ==> masked[k] == Null || masked[k] == Text("") || masked[k] == Text(SECRET_MASK)
  {
  }

  /** A masked read written back is accepted and leaves the stored options as they were, exactly when
      no envelope sits under a key that is not declared. */
  lemma WriteBackChangesNothingIff(options: Options, keys: set<string>, masked: Options, result: Options)
    requires forall k :: k in keys ==> Empty(options, k) || HasMarker(options, k)
    requires Masks(options, keys, masked)
    requires Encrypts(masked, keys, Some(options), result)
    ensures forall k :: k in keys ==> !Offends(masked, k, Some(options))
    ensures result == options <==> forall k :: k in options && options[k].Marked? ==> k in keys
  {
    forall k | k in options ensures result[k] == options[k] <==> (options[k].Marked? ==> k in keys) {
      if k in keys && HasMarker(options, k) {
        assert IsMask(masked, k);
      }
    }
  }

  // ----- the runtime -----

  function Open(v: Value): Value {
    if v.Marked? then (if v.envelope.Sealed? then Text(v.envelope.plain) else v) else NotAnEnvelope
  }

  /** What a handler is given for a declared key. */
  function RuntimeValue(options: Options, k: string): Option<Value> {
    if k !in options then None
    else if Empty(options, k) then Some(options[k])
    else Some(Open(options[k]))
  }

  /** One visit of a reference key, and as many as the list has. */
  function Visited(v: Value, times: nat): Value {
    if times == 0 then v
    else
      var before := Visited(v, times - 1);
      if before == Null || before == Text("") then before else Open(before)
  }

  function Occurrences(keys: seq<string>, k: string): nat {
    if keys == [] then 0
    else Occurrences(keys[..|keys| - 1], k) + if keys[|keys| - 1] == k then 1 else 0
  }

  method DecryptOperationOptions(options: Options, referenceKeys: seq<string>) returns (resolved: Options)
    ensures resolved.Keys == options.Keys
    ensures forall k :: k in options ==> resolved[k] == Visited(options[k], Occurrences(referenceKeys, k))
  {
    resolved := options;
    for i := 0 to |referenceKeys|
      invariant resolved.Keys == options.Keys
      invariant forall k :: k in options ==> resolved[k] == Visited(options[k], Occurrences(referenceKeys[..i], k))
    {
      hide Visited, Open, Occurrences;
      assert referenceKeys[..i + 1][..i] == referenceKeys[..i];
      var key := referenceKeys[i];
      forall k ensures Occurrences(referenceKeys[..i + 1], k) == Occurrences(referenceKeys[..i], k) + if k == key then 1 else 0 {
        OccursMore(referenceKeys[..i], key, k);
        assert referenceKeys[..i] + [key] == referenceKeys[..i + 1];
      }
      if key in options {
        VisitMore(options[key], Occurrences(referenceKeys[..i], key));
      }
      if !Empty(resolved, key) {
        resolved := resolved[key := Open(resolved[key])];
      }
    }
    assert referenceKeys[..|referenceKeys|] == referenceKeys;
  }

  lemma OccursMore(keys: seq<string>, key: string, k: string)
    ensures Occurrences(keys + [key], k) == Occurrences(keys, k) + if k == key then 1 else 0
  {
    assert (keys + [key])[..|keys|] == keys;
  }

  lemma VisitMore(v: Value, times: nat)
    ensures var before := Visited(v, times);
            Visited(v, times + 1) == if before == Null || before == Text("") then before else Open(before)
  {
  }

  /** However often a key is listed, its value is the runtime value exactly when it is empty, or listed
      once, or not listed and opening changes nothing, or listed again and not a sealed text: what the
      first visit opened is no envelope to the next one. */
  lemma {:induction false} VisitsAreRuntimeIff(options: Options, k: string, times: nat)
    requires k in options
    ensures Some(Visited(options[k], times)) == RuntimeValue(options, k)
            <==> || Empty(options, k)
                 || times == 1
                 || (times == 0 && Open(options[k]) == options[k])
                 || (times >= 2 && !(options[k].Marked? && options[k].envelope.Sealed? && options[k].envelope.plain != ""))
  {
    var v := options[k];
    assert Visited(v, 0) == v;
    if times >= 2 {
      VisitedAgain(v, times - 2);
    } else if times == 1 {
      assert Visited(v, 1) == if Empty(options, k) then v else Open(v);
    }
  }

  /** What is left after two visits and more. */
  lemma {:induction false} VisitedAgain(v: Value, more: nat)
    ensures var once := if v == Null || v == Text("") then v else Open(v);
            Visited(v, more + 2) == if once == Null || once == Text("") then once else Open(once)
  {
    assert Visited(v, 0) == v;
    assert Visited(v, 1) == if v == Null || v == Text("") then v else Open(v);
    if more > 0 {
      VisitedAgain(v, more - 1);
    }
  }

  /** What the writer of one update means by it: a mask stands for what is there. */
  function Meant(before: Option<Value>, options: Option<Options>, k: string): Option<Value> {
    if options.None? then before
    else if k !in options.value then None
    else if IsMask(options.value, k) then before
    else Some(options.value[k])
  }

  lemma UpdateIsMeant(declared: map<string, set<string>>, was: Operation, kind: Option<string>, options: Option<Options>,
                      now: Operation, k: string)
    requires RowUpdated(declared, was, kind, options, now) && k in DeclaredIn(declared, now.kind)
    ensures RuntimeValue(now.options, k) == Meant(RuntimeValue(was.options, k), options, k)
  {
    if options.Some? && IsMask(options.value, k) {
      assert !Empty(options.value, k) by {
        assert |SECRET_MASK| == 10;
      }
    }
  }

  /** The last cleartext written, looking through masks and updates that leave the options alone. */
  function LastMeant(initial: Option<Value>, changes: seq<Option<Options>>, k: string): Option<Value> {
    if changes == [] then initial
    else Meant(LastMeant(initial, changes[..|changes| - 1], k), changes[|changes| - 1], k)
  }

  /** A row through a series of accepted updates. */
  ghost predicate RowRun(declared: map<string, set<string>>, states: seq<Operation>, kinds: seq<Option<string>>,
                         changes: seq<Option<Options>>)
  {
    && |states| == |changes| + 1 && |kinds| == |changes|
    && forall i :: 0 <= i < |changes| ==> RowUpdated(declared, states[i], kinds[i], changes[i], states[i + 1])
  }

  /** As long as the key stays declared, the runtime is given the last cleartext that was written. */
  lemma {:induction false} RuntimeSeesTheLastWritten(declared: map<string, set<string>>, states: seq<Operation>,
                                                     kinds: seq<Option<string>>, changes: seq<Option<Options>>, k: string, n: nat)
    requires RowRun(declared, states, kinds, changes) && n < |states|
    requires forall i :: 0 <= i < |states| ==> k in DeclaredIn(declared, states[i].kind)
    ensures RuntimeValue(states[n].options, k) == LastMeant(RuntimeValue(states[0].options, k), changes[..n], k)
  {
    if n > 0 {
      RuntimeSeesTheLastWritten(declared, states, kinds, changes, k, n - 1);
      assert changes[..n][..n - 1] == changes[..n - 1];
      UpdateIsMeant(declared, states[n - 1], kinds[n - 1], changes[n - 1], states[n], k);
    }
  }
}
