/**
 `processO2M` with an array of children: link the listed ones, create the new ones, and let go of
 whoever was linked and is not listed.  All in place, on the table of the children.
 */
module Reconciling {
  import opened Wrappers

  type Key = nat
  type Content = map<string, int>

  /** A child row: the parent its foreign key names, and everything else. */
  datatype Child = Child(parent: Option<Key>, content: Content)

  type Rows = map<Key, Child>

  /** An entry of the array: a bare key, or an object, which may name a key and may name the foreign
      key itself. */
  datatype Entry =
    | Bare(key: Key)
    | Record(pk: Option<Key>, reverse: Option<Option<Key>>, content: Content)

  datatype Failure = Forbidden | Conflict

  /** A record to upsert; `link` says whether it carries the foreign key. */
  datatype Upsert = Upsert(pk: Option<Key>, link: bool, content: Content)

  datatype Resolution =
    | Keep(key: Key)         // linked already and nothing to write
    | Write(record: Upsert)
    | Fail(failure: Failure)

  /** How one entry is understood.  A bare key counts as linked when it is linked to the parent, or
      to the key the payload itself carries. */
  function Resolve(rows: Rows, parent: Key, payloadKey: Option<Key>, e: Entry): Resolution {
    match e
    case Bare(k) =>
      if k !in rows then Fail(Forbidden)
      else if rows[k].parent.Some? && (rows[k].parent == Some(parent) || rows[k].parent == payloadKey) then Keep(k)
      else Write(Upsert(Some(k), true, map[]))
    case Record(pk, reverse, content) =>
      if reverse.Some? && reverse.value != Some(parent) then Fail(Conflict)
      else if pk.None? || pk.value !in rows then Write(Upsert(pk, true, content))
      else
        var linked := rows[pk.value].parent == Some(parent);
        if linked && reverse.None? && content == map[] then Keep(pk.value)
        else Write(Upsert(pk, reverse.Some? || !linked, content))
  }

  /** A bare key of no row, or an object that links to another parent. */
  predicate Offends(rows: Rows, parent: Key, e: Entry) {
    match e
    case Bare(k) => k !in rows
    case Record(_, reverse, _) => reverse.Some? && reverse.value != Some(parent)
  }

  // ----- the specification -----

  function Kept(rows: Rows, parent: Key, payloadKey: Option<Key>, entries: seq<Entry>): seq<Key> {
    if entries == [] then []
    else
      var r := Resolve(rows, parent, payloadKey, entries[|entries| - 1]);
      Kept(rows, parent, payloadKey, entries[..|entries| - 1]) + if r.Keep? then [r.key] else []
  }

  function Records(rows: Rows, parent: Key, payloadKey: Option<Key>, entries: seq<Entry>): seq<Upsert> {
    if entries == [] then []
    else
      var r := Resolve(rows, parent, payloadKey, entries[|entries| - 1]);
      Records(rows, parent, payloadKey, entries[..|entries| - 1]) + if r.Write? then [r.record] else []
  }

  function WriteOne(rows: Rows, parent: Key, u: Upsert, k: Key): Rows {
    if k in rows then
      rows[k := Child(if u.link then Some(parent) else rows[k].parent, rows[k].content + u.content)]
    else
      rows[k := Child(if u.link then Some(parent) else None, u.content)]
  }

  function WriteAll(rows: Rows, parent: Key, records: seq<Upsert>, keys: seq<Key>): Rows
    requires |keys| == |records|
  {
    if records == [] then rows
    else
      var n := |records| - 1;
      WriteOne(WriteAll(rows, parent, records[..n], keys[..n]), parent, records[n], keys[n])
  }

  /** The keys of upserted records: their own, or new ones. */
  ghost predicate KeysOf(rows: Rows, parent: Key, records: seq<Upsert>, keys: seq<Key>) {
    && |keys| == |records|
    && forall i :: 0 <= i < |records| ==>
         if records[i].pk.Some? then keys[i] == records[i].pk.value
         else keys[i] !in WriteAll(rows, parent, records[..i], keys[..i])
  }

  /** The rows the clean-up query is after: linked to the parent and not saved. */
  function Unlisted(rows: Rows, parent: Key, saved: seq<Key>): set<Key> {
    set k | k in rows && rows[k].parent == Some(parent) && k !in saved
  }

  function LetGo(rows: Rows, keys: set<Key>, delete: bool): Rows {
    if delete then map k | k in rows && k !in keys :: rows[k]
    else map k | k in rows :: if k in keys then Child(None, rows[k].content) else rows[k]
  }

  /** What `getKeysByQuery` finds of them: as many as one read holds, and of these none whose key
      is falsy. */
  ghost predicate Found(unlisted: set<Key>, limit: int, found: set<Key>) {
    exists read: set<Key> ::
      && read <= unlisted
      && (limit < 0 || |unlisted| <= limit ==> read == unlisted)
      && (0 <= limit < |unlisted| ==> |read| == limit)
      && found == read - {0}
  }

  // ----- the procedure -----

  class ChildTable {
    var rows: Rows

    constructor (rows: Rows)
      ensures this.rows == rows
    {
      this.rows := rows;
    }

    method UpsertOne(parent: Key, record: Upsert) returns (key: Key)
      modifies this
      ensures record.pk.Some? ==> key == record.pk.value
      ensures record.pk.None? ==> key !in old(rows)
      ensures rows == WriteOne(old(rows), parent, record, key)
    {
      if record.pk.Some? && record.pk.value in rows {
        key := record.pk.value;
        var row := rows[key];
        rows := rows[key := Child(if record.link then Some(parent) else row.parent, row.content + record.content)];
      } else {
        if record.pk.Some? {
          key := record.pk.value;
        } else {
          key := NewKey(rows.Keys);
        }
        rows := rows[key := Child(if record.link then Some(parent) else None, record.content)];
      }
    }

    method UpsertMany(parent: Key, records: seq<Upsert>) returns (keys: seq<Key>)
      modifies this
      ensures KeysOf(old(rows), parent, records, keys)
      ensures rows == WriteAll(old(rows), parent, records, keys)
    {
      keys := [];
      for i := 0 to |records|
        invariant KeysOf(old(rows), parent, records[..i], keys)
        invariant rows == WriteAll(old(rows), parent, records[..i], keys)
      {
        ghost var before := keys;
        var key := UpsertOne(parent, records[i]);
        assert records[..i + 1][..i] == records[..i];
        keys := keys + [key];
        assert keys[..i] == before;
        KeysMore(old(rows), parent, records[..i], before, records[i], key);
        assert records[..i] + [records[i]] == records[..i + 1];
      }
      assert records[..|records|] == records;
    }

    /** `updateByQuery` and `deleteByQuery` on the rows not listed. */
    method CleanUp(parent: Key, saved: seq<Key>, delete: bool, limit: int) returns (ghost found: set<Key>)
      modifies this
      ensures Found(Unlisted(old(rows), parent, saved), limit, found)
      ensures rows == LetGo(old(rows), found, delete)
    {
      var unlisted := Unlisted(rows, parent, saved);
      var read := ReadSome(unlisted, limit);
      var keys := read - {0};
      found := keys;
      if |keys| == 0 {
        assert keys == {};
        return;
      }
      if delete {
        rows := map k | k in rows && k !in keys :: rows[k];
      } else {
        rows := map k | k in rows :: if k in keys then Child(None, rows[k].content) else rows[k];
      }
    }

    /** The whole reconciliation.  An entry that cannot be resolved fails it before anything is
        written. */
    method ProcessO2M(parent: Key, payloadKey: Option<Key>, entries: seq<Entry>, delete: bool, limit: int)
      returns (failure: Option<Failure>, saved: seq<Key>, ghost written: seq<Key>, ghost found: set<Key>)
      modifies this
      ensures failure.None? <==> forall i :: 0 <= i < |entries| ==> !Resolve(old(rows), parent, payloadKey, entries[i]).Fail?
      ensures failure.None? <==> forall i :: 0 <= i < |entries| ==> !Offends(old(rows), parent, entries[i])
      ensures failure.Some? ==>
                && rows == old(rows)
                && exists i :: 0 <= i < |entries| && Resolve(old(rows), parent, payloadKey, entries[i]) == Fail(failure.value)
                     && forall j :: 0 <= j < i ==> !Resolve(old(rows), parent, payloadKey, entries[j]).Fail?
      ensures failure.None? ==>
                Succeeded(old(rows), parent, payloadKey, entries, delete, limit, written, found, saved, rows)
    {
      var records: seq<Upsert> := [];
      saved := [];
      written, found := [], {};
      for i := 0 to |entries|
        invariant rows == old(rows)
        invariant forall j :: 0 <= j < i ==> !Resolve(old(rows), parent, payloadKey, entries[j]).Fail?
        invariant saved == Kept(rows, parent, payloadKey, entries[..i])
        invariant records == Records(rows, parent, payloadKey, entries[..i])
      {
        assert entries[..i + 1][..i] == entries[..i];
        var r := ResolveEntry(parent, payloadKey, entries[i]);
        match r {
          case Fail(f) =>
            failure := Some(f);
            return;
          case Keep(k) =>
            saved := saved + [k];
          case Write(record) =>
            records := records + [record];
        }
      }
      assert entries[..|entries|] == entries;
      var keys := UpsertMany(parent, records);
      saved := saved + keys;
      written := keys;
      found := CleanUp(parent, saved, delete, limit);
      failure := None;
    }

    method ResolveEntry(parent: Key, payloadKey: Option<Key>, e: Entry) returns (r: Resolution)
      ensures r == Resolve(rows, parent, payloadKey, e)
    {
      match e {
        case Bare(k) =>
          if k !in rows {
            return Fail(Forbidden);
          }
          var existing := rows[k];
          if existing.parent.Some? && (existing.parent == Some(parent) || existing.parent == payloadKey) {
            return Keep(k);
          }
          r := Write(Upsert(Some(k), true, map[]));
        case Record(pk, reverse, content) =>
          if reverse.Some? && reverse.value != Some(parent) {
            return Fail(Conflict);
          }
          if pk.None? || pk.value !in rows {
            return Write(Upsert(pk, true, content));
          }
          var alreadyLinked := rows[pk.value].parent == Some(parent);
          if alreadyLinked && reverse.None? && content == map[] {
            return Keep(pk.value);
          }
          r := Write(Upsert(pk, reverse.Some? || !alreadyLinked, content));
      }
    }
  }

  /** A key the database has not used. */
  method NewKey(used: set<Key>) returns (key: Key)
    ensures key !in used
  {
    key := 0;
    var left := used;
    while left != {}
      invariant left <= used
      invariant forall j :: j in used && j !in left ==> j < key
      decreases |left|
    {
      var k :| k in left;
      left := left - {k};
      key := if k < key then key else k + 1;
    }
  }

  /** One read of at most `limit` keys; which ones is up to the order of the collection. */
  method ReadSome(keys: set<Key>, limit: int) returns (read: set<Key>)
    ensures read <= keys
    ensures limit < 0 || |keys| <= limit ==> read == keys
    ensures 0 <= limit < |keys| ==> |read| == limit
  {
    if limit < 0 {
      return keys;
    }
    var left := keys;
    read := {};
    while left != {} && |read| < limit
      invariant read <= keys && left == keys - read && |read| <= limit
      invariant |left| + |read| == |keys|
      decreases |left|
    {
      var k :| k in left;
      read := read + {k};
      left := left - {k};
    }
  }

  lemma KeysMore(rows: Rows, parent: Key, records: seq<Upsert>, keys: seq<Key>, record: Upsert, key: Key)
    requires KeysOf(rows, parent, records, keys)
    requires if record.pk.Some? then key == record.pk.value else key !in WriteAll(rows, parent, records, keys)
    ensures KeysOf(rows, parent, records + [record], keys + [key])
    ensures WriteAll(rows, parent, records + [record], keys + [key])
            == WriteOne(WriteAll(rows, parent, records, keys), parent, record, key)
  {
    var n := |records|;
    assert (records + [record])[..n] == records && (keys + [key])[..n] == keys;
    forall i | 0 <= i < n
      ensures (records + [record])[..i] == records[..i] && (keys + [key])[..i] == keys[..i]
    {
    }
  }

  /** What a successful reconciliation leaves. */
  ghost predicate Reconciled(rows: Rows, parent: Key, payloadKey: Option<Key>, entries: seq<Entry>, delete: bool, limit: int,
                             written: seq<Key>, found: set<Key>, saved: seq<Key>, after: Rows)
  {
    var records := Records(rows, parent, payloadKey, entries);
    && KeysOf(rows, parent, records, written)
    && saved == Kept(rows, parent, payloadKey, entries) + written
    && var upserted := WriteAll(rows, parent, records, written);
       && Found(Unlisted(upserted, parent, saved), limit, found)
       && after == LetGo(upserted, found, delete)
  }

  // ----- what the writes do -----

  lemma {:induction false} WritesElsewhere(rows: Rows, parent: Key, records: seq<Upsert>, keys: seq<Key>, k: Key)
    requires |keys| == |records| && k !in keys
    ensures var w := WriteAll(rows, parent, records, keys); (k in w <==> k in rows) && (k in rows ==> w[k] == rows[k])
  {
    if records != [] {
      var n := |records| - 1;
      assert keys[n] in keys && forall j :: j in keys[..n] ==> j in keys;
      WritesElsewhere(rows, parent, records[..n], keys[..n], k);
    }
  }

  lemma {:induction false} WritesKeepLinks(rows: Rows, parent: Key, records: seq<Upsert>, keys: seq<Key>, k: Key)
    requires |keys| == |records| && k in rows
    ensures var w := WriteAll(rows, parent, records, keys);
            k in w && (rows[k].parent == Some(parent) ==> w[k].parent == Some(parent))
  {
    if records != [] {
      var n := |records| - 1;
      WritesKeepLinks(rows, parent, records[..n], keys[..n], k);
    }
  }

  /** A record that carries the foreign key, or whose row has it already, leaves its row linked. */
  lemma {:induction false} WrittenAreLinked(rows: Rows, parent: Key, records: seq<Upsert>, keys: seq<Key>, i: nat)
    requires |keys| == |records| && i < |records|
    requires records[i].link || (keys[i] in rows && rows[keys[i]].parent == Some(parent))
    ensures var w := WriteAll(rows, parent, records, keys); keys[i] in w && w[keys[i]].parent == Some(parent)
  {
    var n := |records| - 1;
    if i < n {
      WrittenAreLinked(rows, parent, records[..n], keys[..n], i);
    } else if !records[i].link {
      WritesKeepLinks(rows, parent, records[..n], keys[..n], keys[i]);
    }
  }

  lemma {:induction false} RecordsAreLinked(rows: Rows, parent: Key, payloadKey: Option<Key>, entries: seq<Entry>, i: nat)
    requires i < |Records(rows, parent, payloadKey, entries)|
    ensures var u := Records(rows, parent, payloadKey, entries)[i];
            u.link || (u.pk.Some? && u.pk.value in rows && rows[u.pk.value].parent == Some(parent))
  {
    var front := Records(rows, parent, payloadKey, entries[..|entries| - 1]);
    if i < |front| {
      RecordsAreLinked(rows, parent, payloadKey, entries[..|entries| - 1], i);
    }
  }

  lemma {:induction false} KeptAreThere(rows: Rows, parent: Key, payloadKey: Option<Key>, entries: seq<Entry>)
    ensures forall k :: k in Kept(rows, parent, payloadKey, entries) ==>
              k in rows && (rows[k].parent == Some(parent) || (payloadKey.Some? && rows[k].parent == payloadKey))
  {
    if entries != [] {
      KeptAreThere(rows, parent, payloadKey, entries[..|entries| - 1]);
    }
  }

  // ----- which rows are saved -----

  function KeyOf(e: Entry): Option<Key> {
    match e
    case Bare(k) => Some(k)
    case Record(pk, _, _) => pk
  }

  /** What is kept and what is upserted, entry by entry. */
  lemma {:induction false} KeptFrom(rows: Rows, parent: Key, payloadKey: Option<Key>, entries: seq<Entry>, k: Key)
    ensures k in Kept(rows, parent, payloadKey, entries)
            <==> exists i :: 0 <= i < |entries| && Resolve(rows, parent, payloadKey, entries[i]) == Keep(k)
  {
    hide Resolve;
    if entries != [] {
      var n := |entries| - 1;
      KeptFrom(rows, parent, payloadKey, entries[..n], k);
      if i :| 0 <= i < n && Resolve(rows, parent, payloadKey, entries[..n][i]) == Keep(k) {
        assert Resolve(rows, parent, payloadKey, entries[i]) == Keep(k);
      }
      if i :| 0 <= i < |entries| && Resolve(rows, parent, payloadKey, entries[i]) == Keep(k) {
        assert i < n ==> entries[..n][i] == entries[i];
      }
    }
  }

  lemma {:induction false} RecordsFrom(rows: Rows, parent: Key, payloadKey: Option<Key>, entries: seq<Entry>, u: Upsert)
    ensures u in Records(rows, parent, payloadKey, entries)
            <==> exists i :: 0 <= i < |entries| && Resolve(rows, parent, payloadKey, entries[i]) == Write(u)
  {
    hide Resolve;
    if entries != [] {
      var n := |entries| - 1;
      RecordsFrom(rows, parent, payloadKey, entries[..n], u);
      if i :| 0 <= i < n && Resolve(rows, parent, payloadKey, entries[..n][i]) == Write(u) {
        assert Resolve(rows, parent, payloadKey, entries[i]) == Write(u);
      }
      if i :| 0 <= i < |entries| && Resolve(rows, parent, payloadKey, entries[i]) == Write(u) {
        assert i < n ==> entries[..n][i] == entries[i];
      }
    }
  }

  ghost predicate Listed(entries: seq<Entry>, k: Key) {
    exists i :: 0 <= i < |entries| && KeyOf(entries[i]) == Some(k)
  }

  ghost predicate Names(records: seq<Upsert>, pk: Option<Key>) {
    exists j :: 0 <= j < |records| && records[j].pk == pk
  }

  /** Every listed key is kept or written. */
  lemma ListedAreSaved(rows: Rows, parent: Key, payloadKey: Option<Key>, entries: seq<Entry>, i: nat)
    requires i < |entries| && KeyOf(entries[i]).Some?
    requires !Resolve(rows, parent, payloadKey, entries[i]).Fail?
    ensures || KeyOf(entries[i]).value in Kept(rows, parent, payloadKey, entries)
            || Names(Records(rows, parent, payloadKey, entries), KeyOf(entries[i]))
  {
    match Resolve(rows, parent, payloadKey, entries[i]) {
      case Keep(k) =>
        KeptFrom(rows, parent, payloadKey, entries, k);
      case Write(u) =>
        RecordsFrom(rows, parent, payloadKey, entries, u);
    }
  }

  /** Nothing but listed keys and new ones is saved. */
  lemma SavedAreListed(rows: Rows, parent: Key, payloadKey: Option<Key>, entries: seq<Entry>)
    ensures forall k :: k in Kept(rows, parent, payloadKey, entries) ==> Listed(entries, k)
    ensures forall u :: u in Records(rows, parent, payloadKey, entries) && u.pk.Some? ==> Listed(entries, u.pk.value)
  {
    forall k | k in Kept(rows, parent, payloadKey, entries) ensures Listed(entries, k) {
      KeptFrom(rows, parent, payloadKey, entries, k);
      var i :| 0 <= i < |entries| && Resolve(rows, parent, payloadKey, entries[i]) == Keep(k);
      assert KeyOf(entries[i]) == Some(k);
    }
    forall u | u in Records(rows, parent, payloadKey, entries) && u.pk.Some? ensures Listed(entries, u.pk.value) {
      RecordsFrom(rows, parent, payloadKey, entries, u);
      var i :| 0 <= i < |entries| && Resolve(rows, parent, payloadKey, entries[i]) == Write(u);
      assert KeyOf(entries[i]) == u.pk;
    }
  }

  /** A key that was there is written exactly when a record with that key is. */
  lemma WrittenIffNamed(rows: Rows, parent: Key, records: seq<Upsert>, keys: seq<Key>, k: Key)
    requires KeysOf(rows, parent, records, keys) && k in rows
    ensures k in keys <==> Names(records, Some(k))
  {
    if j :| 0 <= j < |keys| && keys[j] == k {
      WritesKeepLinks(rows, parent, records[..j], keys[..j], k);
      assert records[j].pk == Some(k);
    }
    if j :| 0 <= j < |records| && records[j].pk == Some(k) {
      assert keys[j] == k;
    }
  }

  // ----- the reconciliation -----

  /** A reconciliation that no entry has failed. */
  ghost predicate Succeeded(rows: Rows, parent: Key, payloadKey: Option<Key>, entries: seq<Entry>, delete: bool, limit: int,
                            written: seq<Key>, found: set<Key>, saved: seq<Key>, after: Rows)
  {
    && (forall i :: 0 <= i < |entries| ==> !Resolve(rows, parent, payloadKey, entries[i]).Fail?)
    && Reconciled(rows, parent, payloadKey, entries, delete, limit, written, found, saved, after)
  }

  /** A bare key whose row is linked to the key in the payload, which is not the parent. */
  predicate TakenAsLinked(rows: Rows, parent: Key, payloadKey: Option<Key>, e: Entry) {
    e.Bare? && e.key in rows && payloadKey.Some? && payloadKey != Some(parent) && rows[e.key].parent == payloadKey
  }

  ghost predicate RecordNames(entries: seq<Entry>, k: Key) {
    exists j :: 0 <= j < |entries| && entries[j].Record? && entries[j].pk == Some(k)
  }

  /** The saved rows are linked to the parent exactly when every bare key that is linked to the key in
      the payload instead is named by a record of the array as well. */
  lemma SavedAreLinkedIff(rows: Rows, parent: Key, payloadKey: Option<Key>, entries: seq<Entry>, delete: bool, limit: int,
                          written: seq<Key>, found: set<Key>, saved: seq<Key>, after: Rows)
    requires Succeeded(rows, parent, payloadKey, entries, delete, limit, written, found, saved, after)
    ensures (forall k :: k in saved ==> k in after && after[k].parent == Some(parent))
            <==> forall i :: 0 <= i < |entries| && TakenAsLinked(rows, parent, payloadKey, entries[i]) ==>
                   RecordNames(entries, entries[i].key)
  {
    SavedAreLinkedUnless(rows, parent, payloadKey, entries, delete, limit, written, found, saved, after);
    hide Reconciled;
    forall k | k in rows && rows[k].parent != Some(parent)
      ensures k in Kept(rows, parent, payloadKey, entries)
              <==> exists i :: 0 <= i < |entries| && TakenAsLinked(rows, parent, payloadKey, entries[i]) && entries[i].key == k
    {
      KeptFrom(rows, parent, payloadKey, entries, k);
      KeptElsewhere(rows, parent, payloadKey, entries, k);
    }
    forall i | 0 <= i < |entries| && TakenAsLinked(rows, parent, payloadKey, entries[i])
      ensures RecordNames(entries, entries[i].key) <==> entries[i].key in written
    {
      TakenIsWrittenIff(rows, parent, payloadKey, entries, delete, limit, written, found, saved, after, i);
    }
    KeptAreThere(rows, parent, payloadKey, entries);
  }

  lemma KeptElsewhere(rows: Rows, parent: Key, payloadKey: Option<Key>, entries: seq<Entry>, k: Key)
    requires k in rows && rows[k].parent != Some(parent)
    ensures forall i :: 0 <= i < |entries| ==>
              (Resolve(rows, parent, payloadKey, entries[i]) == Keep(k)
               <==> TakenAsLinked(rows, parent, payloadKey, entries[i]) && entries[i].key == k)
  {
  }

  /** Only a record writes a row that a bare key takes as linked. */
  lemma TakenIsWrittenIff(rows: Rows, parent: Key, payloadKey: Option<Key>, entries: seq<Entry>, delete: bool, limit: int,
                          written: seq<Key>, found: set<Key>, saved: seq<Key>, after: Rows, i: nat)
    requires Succeeded(rows, parent, payloadKey, entries, delete, limit, written, found, saved, after)
    requires i < |entries| && TakenAsLinked(rows, parent, payloadKey, entries[i])
    ensures RecordNames(entries, entries[i].key) <==> entries[i].key in written
  {
    var k := entries[i].key;
    var records := Records(rows, parent, payloadKey, entries);
    WrittenIffNamed(rows, parent, records, written, k);
    if j :| 0 <= j < |entries| && entries[j].Record? && entries[j].pk == Some(k) {
      var u := Resolve(rows, parent, payloadKey, entries[j]).record;
      RecordsFrom(rows, parent, payloadKey, entries, u);
      var n :| 0 <= n < |records| && records[n] == u;
      assert Names(records, Some(k));
    }
    if n :| 0 <= n < |records| && records[n].pk == Some(k) {
      RecordsFrom(rows, parent, payloadKey, entries, records[n]);
      var j :| 0 <= j < |entries| && Resolve(rows, parent, payloadKey, entries[j]) == Write(records[n]);
      assert entries[j].Record? && entries[j].pk == Some(k);
    }
  }

  /** In the terms of the call: what it kept and what it wrote. */
  lemma SavedAreLinkedUnless(rows: Rows, parent: Key, payloadKey: Option<Key>, entries: seq<Entry>, delete: bool, limit: int,
                             written: seq<Key>, found: set<Key>, saved: seq<Key>, after: Rows)
    requires Reconciled(rows, parent, payloadKey, entries, delete, limit, written, found, saved, after)
    ensures (forall k :: k in saved ==> k in after && after[k].parent == Some(parent))
            <==> forall k :: k in Kept(rows, parent, payloadKey, entries) ==> k in written || (k in rows && rows[k].parent == Some(parent))
  {
    var records := Records(rows, parent, payloadKey, entries);
    var upserted := WriteAll(rows, parent, records, written);
    KeptAreThere(rows, parent, payloadKey, entries);
    forall k | k in saved ensures k in upserted && (k in after && after[k] == upserted[k]) {
      SavedStay(rows, parent, payloadKey, entries, delete, limit, written, found, saved, after, k);
    }
    forall i | 0 <= i < |records| ensures upserted[written[i]].parent == Some(parent) {
      assert written[i] in saved;
      RecordsAreLinked(rows, parent, payloadKey, entries, i);
      WrittenAreLinked(rows, parent, records, written, i);
    }
    forall k | k in Kept(rows, parent, payloadKey, entries) && k !in written
      ensures k in upserted && upserted[k] == rows[k]
    {
      WritesElsewhere(rows, parent, records, written, k);
    }
  }

  lemma SavedStay(rows: Rows, parent: Key, payloadKey: Option<Key>, entries: seq<Entry>, delete: bool, limit: int,
                  written: seq<Key>, found: set<Key>, saved: seq<Key>, after: Rows, k: Key)
    requires Reconciled(rows, parent, payloadKey, entries, delete, limit, written, found, saved, after)
    requires k in saved
    ensures var upserted := WriteAll(rows, parent, Records(rows, parent, payloadKey, entries), written);
            k in upserted && k in after && after[k] == upserted[k]
  {
    var records := Records(rows, parent, payloadKey, entries);
    KeptAreThere(rows, parent, payloadKey, entries);
    if i :| 0 <= i < |written| && written[i] == k {
      RecordsAreLinked(rows, parent, payloadKey, entries, i);
      WrittenAreLinked(rows, parent, records, written, i);
    } else {
      WritesElsewhere(rows, parent, records, written, k);
    }
  }

  /** What was not linked before and is not listed is left alone; what was linked and is not listed
      is let go if the read found it. */
  lemma OthersAreLetGoOrLeft(rows: Rows, parent: Key, payloadKey: Option<Key>, entries: seq<Entry>, delete: bool, limit: int,
                             written: seq<Key>, found: set<Key>, saved: seq<Key>, after: Rows, k: Key)
    requires Reconciled(rows, parent, payloadKey, entries, delete, limit, written, found, saved, after)
    requires k !in saved
    ensures k in found ==> k in rows && rows[k].parent == Some(parent)
    ensures k in found && delete ==> k !in after
    ensures k in found && !delete ==> k in after && after[k] == Child(None, rows[k].content)
    ensures k !in found ==> (k in after <==> k in rows) && (k in rows ==> after[k] == rows[k])
  {
    WritesElsewhere(rows, parent, Records(rows, parent, payloadKey, entries), written, k);
  }

  /** The rows to let go: linked to the parent and named by no entry. */
  function Dropped(rows: Rows, parent: Key, entries: seq<Entry>): set<Key> {
    set k | k in rows && rows[k].parent == Some(parent) && forall i :: 0 <= i < |entries| ==> KeyOf(entries[i]) != Some(k)
  }

  lemma DroppedAreUnlisted(rows: Rows, parent: Key, payloadKey: Option<Key>, entries: seq<Entry>, delete: bool, limit: int,
                           written: seq<Key>, found: set<Key>, saved: seq<Key>, after: Rows)
    requires Succeeded(rows, parent, payloadKey, entries, delete, limit, written, found, saved, after)
    ensures Unlisted(rows, parent, saved) == Dropped(rows, parent, entries)
  {
    hide Resolve;
    var records := Records(rows, parent, payloadKey, entries);
    SavedAreListed(rows, parent, payloadKey, entries);
    forall k | k in rows ensures k in saved <==> Listed(entries, k) {
      WrittenIffNamed(rows, parent, records, written, k);
      if i :| 0 <= i < |entries| && KeyOf(entries[i]) == Some(k) {
        ListedAreSaved(rows, parent, payloadKey, entries, i);
      }
      if j :| 0 <= j < |records| && records[j].pk == Some(k) {
        assert records[j] in records;
      }
    }
  }

  /** Afterwards only the saved rows are linked, if and only if the rows to let go fit into one read
      and none of them has the falsy key. */
  lemma OnlySavedAreLinkedIff(rows: Rows, parent: Key, payloadKey: Option<Key>, entries: seq<Entry>, delete: bool, limit: int,
                              written: seq<Key>, found: set<Key>, saved: seq<Key>, after: Rows)
    requires Succeeded(rows, parent, payloadKey, entries, delete, limit, written, found, saved, after)
    ensures (forall k :: k in after && after[k].parent == Some(parent) ==> k in saved)
            <==> (limit < 0 || |Dropped(rows, parent, entries)| <= limit) && 0 !in Dropped(rows, parent, entries)
  {
    var unlisted := Unlisted(rows, parent, saved);
    forall k | k !in saved
      ensures k in found ==> k in rows && rows[k].parent == Some(parent)
      ensures k in after && after[k].parent == Some(parent) <==> k in unlisted && k !in found
    {
      OthersAreLetGoOrLeft(rows, parent, payloadKey, entries, delete, limit, written, found, saved, after, k);
    }
    SameUnlisted(rows, parent, payloadKey, entries, written, saved);
    FoundAllIff(unlisted, limit, found);
    DroppedAreUnlisted(rows, parent, payloadKey, entries, delete, limit, written, found, saved, after);
  }

  lemma SameUnlisted(rows: Rows, parent: Key, payloadKey: Option<Key>, entries: seq<Entry>, written: seq<Key>, saved: seq<Key>)
    requires |written| == |Records(rows, parent, payloadKey, entries)|
    requires saved == Kept(rows, parent, payloadKey, entries) + written
    ensures Unlisted(WriteAll(rows, parent, Records(rows, parent, payloadKey, entries), written), parent, saved)
            == Unlisted(rows, parent, saved)
  {
    forall k | k !in saved
      ensures var w := WriteAll(rows, parent, Records(rows, parent, payloadKey, entries), written);
              (k in w <==> k in rows) && (k in rows ==> w[k] == rows[k])
    {
      WritesElsewhere(rows, parent, Records(rows, parent, payloadKey, entries), written, k);
    }
  }

  lemma FoundAllIff(unlisted: set<Key>, limit: int, found: set<Key>)
    requires Found(unlisted, limit, found)
    ensures found <= unlisted
    ensures unlisted <= found <==> (limit < 0 || |unlisted| <= limit) && 0 !in unlisted
  {
    var read: set<Key> :|
      && read <= unlisted
      && (limit < 0 || |unlisted| <= limit ==> read == unlisted)
      && (0 <= limit < |unlisted| ==> |read| == limit)
      && found == read - {0};
    if unlisted <= found {
      assert read == unlisted;
    }
  }

  // ----- the contents -----

  /** The last record that names a field of a row decides it. */
  lemma {:induction false} LastWriteWins(rows: Rows, parent: Key, records: seq<Upsert>, keys: seq<Key>, i: nat, f: string)
    requires |keys| == |records| && i < |records| && f in records[i].content
    requires forall j :: i < j < |records| && keys[j] == keys[i] ==> f !in records[j].content
    ensures var w := WriteAll(rows, parent, records, keys);
            keys[i] in w && f in w[keys[i]].content && w[keys[i]].content[f] == records[i].content[f]
  {
    var n := |records| - 1;
    if i < n {
      LastWriteWins(rows, parent, records[..n], keys[..n], i, f);
    }
  }

  /** A field no record names keeps its value. */
  lemma {:induction false} UnnamedFieldsStay(rows: Rows, parent: Key, records: seq<Upsert>, keys: seq<Key>, k: Key, f: string)
    requires |keys| == |records| && k in rows
    requires forall j :: 0 <= j < |records| && keys[j] == k ==> f !in records[j].content
    ensures var w := WriteAll(rows, parent, records, keys);
            && k in w && (f in w[k].content <==> f in rows[k].content)
            && (f in rows[k].content ==> w[k].content[f] == rows[k].content[f])
  {
    if records != [] {
      var n := |records| - 1;
      UnnamedFieldsStay(rows, parent, records[..n], keys[..n], k, f);
    }
  }

  // ----- from the array to the rows -----

  /** The record of an entry that is written, and that what is behind it comes of later entries. */
  lemma {:induction false} RecordOf(rows: Rows, parent: Key, payloadKey: Option<Key>, entries: seq<Entry>, i: nat) returns (n: nat)
    requires i < |entries| && Resolve(rows, parent, payloadKey, entries[i]).Write?
    ensures var records := Records(rows, parent, payloadKey, entries);
            && n < |records| && Resolve(rows, parent, payloadKey, entries[i]) == Write(records[n])
            && forall m :: n < m < |records| ==>
                 exists j :: i < j < |entries| && Resolve(rows, parent, payloadKey, entries[j]) == Write(records[m])
  {
    hide Resolve;
    var last := |entries| - 1;
    var front := Records(rows, parent, payloadKey, entries[..last]);
    var records := Records(rows, parent, payloadKey, entries);
    if i == last {
      n := |front|;
    } else {
      n := RecordOf(rows, parent, payloadKey, entries[..last], i);
      forall m | n < m < |records|
        ensures exists j :: i < j < |entries| && Resolve(rows, parent, payloadKey, entries[j]) == Write(records[m])
      {
        if m < |front| {
          var u := front[m];
          var j :| i < j < |entries[..last]| && Resolve(rows, parent, payloadKey, entries[..last][j]) == Write(u);
          assert Resolve(rows, parent, payloadKey, entries[j]) == Write(records[m]);
        } else {
          assert Resolve(rows, parent, payloadKey, entries[last]) == Write(records[m]);
        }
      }
    }
  }

  /** A later record is written to the same row only if it names it. */
  lemma SameRowIsNamed(rows: Rows, parent: Key, records: seq<Upsert>, keys: seq<Key>, n: nat, m: nat)
    requires KeysOf(rows, parent, records, keys) && n < m < |records| && keys[m] == keys[n]
    ensures records[m].pk == Some(keys[n])
  {
    if records[m].pk.None? {
      WrittenIsThere(rows, parent, records[..m], keys[..m], n);
    }
  }

  lemma {:induction false} WrittenIsThere(rows: Rows, parent: Key, records: seq<Upsert>, keys: seq<Key>, n: nat)
    requires |keys| == |records| && n < |records|
    ensures keys[n] in WriteAll(rows, parent, records, keys)
  {
    var last := |records| - 1;
    if n < last {
      WrittenIsThere(rows, parent, records[..last], keys[..last], n);
    }
  }

  /** An entry's record names a field of a row. */
  predicate NamesField(e: Entry, k: Key, f: string) {
    e.Record? && e.pk == Some(k) && f in e.content
  }

  /** What a written entry's record says. */
  lemma RecordSays(rows: Rows, parent: Key, payloadKey: Option<Key>, e: Entry)
    ensures var r := Resolve(rows, parent, payloadKey, e);
            && (r.Write? && e.Bare? ==> r.record.pk == Some(e.key) && r.record.content == map[] && e.key in rows)
            && (r.Write? && e.Record? ==> r.record.pk == e.pk && r.record.content == e.content)
            && (!r.Fail? && e.Record? && (e.pk.None? || e.content != map[]) ==> r.Write?)
  {
  }

  lemma LetGoKeepsContent(rows: Rows, keys: set<Key>, delete: bool, k: Key)
    ensures k in LetGo(rows, keys, delete) ==> k in rows && LetGo(rows, keys, delete)[k].content == rows[k].content
  {
  }

  /** The facts about a reconciliation that the contents depend on. */
  lemma ContentsOf(rows: Rows, parent: Key, payloadKey: Option<Key>, entries: seq<Entry>, delete: bool, limit: int,
                   written: seq<Key>, found: set<Key>, saved: seq<Key>, after: Rows)
    requires Succeeded(rows, parent, payloadKey, entries, delete, limit, written, found, saved, after)
    ensures var records := Records(rows, parent, payloadKey, entries);
            && KeysOf(rows, parent, records, written)
            && (forall k :: k in written ==> k in saved)
            && (forall k :: k in after ==>
                  k in WriteAll(rows, parent, records, written)
                  && after[k].content == WriteAll(rows, parent, records, written)[k].content)
    ensures forall i :: 0 <= i < |entries| ==> !Resolve(rows, parent, payloadKey, entries[i]).Fail?
  {
    hide Resolve, Found, LetGo, KeysOf;
    AsManyKeys(rows, parent, Records(rows, parent, payloadKey, entries), written);
    var upserted := WriteAll(rows, parent, Records(rows, parent, payloadKey, entries), written);
    forall k | k in after ensures k in upserted && after[k].content == upserted[k].content {
      LetGoKeepsContent(upserted, found, delete, k);
    }
  }

  lemma OwnKey(rows: Rows, parent: Key, records: seq<Upsert>, keys: seq<Key>, n: nat)
    requires KeysOf(rows, parent, records, keys) && n < |records|
    ensures records[n].pk.Some? ==> keys[n] == records[n].pk.value
    ensures records[n].pk.None? ==> keys[n] !in WriteAll(rows, parent, records[..n], keys[..n])
  {
  }

  /** What an object of the array says of a field is what its row has afterwards, unless a later object
      for the same row says otherwise. */
  lemma ContentArrives(rows: Rows, parent: Key, payloadKey: Option<Key>, entries: seq<Entry>, delete: bool, limit: int,
                       written: seq<Key>, found: set<Key>, saved: seq<Key>, after: Rows, i: nat, k: Key, f: string)
    requires Succeeded(rows, parent, payloadKey, entries, delete, limit, written, found, saved, after)
    requires i < |entries| && NamesField(entries[i], k, f)
    requires forall j :: i < j < |entries| ==> !NamesField(entries[j], k, f)
    ensures k in after && f in after[k].content && after[k].content[f] == entries[i].content[f]
  {
    hide Resolve, Succeeded, Reconciled, KeysOf, WriteAll, Records;
    var records := Records(rows, parent, payloadKey, entries);
    ContentsOf(rows, parent, payloadKey, entries, delete, limit, written, found, saved, after);
    assert |written| == |records| by { AsManyKeys(rows, parent, records, written); }
    assert entries[i].content != map[];
    RecordSays(rows, parent, payloadKey, entries[i]);
    var n := RecordOf(rows, parent, payloadKey, entries, i);
    OwnKey(rows, parent, records, written, n);
    forall m | n < m < |records| && written[m] == k ensures f !in records[m].content {
      var u := records[m];
      var j :| i < j < |entries| && Resolve(rows, parent, payloadKey, entries[j]) == Write(u);
      RecordSays(rows, parent, payloadKey, entries[j]);
      SameRowIsNamed(rows, parent, records, written, n, m);
      assert !NamesField(entries[j], k, f);
    }
    LastWriteWins(rows, parent, records, written, n, f);
    SavedIsThere(rows, parent, payloadKey, entries, delete, limit, written, found, saved, after, k);
  }

  lemma SavedIsThere(rows: Rows, parent: Key, payloadKey: Option<Key>, entries: seq<Entry>, delete: bool, limit: int,
                     written: seq<Key>, found: set<Key>, saved: seq<Key>, after: Rows, k: Key)
    requires Succeeded(rows, parent, payloadKey, entries, delete, limit, written, found, saved, after) && k in saved
    ensures k in after
  {
    hide Resolve;
    SavedStay(rows, parent, payloadKey, entries, delete, limit, written, found, saved, after, k);
  }

  lemma AsManyKeys(rows: Rows, parent: Key, records: seq<Upsert>, keys: seq<Key>)
    requires KeysOf(rows, parent, records, keys)
    ensures |keys| == |records|
  {
  }

  /** An object without a key makes a row of its own, linked to the parent, with what the object says,
      unless an object names the very key the row is given. */
  lemma NewRowsAreMade(rows: Rows, parent: Key, payloadKey: Option<Key>, entries: seq<Entry>, delete: bool, limit: int,
                       written: seq<Key>, found: set<Key>, saved: seq<Key>, after: Rows, i: nat) returns (k: Key)
    requires Succeeded(rows, parent, payloadKey, entries, delete, limit, written, found, saved, after)
    requires i < |entries| && entries[i].Record? && entries[i].pk.None?
    ensures k !in rows && k in saved && k in after && after[k].parent == Some(parent)
    ensures !RecordNames(entries, k) ==> after[k].content == entries[i].content
  {
    hide Resolve, Succeeded, Reconciled, KeysOf, WriteAll, Records;
    var records := Records(rows, parent, payloadKey, entries);
    ContentsOf(rows, parent, payloadKey, entries, delete, limit, written, found, saved, after);
    assert |written| == |records| by { AsManyKeys(rows, parent, records, written); }
    RecordSays(rows, parent, payloadKey, entries[i]);
    var n := RecordOf(rows, parent, payloadKey, entries, i);
    k := written[n];
    OwnKey(rows, parent, records, written, n);
    if k in rows {
      WritesKeepLinks(rows, parent, records[..n], written[..n], k);
    }
    NewRowIsLinked(rows, parent, payloadKey, entries, delete, limit, written, found, saved, after, n);
    if !RecordNames(entries, k) {
      forall m | n < m < |records| ensures written[m] != k {
        if written[m] == k {
          var u := records[m];
          var j :| i < j < |entries| && Resolve(rows, parent, payloadKey, entries[j]) == Write(u);
          RecordSays(rows, parent, payloadKey, entries[j]);
          SameRowIsNamed(rows, parent, records, written, n, m);
          assert false;
        }
      }
      WrittenLast(rows, parent, records, written, n);
    }
  }

  lemma NewRowIsLinked(rows: Rows, parent: Key, payloadKey: Option<Key>, entries: seq<Entry>, delete: bool, limit: int,
                       written: seq<Key>, found: set<Key>, saved: seq<Key>, after: Rows, n: nat)
    requires Succeeded(rows, parent, payloadKey, entries, delete, limit, written, found, saved, after) && n < |written|
    ensures written[n] in after && after[written[n]].parent == Some(parent)
  {
    hide Resolve;
    var records := Records(rows, parent, payloadKey, entries);
    RecordsAreLinked(rows, parent, payloadKey, entries, n);
    WrittenAreLinked(rows, parent, records, written, n);
    assert written[n] in saved;
    SavedStay(rows, parent, payloadKey, entries, delete, limit, written, found, saved, after, written[n]);
  }

  /** The last write to a row that was not there is all there is of it. */
  lemma {:induction false} WrittenLast(rows: Rows, parent: Key, records: seq<Upsert>, keys: seq<Key>, n: nat)
    requires |keys| == |records| && n < |records|
    requires keys[n] !in WriteAll(rows, parent, records[..n], keys[..n])
    requires forall m :: n < m < |records| ==> keys[m] != keys[n]
    ensures var w := WriteAll(rows, parent, records, keys);
            keys[n] in w && w[keys[n]].content == records[n].content
  {
    var last := |records| - 1;
    if n < last {
      assert records[..last][..n] == records[..n] && keys[..last][..n] == keys[..n];
      WrittenLast(rows, parent, records[..last], keys[..last], n);
    }
  }

  /** What no object of the array says of a row stays as it was, as long as the row is there. */
  lemma OtherFieldsStay(rows: Rows, parent: Key, payloadKey: Option<Key>, entries: seq<Entry>, delete: bool, limit: int,
                        written: seq<Key>, found: set<Key>, saved: seq<Key>, after: Rows, k: Key, f: string)
    requires Succeeded(rows, parent, payloadKey, entries, delete, limit, written, found, saved, after)
    requires k in rows && k in after && forall i :: 0 <= i < |entries| ==> !NamesField(entries[i], k, f)
    ensures f in after[k].content <==> f in rows[k].content
    ensures f in rows[k].content ==> after[k].content[f] == rows[k].content[f]
  {
    hide Resolve, Succeeded, Reconciled, KeysOf, WriteAll, Records;
    var records := Records(rows, parent, payloadKey, entries);
    ContentsOf(rows, parent, payloadKey, entries, delete, limit, written, found, saved, after);
    assert |written| == |records| by { AsManyKeys(rows, parent, records, written); }
    forall m | 0 <= m < |records| && written[m] == k ensures f !in records[m].content {
      RecordsFrom(rows, parent, payloadKey, entries, records[m]);
      var j :| 0 <= j < |entries| && Resolve(rows, parent, payloadKey, entries[j]) == Write(records[m]);
      RecordSays(rows, parent, payloadKey, entries[j]);
      OwnKey(rows, parent, records, written, m);
      if records[m].pk.None? {
        WritesKeepLinks(rows, parent, records[..m], written[..m], k);
      }
      assert !NamesField(entries[j], k, f);
    }
    UnnamedFieldsStay(rows, parent, records, written, k, f);
  }

  /** Listing the linked children again writes nothing. */
  lemma {:induction false} RelistingWritesNothing(rows: Rows, parent: Key, payloadKey: Option<Key>, entries: seq<Entry>)
    requires forall i :: 0 <= i < |entries| ==>
               entries[i].Bare? && entries[i].key in rows && rows[entries[i].key].parent == Some(parent)
    ensures Records(rows, parent, payloadKey, entries) == []
  {
    if entries != [] {
      RelistingWritesNothing(rows, parent, payloadKey, entries[..|entries| - 1]);
    }
  }

  /** A bare key linked to the key the payload carries, and not to the parent, stays where it is. */
  lemma ForeignPayloadKeyKeepsChildAway(parent: Key, other: Key, k: Key)
    requires other != parent
    ensures var rows: Rows := map[k := Child(Some(other), map[])];
            && Resolve(rows, parent, Some(other), Bare(k)) == Keep(k)
            && Resolve(rows, parent, Some(parent), Bare(k)) == Write(Upsert(Some(k), true, map[]))
  {
  }
}
