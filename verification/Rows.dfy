/**
 Filtering, stable sorting and slicing of sequences: what `WHERE`, `ORDER BY` and `LIMIT` do
 to rows and what `filter`, `sort` and `slice` do to arrays.

 The sort is the stable one, by insertion from the back, for any total preorder.  The lemmas say
 how the operations commute: filtering with itself, with sorting and with mapping, and cutting
 and sorting batch by batch with doing it once.
 */
module Rows {

  function Keep<T>(s: seq<T>, p: T -> bool): seq<T> {
    if s == [] then []
    else if p(s[0]) then [s[0]] + Keep(s[1..], p)
    else Keep(s[1..], p)
  }

  /** The first `n` elements; a negative `n` is no limit. */
  function Take<T>(s: seq<T>, n: int): seq<T> {
    if n < 0 || |s| <= n then s else s[..n]
  }

  function Drop<T>(s: seq<T>, n: nat): seq<T> {
    if |s| <= n then [] else s[n..]
  }

  /** `x` goes behind everything that may stay before it. */
  function Insert<T>(s: seq<T>, x: T, leq: (T, T) -> bool): seq<T> {
    if s == [] then [x]
    else if leq(s[|s| - 1], x) then s + [x]
    else Insert(s[..|s| - 1], x, leq) + [s[|s| - 1]]
  }

  /** The stable sort. */
  function Sort<T>(s: seq<T>, leq: (T, T) -> bool): seq<T> {
    if s == [] then [] else Insert(Sort(s[..|s| - 1], leq), s[|s| - 1], leq)
  }

  ghost predicate Preorder<T(!new)>(leq: (T, T) -> bool) {
    && (forall a, b :: leq(a, b) || leq(b, a))
    && (forall a, b, c :: leq(a, b) && leq(b, c) ==> leq(a, c))
  }

  ghost predicate Sorted<T>(s: seq<T>, leq: (T, T) -> bool) {
    forall i, j :: 0 <= i < j < |s| ==> leq(s[i], s[j])
  }

  // ----- keeping -----

  lemma {:induction false} KeepMembers<T>(s: seq<T>, p: T -> bool)
    ensures forall x :: x in Keep(s, p) <==> x in s && p(x)
  {
    if s != [] {
      KeepMembers(s[1..], p);
    }
  }

  lemma {:induction false} KeepNone<T>(s: seq<T>, p: T -> bool)
    requires forall x :: x in s ==> !p(x)
    ensures Keep(s, p) == []
  {
    if s != [] {
      KeepNone(s[1..], p);
    }
  }

  lemma {:induction false} KeepAll<T>(s: seq<T>, p: T -> bool)
    requires forall i :: 0 <= i < |s| ==> p(s[i])
    ensures Keep(s, p) == s
  {
    if s != [] {
      KeepAll(s[1..], p);
    }
  }

  lemma {:induction false} KeepFew<T>(s: seq<T>, p: T -> bool)
    ensures |Keep(s, p)| <= |s|
  {
    if s != [] {
      KeepFew(s[1..], p);
    }
  }

  lemma {:induction false} KeepAppend<T>(s: seq<T>, t: seq<T>, p: T -> bool)
    ensures Keep(s + t, p) == Keep(s, p) + Keep(t, p)
  {
    if s == [] {
      assert s + t == t;
    } else {
      assert (s + t)[1..] == s[1..] + t;
      KeepAppend(s[1..], t, p);
    }
  }

  /** Filtering may be done in one go or in two, in either order. */
  lemma {:induction false} KeepTwice<T>(s: seq<T>, p: T -> bool, q: T -> bool, both: T -> bool)
    requires forall x :: x in s ==> (both(x) <==> p(x) && q(x))
    ensures Keep(Keep(s, p), q) == Keep(s, both)
  {
    if s != [] {
      KeepTwice(s[1..], p, q, both);
    }
  }

  // ----- sorting -----

  lemma {:induction false} InsertMembers<T>(s: seq<T>, x: T, leq: (T, T) -> bool)
    ensures forall y :: y in Insert(s, x, leq) <==> y in s || y == x
    ensures |Insert(s, x, leq)| == |s| + 1
  {
    if s != [] && !leq(s[|s| - 1], x) {
      InsertMembers(s[..|s| - 1], x, leq);
      assert s == s[..|s| - 1] + [s[|s| - 1]];
    }
  }

  lemma {:induction false} SortMembers<T>(s: seq<T>, leq: (T, T) -> bool)
    ensures forall y :: y in Sort(s, leq) <==> y in s
    ensures |Sort(s, leq)| == |s|
  {
    if s != [] {
      SortMembers(s[..|s| - 1], leq);
      InsertMembers(Sort(s[..|s| - 1], leq), s[|s| - 1], leq);
      assert s == s[..|s| - 1] + [s[|s| - 1]];
    }
  }

  lemma {:induction false} InsertSorts<T(!new)>(s: seq<T>, x: T, leq: (T, T) -> bool)
    requires Preorder(leq) && Sorted(s, leq)
    ensures Sorted(Insert(s, x, leq), leq)
  {
    if s != [] {
      var front, last := s[..|s| - 1], s[|s| - 1];
      if leq(last, x) {
        forall i | 0 <= i < |s| ensures leq(s[i], x) {
          if i < |s| - 1 {
            assert leq(s[i], last);
          }
        }
      } else {
        InsertSorts(front, x, leq);
        InsertMembers(front, x, leq);
        var r := Insert(front, x, leq);
        forall i | 0 <= i < |r| ensures leq(r[i], last) {
          assert r[i] in r;
          if r[i] != x {
            var k :| 0 <= k < |front| && front[k] == r[i];
            assert leq(s[k], s[|s| - 1]);
          }
        }
      }
    }
  }

  lemma {:induction false} SortSorts<T(!new)>(s: seq<T>, leq: (T, T) -> bool)
    requires Preorder(leq)
    ensures Sorted(Sort(s, leq), leq)
  {
    if s != [] {
      SortSorts(s[..|s| - 1], leq);
      InsertSorts(Sort(s[..|s| - 1], leq), s[|s| - 1], leq);
    }
  }

  lemma {:induction false} SortOfSorted<T>(s: seq<T>, leq: (T, T) -> bool)
    requires Sorted(s, leq)
    ensures Sort(s, leq) == s
  {
    if s != [] {
      SortOfSorted(s[..|s| - 1], leq);
      if |s| > 1 {
        assert leq(s[|s| - 2], s[|s| - 1]);
      }
      assert s == s[..|s| - 1] + [s[|s| - 1]];
    }
  }

  lemma {:induction false} KeepSorted<T(!new)>(s: seq<T>, leq: (T, T) -> bool, p: T -> bool)
    requires Sorted(s, leq)
    ensures Sorted(Keep(s, p), leq)
  {
    if s != [] {
      var rest := s[1..];
      assert forall i :: 0 <= i < |rest| ==> rest[i] == s[i + 1];
      KeepSorted(rest, leq, p);
      KeepMembers(rest, p);
      if p(s[0]) {
        forall i | 0 <= i < |Keep(rest, p)| ensures leq(s[0], Keep(rest, p)[i]) {
          var x := Keep(rest, p)[i];
          assert x in Keep(rest, p);
          assert x in rest;
        }
      }
    }
  }

  lemma SortLast<T>(s: seq<T>, x: T, leq: (T, T) -> bool)
    ensures Sort(s + [x], leq) == Insert(Sort(s, leq), x, leq)
  {
    assert (s + [x])[..|s + [x]| - 1] == s;
  }

  /** Sorting what is already sorted together with what comes behind it is sorting it all. */
  lemma {:induction false} SortAppend<T(!new)>(s: seq<T>, t: seq<T>, leq: (T, T) -> bool)
    requires Preorder(leq)
    ensures Sort(Sort(s, leq) + t, leq) == Sort(s + t, leq)
  {
    if t == [] {
      SortSorts(s, leq);
      SortOfSorted(Sort(s, leq), leq);
      assert Sort(s, leq) + t == Sort(s, leq) && s + t == s;
    } else {
      hide Sort, Insert, Preorder;
      var front, last := t[..|t| - 1], t[|t| - 1];
      SortAppend(s, front, leq);
      assert s + t == (s + front) + [last];
      assert Sort(s, leq) + t == (Sort(s, leq) + front) + [last];
      SortLast(s + front, last, leq);
      SortLast(Sort(s, leq) + front, last, leq);
    }
  }

  lemma {:induction false} KeepInsert<T(!new)>(s: seq<T>, x: T, leq: (T, T) -> bool, p: T -> bool)
    requires Preorder(leq) && Sorted(s, leq)
    ensures Keep(Insert(s, x, leq), p) == if p(x) then Insert(Keep(s, p), x, leq) else Keep(s, p)
  {
    if s != [] {
      var front, last := s[..|s| - 1], s[|s| - 1];
      assert s == front + [last];
      KeepAppend(front, [last], p);
      if leq(last, x) {
        KeepAppend(s, [x], p);
        if p(x) {
          InsertBehind(Keep(s, p), x, leq) by {
            KeepMembers(s, p);
            forall y | y in Keep(s, p) ensures leq(y, x) {
              var k :| 0 <= k < |s| && s[k] == y;
              if k < |s| - 1 {
                assert leq(s[k], last);
              }
            }
          }
        }
      } else {
        KeepInsert(front, x, leq, p);
        KeepAppend(Insert(front, x, leq), [last], p);
        if p(x) && !p(last) {
          assert Keep(s, p) == Keep(front, p);
        }
        if p(x) && p(last) {
          assert Keep(s, p) == Keep(front, p) + [last];
          assert Keep(s, p)[..|Keep(s, p)| - 1] == Keep(front, p);
        }
      }
    }
  }

  lemma InsertBehind<T>(s: seq<T>, x: T, leq: (T, T) -> bool)
    requires forall y :: y in s ==> leq(y, x)
    ensures Insert(s, x, leq) == s + [x]
  {
    if s != [] {
      assert s[|s| - 1] in s;
    }
  }

  /** Filtering before or after a stable sort is the same. */
  lemma {:induction false} KeepSort<T(!new)>(s: seq<T>, leq: (T, T) -> bool, p: T -> bool)
    requires Preorder(leq)
    ensures Keep(Sort(s, leq), p) == Sort(Keep(s, p), leq)
  {
    if s != [] {
      var front, last := s[..|s| - 1], s[|s| - 1];
      assert s == front + [last];
      KeepSort(front, leq, p);
      SortSorts(front, leq);
      KeepInsert(Sort(front, leq), last, leq, p);
      KeepAppend(front, [last], p);
      if p(last) {
        assert Keep(s, p)[..|Keep(s, p)| - 1] == Keep(front, p);
      } else {
        assert Keep(s, p) == Keep(front, p);
      }
    }
  }

  lemma {:induction false} InsertSame<T>(s: seq<T>, x: T, leq: (T, T) -> bool, leq': (T, T) -> bool)
    requires forall a, b :: a in s + [x] && b in s + [x] ==> leq(a, b) == leq'(a, b)
    ensures Insert(s, x, leq) == Insert(s, x, leq')
  {
    if s != [] {
      assert s[|s| - 1] in s + [x] && x in s + [x];
      forall a | a in s[..|s| - 1] + [x] ensures a in s + [x] { }
      InsertSame(s[..|s| - 1], x, leq, leq');
    }
  }

  lemma FrontMembers<T>(s: seq<T>, sorted: seq<T>, leq: (T, T) -> bool)
    requires s != [] && sorted == Sort(s[..|s| - 1], leq)
    ensures forall a :: a in s[..|s| - 1] ==> a in s
    ensures forall a :: a in sorted + [s[|s| - 1]] ==> a in s
  {
    var front, last := s[..|s| - 1], s[|s| - 1];
    SortMembers(front, leq);
    forall a | a in sorted + [last] ensures a in s {
      var k :| 0 <= k < |sorted + [last]| && (sorted + [last])[k] == a;
      if k < |sorted| {
        assert sorted[k] in sorted;
        assert sorted[k] in front;
      }
    }
  }

  lemma {:induction false} SortSame<T>(s: seq<T>, leq: (T, T) -> bool, leq': (T, T) -> bool)
    requires forall a, b :: a in s && b in s ==> leq(a, b) == leq'(a, b)
    ensures Sort(s, leq) == Sort(s, leq')
  {
    if s != [] {
      var front, last := s[..|s| - 1], s[|s| - 1];
      FrontMembers(s, Sort(front, leq), leq);
      SortSame(front, leq, leq');
      InsertSame(Sort(front, leq), last, leq, leq');
    }
  }

  // ----- mapping -----

  function Map<S, T>(s: seq<S>, f: S -> T): (r: seq<T>)
    ensures |r| == |s|
    ensures forall i :: 0 <= i < |s| ==> r[i] == f(s[i])
  {
    if s == [] then [] else [f(s[0])] + Map(s[1..], f)
  }

  lemma {:induction false} KeepMap<S, T>(s: seq<S>, f: S -> T, p: S -> bool, q: T -> bool)
    requires forall x :: x in s ==> (q(f(x)) <==> p(x))
    ensures Keep(Map(s, f), q) == Map(Keep(s, p), f)
  {
    if s != [] {
      assert Map(s, f)[1..] == Map(s[1..], f);
      KeepMap(s[1..], f, p, q);
    }
  }

  lemma TakeMap<S, T>(s: seq<S>, f: S -> T, n: int)
    ensures Take(Map(s, f), n) == Map(Take(s, n), f)
  {
  }

  lemma MapAppend<S, T>(s: seq<S>, x: S, f: S -> T)
    ensures Map(s + [x], f) == Map(s, f) + [f(x)]
  {
  }

  lemma {:induction false} InsertMap<S, T>(s: seq<S>, x: S, f: S -> T, leq: (S, S) -> bool, leq': (T, T) -> bool)
    requires forall a, b :: a in s + [x] && b in s + [x] ==> leq'(f(a), f(b)) == leq(a, b)
    ensures Insert(Map(s, f), f(x), leq') == Map(Insert(s, x, leq), f)
  {
    hide Map;
    if s == [] {
      MapAppend([], x, f);
      assert [] + [x] == [x] && Map(s, f) == [];
      assert Map(s, f) + [f(x)] == [f(x)];
    } else {
      var front, last := s[..|s| - 1], s[|s| - 1];
      assert s == front + [last];
      assert last in s + [x] && x in s + [x];
      MapAppend(front, last, f);
      if leq(last, x) {
        MapAppend(s, x, f);
      } else {
        forall a | a in front + [x] ensures a in s + [x] { }
        InsertMap(front, x, f, leq, leq');
        assert Map(s, f)[..|s| - 1] == Map(front, f);
        MapAppend(Insert(front, x, leq), last, f);
      }
    }
  }

  /** Sorting the images is imaging the sorted. */
  lemma {:induction false} SortMap<S, T>(s: seq<S>, f: S -> T, leq: (S, S) -> bool, leq': (T, T) -> bool)
    requires forall a, b :: a in s && b in s ==> leq'(f(a), f(b)) == leq(a, b)
    ensures Sort(Map(s, f), leq') == Map(Sort(s, leq), f)
  {
    if s != [] {
      var front, last := s[..|s| - 1], s[|s| - 1];
      FrontMembers(s, Sort(front, leq), leq);
      assert Map(s, f)[..|s| - 1] == Map(front, f);
      SortMap(front, f, leq, leq');
      InsertMap(Sort(front, leq), last, f, leq, leq');
    }
  }

  // ----- merging batches -----

  /** What one batch does to the children a parent has so far: append, cut, sort. */
  function MergeBatch<T>(soFar: seq<T>, batch: seq<T>, limit: int, leq: (T, T) -> bool): seq<T> {
    Sort(Take(soFar + batch, limit), leq)
  }

  /** Appending, cutting and sorting batch by batch is appending everything, cutting and sorting. */
  lemma MergeOfMerged<T(!new)>(s: seq<T>, t: seq<T>, limit: int, leq: (T, T) -> bool)
    requires Preorder(leq)
    ensures MergeBatch(Sort(Take(s, limit), leq), t, limit, leq) == Sort(Take(s + t, limit), leq)
  {
    var cut := Take(s, limit);
    SortMembers(cut, leq);
    if limit >= 0 && |s| >= limit {
      assert Take(s + t, limit) == cut;
      assert Take(Sort(cut, leq) + t, limit) == Sort(cut, leq);
      SortSorts(cut, leq);
      SortOfSorted(Sort(cut, leq), leq);
    } else {
      var rest := if limit < 0 then t else Take(t, limit - |s|);
      assert Take(s + t, limit) == s + rest;
      assert Take(Sort(cut, leq) + t, limit) == Sort(cut, leq) + rest;
      SortAppend(s, rest, leq);
    }
  }
}
