/**
 The batched export: rows are read a batch at a time, and each batch is rendered as JSON on its own
 with the brackets trimmed, so that the chunks put one after the other are the rendering of all
 rows at once.

 First lines and what the trimming takes off them, then the rendering of rows, then the loop over
 the batches that writes the file.
 */
module Export {
  import opened Rows

  // ----- lines -----

  /** `split('\n')` */
  function Split(s: string): (lines: seq<string>)
    ensures lines != []
  {
    if s == "" then [""]
    else
      var before := Split(s[..|s| - 1]);
      if s[|s| - 1] == '\n' then before + [""]
      else before[..|before| - 1] + [before[|before| - 1] + [s[|s| - 1]]]
  }

  /** `join('\n')` */
  function Join(lines: seq<string>): string {
    if lines == [] then ""
    else if |lines| == 1 then lines[0]
    else Join(lines[..|lines| - 1]) + "\n" + lines[|lines| - 1]
  }

  lemma {:induction false} JoinSplit(s: string)
    ensures Join(Split(s)) == s
  {
    if s != "" {
      var front, last := s[..|s| - 1], s[|s| - 1];
      JoinSplit(front);
      var before := Split(front);
      assert s == front + [last];
      if last == '\n' {
        assert (before + [""])[..|before|] == before;
        assert Join(before + [""]) == Join(before) + "\n" + "" == front + "\n";
      } else {
        JoinLonger(before, last);
      }
    }
  }

  lemma JoinMore(lines: seq<string>, last: string)
    ensures Join(lines + [last]) == if lines == [] then last else Join(lines) + "\n" + last
  {
    assert (lines + [last])[..|lines|] == lines;
  }

  lemma JoinLonger(lines: seq<string>, c: char)
    requires lines != []
    ensures Join(lines[..|lines| - 1] + [lines[|lines| - 1] + [c]]) == Join(lines) + [c]
  {
    hide Join;
    var front, last := lines[..|lines| - 1], lines[|lines| - 1];
    assert lines == front + [last];
    JoinMore(front, last);
    JoinMore(front, last + [c]);
    if front != [] {
      Associates(Join(front) + "\n", last, [c]);
    }
  }

  lemma Associates(a: string, b: string, c: string)
    ensures a + (b + c) == (a + b) + c
  {
  }

  lemma SplitMore(s: string, c: char)
    ensures Split(s + [c]) == if c == '\n' then Split(s) + [""] else Split(s)[..|Split(s)| - 1] + [Split(s)[|Split(s)| - 1] + [c]]
  {
    assert (s + [c])[..|s + [c]| - 1] == s;
  }

  lemma {:induction false} SplitFirst(a: string, t: string)
    requires '\n' !in a
    ensures Split(a + "\n" + t) == [a] + Split(t)
  {
    hide Split;
    if t == "" {
      SplitOne(a);
      SplitMore(a, '\n');
      assert a + "\n" + t == a + ['\n'];
      EmptyLine();
    } else {
      var front, c := t[..|t| - 1], t[|t| - 1];
      SplitFirst(a, front);
      assert t == front + [c];
      assert a + "\n" + t == (a + "\n" + front) + [c];
      SplitMore(a + "\n" + front, c);
      SplitMore(front, c);
      var before := Split(front);
      assert ([a] + before)[..|before|] == [a] + before[..|before| - 1];
    }
  }

  lemma EmptyLine()
    ensures Split("") == [""]
  {
  }

  lemma {:induction false} SplitOne(a: string)
    requires '\n' !in a
    ensures Split(a) == [a]
  {
    if a != "" {
      SplitOne(a[..|a| - 1]);
      assert a == a[..|a| - 1] + [a[|a| - 1]];
    }
  }

  lemma {:induction false} SplitLast(t: string, a: string)
    requires '\n' !in a
    ensures Split(t + "\n" + a) == Split(t) + [a]
  {
    var s := t + "\n" + a;
    if a == "" {
      assert s[..|s| - 1] == t;
    } else {
      var front := a[..|a| - 1];
      SplitLast(t, front);
      assert s[..|s| - 1] == t + "\n" + front;
      assert a == front + [a[|a| - 1]];
    }
  }

  // ----- JSON -----

  /** The elements of an array, one after the other; `render` gives an element with its indentation. */
  function Elements<T>(render: T -> string, rows: seq<T>): string {
    if rows == [] then ""
    else if |rows| == 1 then render(rows[0])
    else Elements(render, rows[..|rows| - 1]) + ",\n" + render(rows[|rows| - 1])
  }

  /** `JSON.stringify(rows, null, '\t')` */
  function Stringify<T>(render: T -> string, rows: seq<T>): string {
    if rows == [] then "[]" else "[\n" + Elements(render, rows) + "\n]"
  }

  lemma {:induction false} ElementsAppend<T>(render: T -> string, a: seq<T>, b: seq<T>)
    requires a != [] && b != []
    ensures Elements(render, a + b) == Elements(render, a) + ",\n" + Elements(render, b)
  {
    var front := b[..|b| - 1];
    assert (a + b)[..|a + b| - 1] == a + front;
    if front == [] {
      assert a + front == a;
    } else {
      ElementsAppend(render, a, front);
      assert Elements(render, a) + ",\n" + Elements(render, front) + ",\n" + render(b[|b| - 1])
          == Elements(render, a) + ",\n" + (Elements(render, front) + ",\n" + render(b[|b| - 1]));
    }
  }

  /** Where each element stands: rendered, one behind the other, with a comma and a line end between. */
  ghost predicate ElementsStand<T>(text: string, render: T -> string, rows: seq<T>, starts: seq<nat>) {
    && |starts| == |rows|
    && (rows == [] ==> text == "")
    && (rows != [] ==> starts[0] == 0 && starts[|rows| - 1] + |render(rows[|rows| - 1])| == |text|)
    && (forall i :: 0 <= i < |rows| ==> Stands(text, starts[i], render(rows[i])))
    && (forall i :: 0 <= i < |rows| - 1 ==>
          starts[i + 1] == starts[i] + |render(rows[i])| + 2 && Stands(text, starts[i] + |render(rows[i])|, ",\n"))
  }

  predicate Stands(text: string, at: nat, part: string) {
    at + |part| <= |text| && text[at..at + |part|] == part
  }

  lemma {:induction false} ElementsInPlace<T>(render: T -> string, rows: seq<T>) returns (starts: seq<nat>)
    ensures ElementsStand(Elements(render, rows), render, rows, starts)
  {
    var text := Elements(render, rows);
    if rows == [] {
      starts := [];
    } else if |rows| == 1 {
      starts := [0];
      assert text[0..|text|] == text;
    } else {
      var n := |rows| - 1;
      var before := ElementsInPlace(render, rows[..n]);
      starts := before + [|Elements(render, rows[..n])| + 2];
      assert rows[..n] + [rows[n]] == rows;
      OneMoreStands(Elements(render, rows[..n]), render, rows[..n], before, rows[n]);
    }
  }

  lemma OneMoreStands<T>(text: string, render: T -> string, rows: seq<T>, starts: seq<nat>, last: T)
    requires rows != [] && ElementsStand(text, render, rows, starts)
    ensures ElementsStand(text + ",\n" + render(last), render, rows + [last], starts + [|text| + 2])
  {
    hide Stands;
    var more := ",\n" + render(last);
    var all := text + more;
    assert all == text + ",\n" + render(last);
    forall i | 0 <= i < |rows| ensures Stands(all, starts[i], render(rows[i])) {
      StandsStill(text, more, starts[i], render(rows[i]));
    }
    forall i | 0 <= i < |rows| - 1 ensures Stands(all, starts[i] + |render(rows[i])|, ",\n") {
      StandsStill(text, more, starts[i] + |render(rows[i])|, ",\n");
    }
    LastStands(text, render(last));
  }

  lemma LastStands(text: string, last: string)
    ensures Stands(text + ",\n" + last, |text|, ",\n") && Stands(text + ",\n" + last, |text| + 2, last)
  {
  }

  lemma StandsStill(text: string, more: string, at: nat, part: string)
    requires Stands(text, at, part)
    ensures Stands(text + more, at, part)
  {
  }

  /** A file with these rows: a bracket, the rows, each in its place, and a bracket. */
  ghost predicate Holds<T>(file: string, render: T -> string, rows: seq<T>) {
    if rows == [] then file == "[]"
    else
      && |file| >= 4 && file[..2] == "[\n" && file[|file| - 2..] == "\n]"
      && AllStand(file[2..|file| - 2], render, rows)
  }

  ghost predicate AllStand<T>(text: string, render: T -> string, rows: seq<T>) {
    exists starts :: ElementsStand(text, render, rows, starts)
  }

  lemma RenderingHolds<T>(render: T -> string, rows: seq<T>)
    ensures Holds(Stringify(render, rows), render, rows)
  {
    hide Elements, ElementsStand;
    if rows != [] {
      var file, text := Stringify(render, rows), Elements(render, rows);
      var starts := ElementsInPlace(render, rows);
      assert file == "[\n" + (text + "\n]") && file == ("[\n" + text) + "\n]";
      assert file[2..|file| - 2] == text;
      assert AllStand(text, render, rows);
    }
  }

  /** A chunk without its first line, and without its last. */
  function WithoutFirstLine(s: string): string {
    Join(Split(s)[1..])
  }

  function WithoutLastLine(s: string): string {
    Join(Split(s)[..|Split(s)| - 1])
  }

  lemma FirstLineDropped(a: string, t: string)
    requires '\n' !in a
    ensures WithoutFirstLine(a + "\n" + t) == t
  {
    hide Split, Join;
    SplitFirst(a, t);
    JoinSplit(t);
    assert ([a] + Split(t))[1..] == Split(t);
  }

  lemma LastLineDropped(t: string, a: string)
    requires '\n' !in a
    ensures WithoutLastLine(t + "\n" + a) == t
  {
    hide Split, Join;
    SplitLast(t, a);
    JoinSplit(t);
    assert (Split(t) + [a])[..|Split(t)|] == Split(t);
  }

  /** What is left of the rendering of some rows. */
  function Chunk<T>(render: T -> string, rows: seq<T>, header: bool, footer: bool): string {
    if rows == [] then (if !footer then ",\n" else if header then "[]" else "")
    else (if header then "[\n" else "") + Elements(render, rows) + (if footer then "\n]" else ",\n")
  }

  lemma HeaderTrimmed<T>(render: T -> string, rows: seq<T>)
    ensures WithoutFirstLine(Stringify(render, rows)) == Chunk(render, rows, false, true)
  {
    hide WithoutFirstLine, Elements;
    if rows == [] {
      assert Split("[]") == ["[]"] by { SplitOne("[]"); }
      assert Split("[]")[1..] == [];
      assert WithoutFirstLine("[]") == Join(Split("[]")[1..]) by { EmptyArrayLines(); }
    } else {
      var tail := Elements(render, rows) + "\n]";
      FirstLineDropped("[", tail);
      assert Stringify(render, rows) == "[" + "\n" + tail;
      assert Chunk(render, rows, false, true) == "" + Elements(render, rows) + "\n]" == tail;
    }
  }

  lemma EmptyArrayLines()
    ensures WithoutFirstLine("[]") == "" && WithoutLastLine("[]") == "" && WithoutLastLine("") == ""
  {
    SplitOne("[]");
    SplitOne("");
  }

  lemma FooterTrimmed<T>(render: T -> string, rows: seq<T>, header: bool)
    ensures WithoutLastLine(Chunk(render, rows, header, true)) + ",\n" == Chunk(render, rows, header, false)
  {
    hide WithoutLastLine, Elements;
    if rows == [] {
      EmptyArrayLines();
    } else {
      var kept := (if header then "[\n" else "") + Elements(render, rows);
      LastLineDropped(kept, "]");
      assert Chunk(render, rows, header, true) == kept + "\n" + "]";
    }
  }

  /** The JSON branch of `transform`. */
  method Transform<T>(render: T -> string, rows: seq<T>, includeHeader: bool, includeFooter: bool) returns (s: string)
    ensures s == Chunk(render, rows, includeHeader, includeFooter)
  {
    hide WithoutFirstLine, WithoutLastLine, Elements;
    s := Stringify(render, rows);
    if !includeHeader {
      HeaderTrimmed(render, rows);
      s := WithoutFirstLine(s);
    }
    if !includeFooter {
      FooterTrimmed(render, rows, includeHeader);
      s := WithoutLastLine(s) + ",\n";
    }
  }

  // ----- the loop -----

  /** How many rows an export is about; a limit of -1 is none. */
  function CountOf(total: nat, requested: int): nat {
    if requested == -1 then total
    else if requested < 0 then 0
    else if total < requested then total else requested
  }

  /** A read of one batch. */
  function ReadBatch<T>(all: seq<T>, limit: nat, offset: nat): seq<T> {
    Take(Drop(all, offset), limit)
  }

  function Flatten<T>(batches: seq<seq<T>>): seq<T> {
    if batches == [] then [] else Flatten(batches[..|batches| - 1]) + batches[|batches| - 1]
  }

  /** `Math.ceil(count / size)` */
  function Batches(count: nat, size: nat): nat
    requires size > 0
  {
    (count + size - 1) / size
  }

  lemma BatchesBound(count: nat, size: nat, batch: nat)
    requires size > 0
    ensures batch < Batches(count, size) <==> batch * size < count
  {
    var n := Batches(count, size);
    assert n * size <= count + size - 1 < n * size + size;
    if batch < n {
      assert (batch + 1) * size <= n * size;
    } else {
      assert n * size <= batch * size;
    }
  }

  /** How far the first `n` batches get. */
  function ReadAfter(count: nat, size: nat, n: nat): nat {
    if n * size < count then n * size else count
  }

  /** The limit a batch is read with. */
  function BatchLimit(requested: int, size: nat, readCount: nat): int {
    if requested > 0 && size > requested - readCount then requested - readCount else size
  }

  lemma BatchIsNext<T>(all: seq<T>, requested: int, size: nat, batch: nat)
    requires size > 0
    requires var count := CountOf(|all|, requested); batch * size < count
    ensures var count := CountOf(|all|, requested);
            var limit := BatchLimit(requested, size, batch * size);
            && 0 < limit
            && ReadBatch(all, limit, batch * size) == all[batch * size..ReadAfter(count, size, batch + 1)]
            && batch * size < ReadAfter(count, size, batch + 1) <= |all|
  {
    var count := CountOf(|all|, requested);
    var limit := BatchLimit(requested, size, batch * size);
    var from := batch * size;
    assert (batch + 1) * size == from + size;
    assert ReadAfter(count, size, batch + 1) == if from + size < count then from + size else count;
    var rest := Drop(all, from);
    assert rest == all[from..];
  }

  /** The file after the rows read so far. */
  function SoFar<T>(render: T -> string, read: seq<T>, done: bool): string {
    if read == [] then "" else Chunk(render, read, true, done)
  }

  lemma ChunkFits<T>(render: T -> string, before: seq<T>, rows: seq<T>, last: bool)
    requires rows != []
    ensures SoFar(render, before, false) + Chunk(render, rows, before == [], last) == SoFar(render, before + rows, last)
  {
    hide Elements;
    if before == [] {
      assert before + rows == rows;
    } else {
      ElementsAppend(render, before, rows);
      ChunksJoin(Elements(render, before), Elements(render, rows), if last then "\n]" else ",\n");
    }
  }

  lemma ChunksJoin(a: string, b: string, end: string)
    ensures ("[\n" + a + ",\n") + ("" + b + end) == "[\n" + (a + ",\n" + b) + end
  {
  }

  /** `exportToFile`: the file, and the batches it was read in. */
  method ExportToFile<T>(render: T -> string, all: seq<T>, requested: int, size: nat)
    returns (file: string, batches: seq<seq<T>>)
    requires size > 0
    ensures file == Stringify(render, all[..CountOf(|all|, requested)])
    ensures requested == -1 || |all| <= requested ==> Holds(file, render, all)
    ensures 0 <= requested <= |all| ==> Holds(file, render, all[..requested])
    ensures Flatten(batches) == all[..CountOf(|all|, requested)]
    ensures forall i :: 0 <= i < |batches| ==> 0 < |batches[i]| <= size
  {
    hide Chunk, Stringify, SoFar, Batches, ReadBatch, BatchLimit, Flatten, Holds;
    var count := CountOf(|all|, requested);
    var batchesRequired := Batches(count, size);
    file, batches := "", [];
    var readCount := 0;
    Start(render, all);
    for batch := 0 to batchesRequired
      invariant readCount == ReadAfter(count, size, batch)
      invariant Flatten(batches) == all[..readCount]
      invariant forall i :: 0 <= i < |batches| ==> 0 < |batches[i]| <= size
      invariant batch > 0 ==> readCount > 0
      invariant file == SoFar(render, all[..readCount], batch == batchesRequired)
    {
      BatchesBound(count, size, batch);
      BatchIsNext(all, requested, size, batch);
      assert readCount == batch * size;
      var limit := BatchLimit(requested, size, readCount);
      var result := ReadBatch(all, limit, batch * size);
      ghost var before := all[..readCount];
      readCount := readCount + |result|;
      assert all[..readCount] == before + result;
      if |result| > 0 {
        var chunk := Transform(render, result, batch == 0, batch + 1 == batchesRequired);
        assert batch == 0 <==> before == [];
        ChunkFits(render, before, result, batch + 1 == batchesRequired);
        file := file + chunk;
      }
      FlattenMore(batches, result);
      batches := batches + [result];
    }
    BatchesBound(count, size, batchesRequired);
    if count == 0 {
      var empty := Transform(render, [], true, true);
      file := file + empty;
    }
    Finish(render, all[..count]);
    assert all[..|all|] == all;
    RenderingHolds(render, all[..count]);
  }

  lemma Start<T>(render: T -> string, all: seq<T>)
    ensures SoFar(render, all[..0], true) == SoFar(render, all[..0], false) == ""
    ensures Flatten<T>([]) == []
  {
  }

  lemma Finish<T>(render: T -> string, rows: seq<T>)
    ensures Stringify(render, rows) == SoFar(render, rows, true) + if rows == [] then Chunk(render, [], true, true) else ""
  {
    hide Elements;
  }

  lemma FlattenMore<T>(batches: seq<seq<T>>, batch: seq<T>)
    ensures Flatten(batches + [batch]) == Flatten(batches) + batch
  {
    assert (batches + [batch])[..|batches|] == batches;
  }
}
