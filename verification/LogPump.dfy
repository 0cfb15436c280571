/**
 * Line splitting over a chunked stream: the log pump, which keeps the unfinished
 * line between reads, and the chat reader, which does not.
 */
module LogPump {
  import opened Wrappers

  /** JavaScript's text.split("\n"): always at least one part. */
  function Split(text: string): (parts: seq<string>)
    ensures parts != []
  {
    if text == "" then [""] else WithFront(text[0], Split(text[1..]))
  }

  function WithFront(c: char, parts: seq<string>): seq<string>
    requires parts != []
  {
    if c == '\n' then [""] + parts else [[c] + parts[0]] + parts[1..]
  }

  /** The newline-terminated lines of a text, and what follows the last newline. */
  function Lines(text: string): seq<string> {
    Split(text)[..|Split(text)| - 1]
  }

  function Rest(text: string): string {
    Split(text)[|Split(text)| - 1]
  }

  function Concat(chunks: seq<string>): string {
    if chunks == [] then "" else Concat(chunks[..|chunks| - 1]) + chunks[|chunks| - 1]
  }

  /** What one line becomes: `json` and `plain` are the two parsers, which may drop a line. */
  function LineFor<T>(part: string, sse: bool, json: string -> Option<T>, plain: string -> Option<T>): Option<T> {
    if sse then
      if |part| < 5 || part[..5] != "data:" then None else json(part[5..])
    else plain(part)
  }

  function Emitted<T>(parts: seq<string>, sse: bool, json: string -> Option<T>, plain: string -> Option<T>): seq<T> {
    if parts == [] then []
    else
      var last := LineFor(parts[|parts| - 1], sse, json, plain);
      Emitted(parts[..|parts| - 1], sse, json, plain) + (if last.Some? then [last.value] else [])
  }

  /**
   * The pump. Whatever the reads cut the text into, exactly the
   * newline-terminated lines of the whole text are handed on, once each, in order.
   */
  method Pump<T>(chunks: seq<string>, sse: bool, json: string -> Option<T>, plain: string -> Option<T>)
    returns (out: seq<T>)
    ensures out == Emitted(Lines(Concat(chunks)), sse, json, plain)
  {
    out := [];
    var buffer := "";
    for n := 0 to |chunks|
      invariant buffer == Rest(Concat(chunks[..n]))
      invariant out == Emitted(Lines(Concat(chunks[..n])), sse, json, plain)
    {
      ghost var seen := Concat(chunks[..n]);
      assert chunks[..n + 1][..n] == chunks[..n];
      buffer := buffer + chunks[n];
      LinesConcat(seen, chunks[n]);
      var parts := Split(buffer);
      buffer := parts[|parts| - 1];
      parts := parts[..|parts| - 1];
      out := HandOn(out, Lines(seen), parts, sse, json, plain);
    }
    assert chunks[..|chunks|] == chunks;
  }

  method HandOn<T>(before: seq<T>, ghost seen: seq<string>, parts: seq<string>,
                   sse: bool, json: string -> Option<T>, plain: string -> Option<T>) returns (out: seq<T>)
    requires before == Emitted(seen, sse, json, plain)
    ensures out == Emitted(seen + parts, sse, json, plain)
  {
    out := before;
    assert seen + parts[..0] == seen;
    for k := 0 to |parts|
      invariant out == Emitted(seen + parts[..k], sse, json, plain)
    {
      assert (seen + parts[..k + 1])[..|seen| + k] == seen + parts[..k];
      var line := LineFor(parts[k], sse, json, plain);
      if line.Some? { out := out + [line.value]; }
    }
    assert parts[..|parts|] == parts;
  }

  lemma FrontOfConcat(c: char, init: seq<string>, tail: seq<string>)
    requires tail != []
    ensures WithFront(c, init + tail) ==
            if c == '\n' then ([""] + init) + tail
            else if init == [] then WithFront(c, tail)
            else ([[c] + init[0]] + init[1..]) + tail
  {
    if init == [] {
      assert init + tail == tail;
    } else {
      assert (init + tail)[0] == init[0] && (init + tail)[1..] == init[1..] + tail;
    }
  }

  /** What one more character in front does to the lines and the remainder. */
  lemma Peel(text: string)
    requires text != ""
    ensures var c, t := text[0], text[1..];
            if c == '\n' then Lines(text) == [""] + Lines(t) && Rest(text) == Rest(t)
            else if Lines(t) == [] then Lines(text) == [] && Rest(text) == [c] + Rest(t)
            else Lines(text) == [[c] + Lines(t)[0]] + Lines(t)[1..] && Rest(text) == Rest(t)
    ensures Split(text) == Lines(text) + [Rest(text)]
  {
    var t := text[1..];
    assert Split(t) == Lines(t) + [Rest(t)];
    FrontOfConcat(text[0], Lines(t), [Rest(t)]);
    assert WithFront(text[0], [Rest(t)])[1..] == [] || text[0] == '\n';
  }

  // ------------------------------------------- what "the lines of a text" means

  function Unlines(lines: seq<string>): string {
    if lines == [] then "" else lines[0] + "\n" + Unlines(lines[1..])
  }

  predicate OneLine(text: string) {
    forall i :: 0 <= i < |text| ==> text[i] != '\n'
  }

  lemma {:induction false} LinesAndRestMakeTheText(text: string)
    ensures Unlines(Lines(text)) + Rest(text) == text
    ensures OneLine(Rest(text)) && forall l :: l in Lines(text) ==> OneLine(l)
  {
    if text != "" {
      var c, t := text[0], text[1..];
      LinesAndRestMakeTheText(t);
      Peel(text);
      assert text == [c] + t;
      if c != '\n' && Lines(t) != [] {
        assert Lines(text)[1..] == Lines(t)[1..];
        assert Lines(t)[0] in Lines(t) && forall l :: l in Lines(t)[1..] ==> l in Lines(t);
        assert Unlines(Lines(text)) == [c] + Unlines(Lines(t));
      }
    }
  }

  lemma {:induction false} SplitOfOneLine(line: string, more: string)
    requires OneLine(line)
    ensures Split(line + "\n" + more) == [line] + Split(more)
    ensures Split(line) == [line]
  {
    if line == "" {
      assert line + "\n" + more == "\n" + more;
      assert ("\n" + more)[1..] == more;
    } else {
      SplitOfOneLine(line[1..], more);
      assert (line + "\n" + more)[1..] == line[1..] + "\n" + more;
      assert line == [line[0]] + line[1..];
    }
  }

  lemma LinesOfSplit(text: string, line: string, more: string)
    requires Split(text) == [line] + Split(more)
    ensures Lines(text) == [line] + Lines(more) && Rest(text) == Rest(more)
  {
  }

  /** There is only one way to read a text as newline-terminated lines and a remainder. */
  lemma {:induction false} LinesAreUnique(lines: seq<string>, rest: string)
    requires OneLine(rest) && forall l :: l in lines ==> OneLine(l)
    ensures Lines(Unlines(lines) + rest) == lines && Rest(Unlines(lines) + rest) == rest
  {
    if lines == [] {
      assert Unlines(lines) + rest == rest;
      SplitOfOneLine(rest, "");
    } else {
      var more := Unlines(lines[1..]) + rest;
      assert Unlines(lines) + rest == lines[0] + "\n" + more;
      assert forall l :: l in lines[1..] ==> l in lines;
      LinesAreUnique(lines[1..], rest);
      SplitOfOneLine(lines[0], more);
      LinesOfSplit(Unlines(lines) + rest, lines[0], more);
      assert lines == [lines[0]] + lines[1..];
    }
  }

  lemma {:induction false} UnlinesConcat(xs: seq<string>, ys: seq<string>)
    ensures Unlines(xs + ys) == Unlines(xs) + Unlines(ys)
  {
    if xs == [] {
      assert xs + ys == ys;
    } else {
      UnlinesConcat(xs[1..], ys);
      assert (xs + ys)[0] == xs[0] && (xs + ys)[1..] == xs[1..] + ys;
      LineJoins(xs[0], Unlines(xs[1..]), Unlines(ys));
    }
  }

  lemma LineJoins(line: string, u: string, v: string)
    ensures line + "\n" + u + v == line + "\n" + (u + v)
  {
  }

  /** Splitting resumes exactly from the unfinished line. */
  lemma LinesConcat(a: string, b: string)
    ensures Lines(a + b) == Lines(a) + Lines(Rest(a) + b)
    ensures Rest(a + b) == Rest(Rest(a) + b)
  {
    var before, after, rest := Lines(a), Lines(Rest(a) + b), Rest(Rest(a) + b);
    LinesAndRestMakeTheText(a);
    LinesAndRestMakeTheText(Rest(a) + b);
    UnlinesConcat(before, after);
    Regroup(Unlines(before), Rest(a), b, Unlines(after), rest);
    assert Unlines(before + after) + rest == a + b;
    LinesAreUnique(before + after, rest);
  }

  lemma LinesThenRest(text: string)
    ensures Split(text) == Lines(text) + [Rest(text)]
  {
  }

  lemma SplitConcat(a: string, b: string)
    ensures Split(a + b) == Lines(a) + Split(Rest(a) + b)
  {
    LinesConcat(a, b);
    LinesThenRest(a + b);
    LinesThenRest(Rest(a) + b);
    Append(Lines(a), Lines(Rest(a) + b), [Rest(a + b)]);
  }

  lemma Append(xs: seq<string>, ys: seq<string>, zs: seq<string>)
    ensures (xs + ys) + zs == xs + (ys + zs)
  {
  }

  lemma Regroup(p: string, q: string, b: string, u: string, r: string)
    requires u + r == q + b
    ensures (p + u) + r == (p + q) + b
  {
    assert (p + u) + r == p + (u + r) && (p + q) + b == p + (q + b);
  }

  // --------------------------------------------------- what becomes of each line

  /** Over SSE only `data:` lines count, and the JSON parser gets what follows; otherwise the plain parser gets the line. */
  lemma WhatALineBecomes<T>(part: string, rest: string, sse: bool, json: string -> Option<T>, plain: string -> Option<T>)
    ensures !sse ==> LineFor(part, sse, json, plain) == plain(part)
    ensures sse && part == "data:" + rest ==> LineFor(part, sse, json, plain) == json(rest)
    ensures sse && part != "data:" + (if |part| >= 5 then part[5..] else "") ==> LineFor(part, sse, json, plain) == None
  {
    if part == "data:" + rest { assert part[..5] == "data:" && part[5..] == rest; }
    if |part| >= 5 && part[..5] == "data:" { assert part == "data:" + part[5..]; }
  }

  /** Where the lines that are handed on stand. */
  function HandedOn<T>(parts: seq<string>, sse: bool, json: string -> Option<T>, plain: string -> Option<T>): seq<nat> {
    if parts == [] then []
    else
      var last := |parts| - 1;
      HandedOn(parts[..last], sse, json, plain)
      + (if LineFor(parts[last], sse, json, plain).Some? then [last] else [])
  }

  predicate HandedAt(at: seq<nat>, i: nat) {
    exists k :: 0 <= k < |at| && at[k] == i
  }

  /** `out` is what the lines at `at`, in order, become; and those are all the lines their parser accepts. */
  predicate HandsOn<T(==)>(out: seq<T>, at: seq<nat>, parts: seq<string>, sse: bool,
                           json: string -> Option<T>, plain: string -> Option<T>)
  {
    && |out| == |at|
    && (forall k :: 0 <= k < |at| ==> at[k] < |parts| && LineFor(parts[at[k]], sse, json, plain) == Some(out[k]))
    && (forall k, l :: 0 <= k < l < |at| ==> at[k] < at[l])
    && (forall i :: 0 <= i < |parts| && LineFor(parts[i], sse, json, plain).Some? ==> HandedAt(at, i))
  }

  lemma HandsOnSnoc<T>(out: seq<T>, at: seq<nat>, parts: seq<string>, part: string, sse: bool,
                       json: string -> Option<T>, plain: string -> Option<T>)
    requires HandsOn(out, at, parts, sse, json, plain)
    ensures var line := LineFor(part, sse, json, plain);
            HandsOn(out + (if line.Some? then [line.value] else []), at + (if line.Some? then [|parts|] else []),
                    parts + [part], sse, json, plain)
  {
    var line, more := LineFor(part, sse, json, plain), parts + [part];
    var at' := at + (if line.Some? then [|parts|] else []);
    forall i | 0 <= i < |more| && LineFor(more[i], sse, json, plain).Some? ensures HandedAt(at', i) {
      if i < |parts| {
        assert HandedAt(at, i);
        var k :| 0 <= k < |at| && at[k] == i;
        assert at'[k] == i;
      } else {
        assert at'[|at|] == i;
      }
    }
  }

  /** Every line its parser accepts is handed on once, in order, and nothing else is. */
  lemma {:induction false} HandedOnInOrder<T>(parts: seq<string>, sse: bool, json: string -> Option<T>, plain: string -> Option<T>)
    ensures HandsOn(Emitted(parts, sse, json, plain), HandedOn(parts, sse, json, plain), parts, sse, json, plain)
    decreases |parts|
  {
    if parts != [] {
      var last := |parts| - 1;
      HandedOnInOrder(parts[..last], sse, json, plain);
      HandsOnSnoc(Emitted(parts[..last], sse, json, plain), HandedOn(parts[..last], sse, json, plain),
                  parts[..last], parts[last], sse, json, plain);
      assert parts[..last] + [parts[last]] == parts;
    }
  }

  // ------------------------------------------------ reading without a buffer

  function NonBlank(parts: seq<string>): seq<string> {
    if parts == [] then [] else (if parts[0] != "" then [parts[0]] else []) + NonBlank(parts[1..])
  }

  /** streamChat splits each read on its own. */
  function Unbuffered(chunks: seq<string>): seq<string> {
    if chunks == [] then [] else Unbuffered(chunks[..|chunks| - 1]) + Split(chunks[|chunks| - 1])
  }

  /** A cut next to a newline, or with nothing on one side. */
  predicate CleanCut(a: string, b: string) {
    a == "" || b == "" || a[|a| - 1] == '\n' || b[0] == '\n'
  }

  predicate CutsAreClean(chunks: seq<string>) {
    forall n :: 0 <= n < |chunks| ==> CleanCut(Concat(chunks[..n]), chunks[n])
  }

  lemma {:induction false} NonBlankConcat(xs: seq<string>, ys: seq<string>)
    ensures NonBlank(xs + ys) == NonBlank(xs) + NonBlank(ys)
  {
    if xs == [] {
      assert xs + ys == ys;
    } else {
      assert (xs + ys)[0] == xs[0] && (xs + ys)[1..] == xs[1..] + ys;
      NonBlankConcat(xs[1..], ys);
    }
  }

  lemma {:induction false} EndsOfSplit(text: string)
    ensures Rest(text) == "" <==> text == "" || text[|text| - 1] == '\n'
    ensures Split(text)[0] == "" <==> text == "" || text[0] == '\n'
  {
    if text != "" {
      EndsOfSplit(text[1..]);
      Peel(text);
      if |text| == 1 {
        assert text[1..] == "";
      } else if Lines(text[1..]) == [] {
        assert Split(text[1..])[0] == Rest(text[1..]);
        LastNewline(text[1..]);
      }
    }
  }

  /** A text without a complete line does not end in a newline. */
  lemma LastNewline(text: string)
    requires Lines(text) == [] && text != ""
    ensures text[|text| - 1] != '\n'
  {
    LinesAndRestMakeTheText(text);
    assert Rest(text) == text;
  }

  lemma {:induction false} SplitAfterOneLine(line: string, b: string)
    requires OneLine(line)
    ensures Split(line + b) == [line + Split(b)[0]] + Split(b)[1..]
  {
    if line == "" {
      assert line + b == b && line + Split(b)[0] == Split(b)[0];
    } else {
      SplitAfterOneLine(line[1..], b);
      assert (line + b)[0] == line[0] && (line + b)[1..] == line[1..] + b;
      assert line + Split(b)[0] == [line[0]] + (line[1..] + Split(b)[0]);
    }
  }

  lemma NonBlankOfSplit(a: string)
    ensures NonBlank(Split(a)) == NonBlank(Lines(a)) + NonBlank([Rest(a)])
    ensures NonBlank(Split(a)) == NonBlank([Split(a)[0]]) + NonBlank(Split(a)[1..])
  {
    assert Split(a) == Lines(a) + [Rest(a)] == [Split(a)[0]] + Split(a)[1..];
    NonBlankConcat(Lines(a), [Rest(a)]);
    NonBlankConcat([Split(a)[0]], Split(a)[1..]);
  }

  lemma NonBlankThree(xs: seq<string>, ys: seq<string>, zs: seq<string>)
    ensures NonBlank(xs + (ys + zs)) == NonBlank(xs) + NonBlank(ys) + NonBlank(zs)
  {
    NonBlankConcat(ys, zs);
    NonBlankConcat(xs, ys + zs);
    Append(NonBlank(xs), NonBlank(ys), NonBlank(zs));
  }

  lemma NonBlankOfWhole(a: string, b: string)
    ensures NonBlank(Split(a + b))
         == NonBlank(Lines(a)) + NonBlank([Rest(a) + Split(b)[0]]) + NonBlank(Split(b)[1..])
  {
    SplitConcat(a, b);
    LinesAndRestMakeTheText(a);
    SplitAfterOneLine(Rest(a), b);
    NonBlankThree(Lines(a), [Rest(a) + Split(b)[0]], Split(b)[1..]);
  }

  /** Two parts of one line, read separately: one part too many unless one of them is empty. */
  lemma Halves(rest: string, head: string)
    ensures var apart, whole := NonBlank([rest]) + NonBlank([head]), NonBlank([rest + head]);
            && |apart| == |whole| + (if rest == "" || head == "" then 0 else 1)
            && (rest == "" || head == "" ==> apart == whole)
  {
    BlankOrNot(rest);
    BlankOrNot(head);
    BlankOrNot(rest + head);
    if rest == "" { assert rest + head == head; }
    if head == "" { assert rest + head == rest; }
  }

  lemma Pieces(w: seq<string>, x: seq<string>, y: seq<string>, z: seq<string>, joined: seq<string>)
    ensures |(w + x) + (y + z)| == |w + joined + z| + |x + y| - |joined|
    ensures x + y == joined ==> (w + x) + (y + z) == w + joined + z
  {
    assert (w + x) + (y + z) == w + (x + y) + z;
  }

  /** One cut: the two reads have the lines of the whole, unless the cut falls inside a line and makes it two. */
  lemma OneCut(a: string, b: string)
    ensures |NonBlank(Split(a)) + NonBlank(Split(b))|
         == |NonBlank(Split(a + b))| + (if CleanCut(a, b) then 0 else 1)
    ensures CleanCut(a, b) ==> NonBlank(Split(a)) + NonBlank(Split(b)) == NonBlank(Split(a + b))
  {
    var rest, head := Rest(a), Split(b)[0];
    CleanCutHalves(a, b);
    NonBlankOfSplit(a);
    NonBlankOfSplit(b);
    NonBlankOfWhole(a, b);
    Halves(rest, head);
    Pieces(NonBlank(Lines(a)), NonBlank([rest]), NonBlank([head]), NonBlank(Split(b)[1..]), NonBlank([rest + head]));
  }

  lemma CleanCutHalves(a: string, b: string)
    ensures CleanCut(a, b) <==> Rest(a) == "" || Split(b)[0] == ""
  {
    EndsOfSplit(a);
    EndsOfSplit(b);
  }

  lemma BlankOrNot(part: string)
    ensures NonBlank([part]) == if part == "" then [] else [part]
  {
    assert [part][1..] == [];
  }

  lemma CutsOneMore(chunks: seq<string>, before: seq<string>)
    requires chunks != [] && before == chunks[..|chunks| - 1]
    ensures CutsAreClean(chunks) <==> CutsAreClean(before) && CleanCut(Concat(before), chunks[|chunks| - 1])
  {
    assert forall n :: 0 <= n < |before| ==> before[..n] == chunks[..n] && before[n] == chunks[n];
  }

  lemma {:induction false} UnbufferedCount(chunks: seq<string>)
    ensures |NonBlank(Unbuffered(chunks))| >= |NonBlank(Split(Concat(chunks)))|
    ensures |NonBlank(Unbuffered(chunks))| == |NonBlank(Split(Concat(chunks)))| <==> CutsAreClean(chunks)
    ensures CutsAreClean(chunks) ==> NonBlank(Unbuffered(chunks)) == NonBlank(Split(Concat(chunks)))
    decreases |chunks|
  {
    if chunks == [] {
      BlankOrNot("");
    } else {
      var last := |chunks| - 1;
      var before := chunks[..last];
      UnbufferedCount(before);
      CutsOneMore(chunks, before);
      NonBlankConcat(Unbuffered(before), Split(chunks[last]));
      OneCut(Concat(before), chunks[last]);
      Counts(Concat(before), chunks[last], Unbuffered(before));
    }
  }

  lemma Counts(a: string, b: string, parts: seq<string>)
    ensures |NonBlank(parts) + NonBlank(Split(b))| == |NonBlank(parts)| + |NonBlank(Split(b))|
    ensures |NonBlank(Split(a)) + NonBlank(Split(b))| == |NonBlank(Split(a))| + |NonBlank(Split(b))|
  {
  }

  /** So a reader without a buffer sees the text's own lines if and only if no read ends inside one. */
  lemma UnbufferedIsExactWhenCutsAreClean(chunks: seq<string>)
    ensures NonBlank(Unbuffered(chunks)) == NonBlank(Split(Concat(chunks))) <==> CutsAreClean(chunks)
  {
    UnbufferedCount(chunks);
  }
}
