/** Reassembling streamed tool-call fragments into whole calls. */
module ToolCalls {
  import opened Wrappers

  datatype Index = Index(at: int)

  /**
   * One fragment. The code tests every field but the index for truthiness, so an
   * absent field and an empty one are the same and both read as "".
   */
  datatype Delta = Delta(index: Option<Index>, id: string, kind: string, name: string, arguments: string)

  datatype Call = Call(id: Option<string>, kind: string, name: string, arguments: string)

  const BLANK := Call(None, "function", "", "")

  function IndexOf(d: Delta): Index {
    d.index.GetOr(Index(0))
  }

  function Absorb(call: Call, d: Delta): Call {
    Call(if d.id != "" then Some(d.id) else call.id,
         if d.kind != "" then d.kind else call.kind,
         if d.name != "" then d.name else call.name,
         call.arguments + d.arguments)
  }

  /** All the fragments of one call, joined in order. */
  function Joined(deltas: seq<Delta>): Call {
    if deltas == [] then BLANK else Absorb(Joined(deltas[..|deltas| - 1]), deltas[|deltas| - 1])
  }

  /** The fragments carrying one index, in the order they came. */
  function For(deltas: seq<Delta>, index: Index): seq<Delta> {
    if deltas == [] then []
    else
      var last := deltas[|deltas| - 1];
      For(deltas[..|deltas| - 1], index) + (if IndexOf(last) == index then [last] else [])
  }

  /** The indexes in order of first appearance: the iteration order of the code's Map. */
  function FirstSeen(deltas: seq<Delta>): seq<Index> {
    if deltas == [] then []
    else
      var seen := FirstSeen(deltas[..|deltas| - 1]);
      var index := IndexOf(deltas[|deltas| - 1]);
      if index in seen then seen else seen + [index]
  }

  function Insert(index: Index, sorted: seq<Index>): seq<Index> {
    if sorted == [] || index.at <= sorted[0].at then [index] + sorted else [sorted[0]] + Insert(index, sorted[1..])
  }

  function Sort(indexes: seq<Index>): seq<Index> {
    if indexes == [] then [] else Insert(indexes[0], Sort(indexes[1..]))
  }

  function Assembled(deltas: seq<Delta>): seq<Call> {
    var order := Sort(FirstSeen(deltas));
    seq(|order|, i requires 0 <= i < |order| => Joined(For(deltas, order[i])))
  }

  predicate Ascending(xs: seq<Index>) {
    forall i, j :: 0 <= i < j < |xs| ==> xs[i].at < xs[j].at
  }

  predicate Distinct(xs: seq<Index>) {
    forall i, j :: 0 <= i < j < |xs| ==> xs[i] != xs[j]
  }

  // ------------------------------------------------------------ the algorithm

  method AssembleToolCalls(deltas: seq<Delta>) returns (calls: seq<Call>)
    ensures calls == Assembled(deltas)
  {
    var byIndex, order := CollectByIndex(deltas);
    SortKeepsMembers(order);
    calls := InOrder(byIndex, Sort(order));
  }

  /** The code's Map: its entries, and the order in which it lists them. */
  method CollectByIndex(deltas: seq<Delta>) returns (byIndex: map<Index, Call>, order: seq<Index>)
    ensures order == FirstSeen(deltas) && Tracks(byIndex, deltas)
  {
    byIndex, order := map[], [];
    for n := 0 to |deltas|
      invariant (byIndex, order) == Collected(deltas[..n])
    {
      var d := deltas[n];
      assert deltas[..n + 1][..n] == deltas[..n];
      var i := d.index.GetOr(Index(0));
      var existing := TakeIn(if i in byIndex then byIndex[i] else BLANK, d);
      if i !in byIndex { order := order + [i]; }
      byIndex := byIndex[i := existing];
    }
    assert deltas[..|deltas|] == deltas;
    CollectedTracks(deltas);
  }

  /** The map and its key order after each fragment in turn. */
  function Collected(deltas: seq<Delta>): (map<Index, Call>, seq<Index>) {
    if deltas == [] then (map[], []) else Taken(Collected(deltas[..|deltas| - 1]), deltas[|deltas| - 1])
  }

  function Taken(sofar: (map<Index, Call>, seq<Index>), d: Delta): (map<Index, Call>, seq<Index>) {
    var i := IndexOf(d);
    (sofar.0[i := Absorb(if i in sofar.0 then sofar.0[i] else BLANK, d)],
     if i in sofar.0 then sofar.1 else sofar.1 + [i])
  }

  lemma {:induction false} CollectedTracks(deltas: seq<Delta>)
    ensures Collected(deltas).1 == FirstSeen(deltas) && Tracks(Collected(deltas).0, deltas)
    decreases |deltas|
  {
    if deltas != [] {
      var last := |deltas| - 1;
      CollectedTracks(deltas[..last]);
      TracksOneMore(Collected(deltas[..last]).0, deltas[..last], deltas[last]);
      FirstSeenOneMore(deltas[..last], deltas[last]);
      assert deltas[..last] + [deltas[last]] == deltas;
    }
  }

  method TakeIn(call: Call, d: Delta) returns (existing: Call)
    ensures existing == Absorb(call, d)
  {
    existing := call;
    if d.id != "" { existing := existing.(id := Some(d.id)); }
    if d.kind != "" { existing := existing.(kind := d.kind); }
    if d.name != "" { existing := existing.(name := d.name); }
    if d.arguments != "" { existing := existing.(arguments := existing.arguments + d.arguments); }
  }

  /** The entries of the map, read off in the given order. */
  method InOrder(byIndex: map<Index, Call>, order: seq<Index>) returns (calls: seq<Call>)
    requires forall i :: i in order ==> i in byIndex
    ensures |calls| == |order| && forall k :: 0 <= k < |order| ==> order[k] in byIndex && calls[k] == byIndex[order[k]]
  {
    calls := [];
    for k := 0 to |order|
      invariant |calls| == k
      invariant forall j :: 0 <= j < k ==> order[j] in byIndex && calls[j] == byIndex[order[j]]
    {
      assert order[k] in order;
      calls := calls + [byIndex[order[k]]];
    }
  }

  /** The map holds, for exactly the indexes seen so far, the join of their fragments so far. */
  ghost predicate Tracks(byIndex: map<Index, Call>, deltas: seq<Delta>) {
    && (forall i :: i in byIndex <==> i in FirstSeen(deltas))
    && (forall i :: i in byIndex ==> byIndex[i] == Joined(For(deltas, i)))
  }

  lemma ForOneMore(deltas: seq<Delta>, d: Delta, index: Index)
    ensures For(deltas + [d], index) == For(deltas, index) + (if IndexOf(d) == index then [d] else [])
  {
    assert (deltas + [d])[..|deltas|] == deltas;
  }

  lemma FirstSeenOneMore(deltas: seq<Delta>, d: Delta)
    ensures FirstSeen(deltas + [d])
         == if IndexOf(d) in FirstSeen(deltas) then FirstSeen(deltas) else FirstSeen(deltas) + [IndexOf(d)]
  {
    assert (deltas + [d])[..|deltas|] == deltas;
  }

  lemma JoinedOneMore(deltas: seq<Delta>, d: Delta)
    ensures Joined(deltas + [d]) == Absorb(Joined(deltas), d)
  {
    assert (deltas + [d])[..|deltas|] == deltas;
  }

  lemma TracksOneMore(byIndex: map<Index, Call>, deltas: seq<Delta>, d: Delta)
    requires Tracks(byIndex, deltas)
    ensures var i := IndexOf(d);
            Tracks(byIndex[i := Absorb(if i in byIndex then byIndex[i] else BLANK, d)], deltas + [d])
  {
    var i := IndexOf(d);
    var more := byIndex[i := Absorb(if i in byIndex then byIndex[i] else BLANK, d)];
    FirstSeenOneMore(deltas, d);
    NotSeenMeansNoFragments(deltas, i);
    JoinedOneMore(For(deltas, i), d);
    forall j | j in more ensures more[j] == Joined(For(deltas + [d], j)) {
      ForOneMore(deltas, d, j);
      if j != i {
        assert For(deltas, j) + [] == For(deltas, j);
      }
    }
  }

  lemma {:induction false} NotSeenMeansNoFragments(deltas: seq<Delta>, index: Index)
    ensures index in FirstSeen(deltas) <==> For(deltas, index) != []
    decreases |deltas|
  {
    if deltas != [] { NotSeenMeansNoFragments(deltas[..|deltas| - 1], index); }
  }

  lemma {:induction false} InsertKeepsOrder(index: Index, sorted: seq<Index>)
    requires Ascending(sorted) && index !in sorted
    ensures Ascending(Insert(index, sorted))
    ensures forall x :: x in Insert(index, sorted) <==> x == index || x in sorted
    ensures |Insert(index, sorted)| == |sorted| + 1
  {
    if sorted != [] && index.at > sorted[0].at {
      InsertKeepsOrder(index, sorted[1..]);
      var rest := Insert(index, sorted[1..]);
      forall k | 0 <= k < |rest| ensures sorted[0].at < rest[k].at {
        assert rest[k] in rest;
      }
      assert forall x :: x in sorted <==> x == sorted[0] || x in sorted[1..];
    }
  }

  lemma {:induction false} InsertKeepsMembers(index: Index, sorted: seq<Index>)
    ensures forall x :: x in Insert(index, sorted) <==> x == index || x in sorted
  {
    if sorted != [] && index.at > sorted[0].at {
      InsertKeepsMembers(index, sorted[1..]);
      assert forall x :: x in sorted <==> x == sorted[0] || x in sorted[1..];
    }
  }

  lemma {:induction false} SortKeepsMembers(indexes: seq<Index>)
    ensures forall x :: x in Sort(indexes) <==> x in indexes
  {
    if indexes != [] {
      SortKeepsMembers(indexes[1..]);
      InsertKeepsMembers(indexes[0], Sort(indexes[1..]));
      assert forall x :: x in indexes <==> x == indexes[0] || x in indexes[1..];
    }
  }

  lemma {:induction false} SortAscends(indexes: seq<Index>)
    requires Distinct(indexes)
    ensures Ascending(Sort(indexes))
  {
    if indexes != [] {
      SortAscends(indexes[1..]);
      SortKeepsMembers(indexes[1..]);
      InsertKeepsOrder(indexes[0], Sort(indexes[1..]));
    }
  }

  lemma {:induction false} FirstSeenIsDistinct(deltas: seq<Delta>)
    ensures Distinct(FirstSeen(deltas))
    decreases |deltas|
  {
    if deltas != [] { FirstSeenIsDistinct(deltas[..|deltas| - 1]); }
  }

  /** One call per index that appears, in ascending order of index, whatever order the fragments came in. */
  lemma OneCallPerIndex(deltas: seq<Delta>)
    ensures Ascending(Sort(FirstSeen(deltas)))
    ensures forall i :: i in Sort(FirstSeen(deltas)) <==> For(deltas, i) != []
    ensures |Assembled(deltas)| == |Sort(FirstSeen(deltas))|
  {
    FirstSeenIsDistinct(deltas);
    SortAscends(FirstSeen(deltas));
    SortKeepsMembers(FirstSeen(deltas));
    forall i ensures i in FirstSeen(deltas) <==> For(deltas, i) != [] { NotSeenMeansNoFragments(deltas, i); }
  }

  lemma EmptyTogether(xs: seq<Index>, ys: seq<Index>)
    requires forall x :: x in xs <==> x in ys
    ensures xs == [] <==> ys == []
  {
    if xs != [] { assert xs[0] in xs && xs[0] in ys; }
    if ys != [] { assert ys[0] in ys && ys[0] in xs; }
  }

  /** Two ascending sequences with the same members are the same sequence. */
  lemma {:induction false} AscendingIsUnique(xs: seq<Index>, ys: seq<Index>)
    requires Ascending(xs) && Ascending(ys) && forall x :: x in xs <==> x in ys
    ensures xs == ys
    decreases |xs|
  {
    EmptyTogether(xs, ys);
    if xs != [] {
      assert xs[0] in xs && xs[0] in ys;
      assert ys[0] in ys && ys[0] in xs;
      assert xs[0] == ys[0];
      forall x ensures x in xs[1..] <==> x in ys[1..] {
        assert x in xs <==> x == xs[0] || x in xs[1..];
        assert x in ys <==> x == ys[0] || x in ys[1..];
      }
      AscendingIsUnique(xs[1..], ys[1..]);
    }
  }

  // -------------------------------------------------------- a call, field by field

  /** A field nobody gives keeps its default. */
  lemma {:induction false} UnsaidFields(deltas: seq<Delta>)
    ensures (forall d :: d in deltas ==> d.id == "") ==> Joined(deltas).id == None
    ensures (forall d :: d in deltas ==> d.kind == "") ==> Joined(deltas).kind == "function"
    ensures (forall d :: d in deltas ==> d.name == "") ==> Joined(deltas).name == ""
    decreases |deltas|
  {
    if deltas != [] {
      var last := |deltas| - 1;
      assert deltas[last] in deltas && forall d :: d in deltas[..last] ==> d in deltas;
      UnsaidFields(deltas[..last]);
    }
  }

  /** Each field is that of the last fragment to give it; the arguments are all the fragments' arguments in order. */
  lemma {:induction false} LastFragmentDecides(deltas: seq<Delta>, k: nat)
    requires k < |deltas|
    ensures (deltas[k].id != "" && forall i :: k < i < |deltas| ==> deltas[i].id == "") ==>
              Joined(deltas).id == Some(deltas[k].id)
    ensures (deltas[k].kind != "" && forall i :: k < i < |deltas| ==> deltas[i].kind == "") ==>
              Joined(deltas).kind == deltas[k].kind
    ensures (deltas[k].name != "" && forall i :: k < i < |deltas| ==> deltas[i].name == "") ==>
              Joined(deltas).name == deltas[k].name
    ensures Joined(deltas).arguments == Arguments(deltas)
    decreases |deltas|
  {
    var last := |deltas| - 1;
    if k < last {
      LastFragmentDecides(deltas[..last], k);
    } else {
      ArgumentsInOrder(deltas);
    }
  }

  lemma {:induction false} ArgumentsInOrder(deltas: seq<Delta>)
    ensures Joined(deltas).arguments == Arguments(deltas)
    decreases |deltas|
  {
    if deltas != [] { ArgumentsInOrder(deltas[..|deltas| - 1]); }
  }

  /** A fragment joins the call of its own index, or call 0 if it has none, and no other call. */
  lemma WhereAFragmentGoes(deltas: seq<Delta>, d: Delta, i: Index, j: Index)
    requires i == match d.index case Some(own) => own case None => Index(0)
    requires j != i
    ensures For(deltas + [d], i) == For(deltas, i) + [d]
    ensures For(deltas + [d], j) == For(deltas, j)
  {
    ForOneMore(deltas, d, i);
    ForOneMore(deltas, d, j);
    assert For(deltas, j) + [] == For(deltas, j);
  }

  // ----------------------------------------------------------- the round trip

  function Arguments(deltas: seq<Delta>): string {
    if deltas == [] then "" else Arguments(deltas[..|deltas| - 1]) + deltas[|deltas| - 1].arguments
  }

  /** How a backend streams a call: the first frame names it, the rest only append to its arguments. */
  predicate Fragments(deltas: seq<Delta>, call: Call) {
    && deltas != []
    && deltas[0].id == call.id.GetOr("")
    && deltas[0].kind == call.kind
    && deltas[0].name == call.name
    && (forall k :: 1 <= k < |deltas| ==> deltas[k].id == "" && deltas[k].kind == "" && deltas[k].name == "")
    && Arguments(deltas) == call.arguments
  }

  /** A call whose id, if any, and type are not the empty string. */
  predicate Proper(call: Call) {
    call.kind != "" && call.id != Some("")
  }

  lemma {:induction false} JoiningFragments(deltas: seq<Delta>)
    requires deltas != []
    requires forall k :: 1 <= k < |deltas| ==> deltas[k].id == "" && deltas[k].kind == "" && deltas[k].name == ""
    ensures Joined(deltas) == Absorb(BLANK, deltas[0]).(arguments := Arguments(deltas))
    decreases |deltas|
  {
    var last := |deltas| - 1;
    if last == 0 {
      assert deltas[..0] == [];
      assert Joined(deltas[..0]) == BLANK && Arguments(deltas[..0]) == "";
    } else {
      JoiningFragments(deltas[..last]);
    }
  }

  /** Joining gives a fragmented call back exactly when the call is proper. */
  lemma FragmentsJoinExactlyWhenProper(deltas: seq<Delta>, call: Call)
    requires Fragments(deltas, call)
    ensures Joined(deltas) == call <==> Proper(call)
  {
    JoiningFragments(deltas);
  }

  function Indexes(entries: seq<(Index, Call)>): seq<Index> {
    seq(|entries|, i requires 0 <= i < |entries| => entries[i].0)
  }

  function Calls(entries: seq<(Index, Call)>): seq<Call> {
    seq(|entries|, i requires 0 <= i < |entries| => entries[i].1)
  }

  /** An interleaving, in any order that keeps each call's own order, of one fragmentation of every call. */
  predicate Interleaves(deltas: seq<Delta>, entries: seq<(Index, Call)>) {
    && (forall d :: d in deltas ==> IndexOf(d) in Indexes(entries))
    && (forall i :: 0 <= i < |entries| ==> Fragments(For(deltas, entries[i].0), entries[i].1))
  }

  lemma {:induction false} FragmentsComeFromDeltas(deltas: seq<Delta>, index: Index)
    requires For(deltas, index) != []
    ensures exists d :: d in deltas && IndexOf(d) == index
    decreases |deltas|
  {
    var last := |deltas| - 1;
    if IndexOf(deltas[last]) == index {
      assert deltas[last] in deltas;
    } else {
      FragmentsComeFromDeltas(deltas[..last], index);
      var d :| d in deltas[..last] && IndexOf(d) == index;
      assert d in deltas;
    }
  }

  /** The round trip: any interleaving of any fragmentation reassembles to the calls, sorted by index. */
  lemma ReassemblyRoundTrips(deltas: seq<Delta>, entries: seq<(Index, Call)>)
    requires Ascending(Indexes(entries)) && Interleaves(deltas, entries)
    ensures Assembled(deltas) == Calls(entries) <==> forall i :: 0 <= i < |entries| ==> Proper(entries[i].1)
  {
    OneCallPerIndex(deltas);
    var order := Sort(FirstSeen(deltas));
    forall x ensures x in order <==> x in Indexes(entries) {
      if x in order {
        FragmentsComeFromDeltas(deltas, x);
      }
      if x in Indexes(entries) {
        var i :| 0 <= i < |entries| && Indexes(entries)[i] == x;
        assert Fragments(For(deltas, entries[i].0), entries[i].1);
      }
    }
    AscendingIsUnique(order, Indexes(entries));
    forall i | 0 <= i < |entries|
      ensures Assembled(deltas)[i] == Calls(entries)[i] <==> Proper(entries[i].1)
    {
      assert order[i] == entries[i].0;
      FragmentsJoinExactlyWhenProper(For(deltas, entries[i].0), entries[i].1);
    }
  }
}
