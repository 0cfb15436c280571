/**
 * The complexity heuristic over a conversation's text. A char stands for one
 * UTF-16 code unit, and `lower` for the lower-casing of one of them.
 */
module Complexity {
  import opened Wrappers

  const LONG_PROMPT_CHAR_THRESHOLD := 4000
  const LARGE_CODE_BLOCK_CHAR_THRESHOLD := 800

  const MARKERS := [
    "step by step",
    "step-by-step",
    "prove",
    "analyze in depth",
    "in-depth analysis",
    "think through",
    "reason through",
    "chain of thought"
  ]

  // ---------------------------------------------------------------- the text

  /** A message's content: a string, a list of parts of which only some carry text, or null. */
  datatype Content = Plain(text: string) | Parts(parts: seq<Option<string>>) | Null

  function Join(texts: seq<string>, separator: string): string {
    if texts == [] then ""
    else if |texts| == 1 then texts[0]
    else Join(texts[..|texts| - 1], separator) + separator + texts[|texts| - 1]
  }

  function TextOf(content: Content): string {
    match content
    case Plain(text) => text
    case Parts(parts) => Join(seq(|parts|, i requires 0 <= i < |parts| => parts[i].GetOr("")), " ")
    case Null => ""
  }

  function Flatten(messages: seq<Content>): string {
    Join(seq(|messages|, i requires 0 <= i < |messages| => TextOf(messages[i])), "\n")
  }

  predicate Prefix(p: string, t: string) {
    |p| <= |t| && t[..|p|] == p
  }

  // ------------------------------------------------------------- the signals

  function Lowered(text: string, lower: char -> string): string {
    if text == "" then "" else Lowered(text[..|text| - 1], lower) + lower(text[|text| - 1])
  }

  predicate OccursAt(text: string, part: string, i: nat) {
    i + |part| <= |text| && text[i..i + |part|] == part
  }

  predicate Contains(text: string, part: string) {
    exists i :: 0 <= i <= |text| && OccursAt(text, part, i)
  }

  predicate HasMarker(text: string, lower: char -> string) {
    exists k :: 0 <= k < |MARKERS| && Contains(Lowered(text, lower), MARKERS[k])
  }

  predicate FenceAt(text: string, i: nat) {
    i + 3 <= |text| && text[i] == '`' && text[i + 1] == '`' && text[i + 2] == '`'
  }

  /** The first fence at or after a position. */
  function FirstFence(text: string, from: nat): (found: Option<nat>)
    ensures found.Some? ==> from <= found.value && FenceAt(text, found.value)
    decreases |text| - from
  {
    if from + 3 > |text| then None
    else if FenceAt(text, from) then Some(from)
    else FirstFence(text, from + 1)
  }

  lemma {:induction false} FirstFenceIsFirst(text: string, from: nat, i: nat)
    requires from <= i && (FirstFence(text, from).None? || i < FirstFence(text, from).value)
    ensures !FenceAt(text, i)
    decreases |text| - from
  {
    if from + 3 <= |text| && from < i { FirstFenceIsFirst(text, from + 1, i); }
  }

  /** A fence, then the nearest closing one. */
  datatype Block = Block(open: nat, close: nat)

  predicate Large(block: Block) {
    block.close + 3 - block.open >= LARGE_CODE_BLOCK_CHAR_THRESHOLD
  }

  /** The scanner's next block at or after a position. */
  function NextBlock(text: string, from: nat): (found: Option<Block>)
    ensures found.Some? ==>
              from <= found.value.open && found.value.open + 3 <= found.value.close && found.value.close + 3 <= |text|
  {
    match FirstFence(text, from)
    case None => None
    case Some(open) =>
      match FirstFence(text, open + 3)
      case None => None
      case Some(close) => Some(Block(open, close))
  }

  /** The scanner for fenced blocks: leftmost, shortest, not overlapping. */
  predicate HasLargeBlock(text: string, from: nat)
    decreases |text| - from
  {
    var block := NextBlock(text, from);
    block.Some? && (Large(block.value) || HasLargeBlock(text, block.value.close + 3))
  }

  predicate NoFenceIn(text: string, from: nat, to: nat) {
    forall i :: from <= i < to ==> !FenceAt(text, i)
  }

  /** What the lazy pattern matches at its leftmost position from `from` on. */
  predicate NextMatch(text: string, from: nat, block: Block) {
    && from <= block.open && NoFenceIn(text, from, block.open) && FenceAt(text, block.open)
    && block.open + 3 <= block.close && NoFenceIn(text, block.open + 3, block.close) && FenceAt(text, block.close)
  }

  /** Successive matches, each starting where the one before ended. */
  predicate Matches(text: string, from: nat, blocks: seq<Block>)
    decreases |blocks|
  {
    blocks == [] || (NextMatch(text, from, blocks[0]) && Matches(text, blocks[0].close + 3, blocks[1..]))
  }

  lemma FirstFenceAt(text: string, from: nat, i: nat)
    requires from <= i && NoFenceIn(text, from, i) && FenceAt(text, i)
    ensures FirstFence(text, from) == Some(i)
  {
    var found := FirstFence(text, from);
    if found.None? || i < found.value { FirstFenceIsFirst(text, from, i); }
    assert found.Some? && found.value <= i;
  }

  lemma NothingBeforeFirst(text: string, from: nat)
    requires FirstFence(text, from).Some?
    ensures NoFenceIn(text, from, FirstFence(text, from).value)
  {
    forall i | from <= i < FirstFence(text, from).value ensures !FenceAt(text, i) { FirstFenceIsFirst(text, from, i); }
  }

  lemma NextBlockIsTheMatch(text: string, from: nat, block: Block)
    ensures NextBlock(text, from) == Some(block) <==> NextMatch(text, from, block)
  {
    if NextBlock(text, from) == Some(block) {
      NothingBeforeFirst(text, from);
      NothingBeforeFirst(text, block.open + 3);
    }
    if NextMatch(text, from, block) {
      FirstFenceAt(text, from, block.open);
      FirstFenceAt(text, block.open + 3, block.close);
    }
  }

  lemma {:induction false} LargeMatchIsFound(text: string, from: nat, blocks: seq<Block>, k: nat)
    requires Matches(text, from, blocks) && k < |blocks| && Large(blocks[k])
    ensures HasLargeBlock(text, from)
    decreases |blocks|
  {
    NextBlockIsTheMatch(text, from, blocks[0]);
    if k > 0 { LargeMatchIsFound(text, blocks[0].close + 3, blocks[1..], k - 1); }
  }

  lemma {:induction false} FoundIsALargeMatch(text: string, from: nat) returns (blocks: seq<Block>)
    requires HasLargeBlock(text, from)
    ensures Matches(text, from, blocks) && blocks != [] && Large(blocks[|blocks| - 1])
    decreases |text| - from
  {
    var block := NextBlock(text, from).value;
    NextBlockIsTheMatch(text, from, block);
    var more := [];
    if !Large(block) { more := FoundIsALargeMatch(text, block.close + 3); }
    blocks := [block] + more;
    assert blocks[1..] == more;
  }

  predicate SomeLarge(blocks: seq<Block>) {
    exists k :: 0 <= k < |blocks| && blocks[k].close + 3 - blocks[k].open >= 800
  }

  /** One of the pattern's successive matches is 800 characters or more. */
  ghost predicate HasLargeMatch(text: string) {
    exists blocks: seq<Block> :: Matches(text, 0, blocks) && SomeLarge(blocks)
  }

  /** The scanner says yes exactly when one of the pattern's successive matches is large. */
  lemma ScannerFindsLargeMatches(text: string)
    ensures HasLargeBlock(text, 0) <==> HasLargeMatch(text)
  {
    if HasLargeBlock(text, 0) {
      var blocks := FoundIsALargeMatch(text, 0);
      assert Large(blocks[|blocks| - 1]) && SomeLarge(blocks);
    }
    if HasLargeMatch(text) {
      var blocks: seq<Block> :| Matches(text, 0, blocks) && SomeLarge(blocks);
      var k :| 0 <= k < |blocks| && blocks[k].close + 3 - blocks[k].open >= 800;
      LargeMatchIsFound(text, 0, blocks, k);
    }
  }

  /** JavaScript's \s. */
  predicate IsSpace(c: char) {
    var n := c as int;
    || 9 <= n <= 13 || n == 32 || n == 160 || n == 5760 || 8192 <= n <= 8202
    || n == 8232 || n == 8233 || n == 8239 || n == 8287 || n == 12288 || n == 65279
  }

  /** Tab to carriage return, the space, the no-break and byte-order marks, and Unicode's other space and line separators. */
  lemma SpacesAreThese(c: char)
    ensures IsSpace(c) <==>
              || c == '\t' || c == '\n' || c == '\U{0B}' || c == '\U{0C}' || c == '\r' || c == ' '
              || c == '\U{A0}' || c == '\U{FEFF}' || c == '\U{1680}'
              || '\U{2000}' <= c <= '\U{200A}'
              || c == '\U{2028}' || c == '\U{2029}' || c == '\U{202F}' || c == '\U{205F}' || c == '\U{3000}'
  {
  }

  predicate IsDigit(c: char) {
    '0' <= c <= '9'
  }

  function DigitsEnd(text: string, from: nat): (end: nat)
    requires from <= |text|
    ensures from <= end <= |text|
    ensures forall k :: from <= k < end ==> IsDigit(text[k])
    ensures end < |text| ==> !IsDigit(text[end])
    decreases |text| - from
  {
    if from < |text| && IsDigit(text[from]) then DigitsEnd(text, from + 1) else from
  }

  /** Digits from a position, then a bracket or full stop, then a space: where that ends. */
  function NumberEnd(text: string, from: nat): Option<nat>
    requires from <= |text|
  {
    var end := DigitsEnd(text, from);
    if from < end && end + 1 < |text| && (text[end] == ')' || text[end] == '.') && IsSpace(text[end + 1])
    then Some(end + 2) else None
  }

  /** A numbered item matched at a position: at the start of the text, or after a space. */
  function ItemEnd(text: string, at: nat): (end: Option<nat>)
    requires at < |text|
    ensures end.Some? ==> at + 2 < end.value <= |text|
    ensures end.Some? ==> forall k :: at < k < end.value - 1 ==> !IsSpace(text[k])
  {
    if at == 0 && NumberEnd(text, 0).Some? then NumberEnd(text, 0)
    else if IsSpace(text[at]) then NumberEnd(text, at + 1)
    else None
  }

  function ItemCount(text: string, from: nat): nat
    decreases |text| - from
  {
    if from >= |text| then 0
    else match ItemEnd(text, from)
      case Some(end) => 1 + ItemCount(text, end)
      case None => ItemCount(text, from + 1)
  }

  function QuestionMarks(text: string): nat {
    if text == "" then 0 else QuestionMarks(text[..|text| - 1]) + (if text[|text| - 1] == '?' then 1 else 0)
  }

  predicate IsComplex(text: string, lower: char -> string) {
    || |text| >= LONG_PROMPT_CHAR_THRESHOLD
    || HasMarker(text, lower)
    || HasLargeBlock(text, 0)
    || ItemCount(text, 0) >= 2
    || QuestionMarks(text) >= 3
  }

  // ------------------------------------------------- what the scanner counts

  predicate ItemAt(text: string, at: nat) {
    at < |text| && ItemEnd(text, at).Some?
  }

  lemma {:induction false} SomeItem(text: string, from: nat)
    ensures ItemCount(text, from) >= 1 <==> exists i: nat :: from <= i && ItemAt(text, i)
    decreases |text| - from
  {
    if from < |text| {
      if ItemEnd(text, from).Some? {
        assert ItemAt(text, from);
      } else {
        SomeItem(text, from + 1);
        assert !ItemAt(text, from);
      }
    }
  }

  /** Two separate items anywhere in the text: taking the leftmost first never loses the pair. */
  predicate TwoItems(text: string, from: nat) {
    exists i, j :: from <= i < |text| && i < j < |text| && ItemAt(text, i) && ItemAt(text, j)
                && ItemEnd(text, i).value <= j
  }

  lemma {:induction false} CountsTwoExactlyWhenTwoApart(text: string, from: nat)
    ensures ItemCount(text, from) >= 2 <==> TwoItems(text, from)
    decreases |text| - from
  {
    if from < |text| {
      if ItemEnd(text, from).Some? {
        var end := ItemEnd(text, from).value;
        assert ItemAt(text, from);
        SomeItem(text, end);
        if TwoItems(text, from) {
          var i, j :| from <= i < |text| && i < j < |text| && ItemAt(text, i) && ItemAt(text, j)
                   && ItemEnd(text, i).value <= j;
          if from < i { ItemsBarelyOverlap(text, from, i); }
          assert end <= j;
        }
        if ItemCount(text, end) >= 1 {
          var j: nat :| end <= j && ItemAt(text, j);
          assert from < j < |text|;
        }
      } else {
        CountsTwoExactlyWhenTwoApart(text, from + 1);
        assert !ItemAt(text, from);
        assert TwoItems(text, from) <==> TwoItems(text, from + 1);
      }
    }
  }

  lemma ItemsBarelyOverlap(text: string, i: nat, j: nat)
    requires i < j && ItemAt(text, i) && ItemAt(text, j)
    ensures ItemEnd(text, i).value <= ItemEnd(text, j).value
  {
  }

  // ------------------------------------------------------------ what is complex

  /** A numbered item: a start of text or a space, digits, a bracket or full stop, a space. */
  predicate IsItem(text: string, at: nat, digits: nat, mark: nat) {
    && (digits == at + 1 || (digits == at == 0))
    && digits < mark && mark + 1 < |text|
    && (digits == at + 1 ==> IsSpace(text[at]))
    && (forall k :: digits <= k < mark ==> '0' <= text[k] <= '9')
    && (text[mark] == ')' || text[mark] == '.')
    && IsSpace(text[mark + 1])
  }

  lemma {:induction false} DigitsEndHere(text: string, from: nat, mark: nat)
    requires from <= mark < |text| && (forall k :: from <= k < mark ==> IsDigit(text[k])) && !IsDigit(text[mark])
    ensures DigitsEnd(text, from) == mark
    decreases mark - from
  {
    if from < mark { DigitsEndHere(text, from + 1, mark); }
  }

  lemma ItemEndsAfterItsMark(text: string, at: nat, digits: nat, mark: nat)
    requires IsItem(text, at, digits, mark)
    ensures at < |text| && ItemEnd(text, at) == Some(mark + 2)
  {
    DigitsEndHere(text, digits, mark);
    if digits == at + 1 && at == 0 { assert !IsDigit(text[0]) && DigitsEnd(text, 0) == 0; }
  }

  lemma ItemHasItsParts(text: string, at: nat) returns (digits: nat, mark: nat)
    requires ItemAt(text, at)
    ensures IsItem(text, at, digits, mark) && ItemEnd(text, at) == Some(mark + 2)
  {
    digits := if at == 0 && NumberEnd(text, 0).Some? then 0 else at + 1;
    mark := DigitsEnd(text, digits);
  }

  /** Two items, the second not starting before the first has ended. */
  ghost predicate HasTwoItems(text: string) {
    exists i: nat, d: nat, m: nat, j: nat, e: nat, n: nat :: IsItem(text, i, d, m) && IsItem(text, j, e, n) && m + 2 <= j
  }

  lemma TwoItemsHaveParts(text: string)
    requires TwoItems(text, 0)
    ensures HasTwoItems(text)
  {
    var i, j :| 0 <= i < |text| && i < j < |text| && ItemAt(text, i) && ItemAt(text, j) && ItemEnd(text, i).value <= j;
    var d, m := ItemHasItsParts(text, i);
    var e, n := ItemHasItsParts(text, j);
  }

  lemma PartsAreTwoItems(text: string)
    requires HasTwoItems(text)
    ensures TwoItems(text, 0)
  {
    var i: nat, d: nat, m: nat, j: nat, e: nat, n: nat :| IsItem(text, i, d, m) && IsItem(text, j, e, n) && m + 2 <= j;
    ItemEndsAfterItsMark(text, i, d, m);
    ItemEndsAfterItsMark(text, j, e, n);
    assert ItemAt(text, i) && ItemAt(text, j);
  }

  lemma TwoItemsByParts(text: string)
    ensures TwoItems(text, 0) <==> HasTwoItems(text)
  {
    if TwoItems(text, 0) { TwoItemsHaveParts(text); }
    if HasTwoItems(text) { PartsAreTwoItems(text); }
  }

  predicate QuestionAt(text: string, i: nat) {
    i < |text| && text[i] == '?'
  }

  lemma {:induction false} OneQuestion(text: string)
    ensures QuestionMarks(text) >= 1 <==> exists a: nat :: QuestionAt(text, a)
    decreases |text|
  {
    if text != "" {
      var p := text[..|text| - 1];
      OneQuestion(p);
      assert forall i: nat :: i < |p| ==> (QuestionAt(p, i) <==> QuestionAt(text, i));
      if QuestionAt(text, |p|) { }
    }
  }

  lemma {:induction false} TwoQuestions(text: string)
    ensures QuestionMarks(text) >= 2 <==> exists a: nat, b: nat :: a < b && QuestionAt(text, a) && QuestionAt(text, b)
    decreases |text|
  {
    if text != "" {
      var p := text[..|text| - 1];
      OneQuestion(p);
      TwoQuestions(p);
      assert forall i: nat :: i < |p| ==> (QuestionAt(p, i) <==> QuestionAt(text, i));
      if QuestionAt(text, |p|) { }
    }
  }

  lemma {:induction false} ThreeQuestions(text: string)
    ensures QuestionMarks(text) >= 3
         <==> HasThreeQuestions(text)
    decreases |text|
  {
    if text != "" {
      var p := text[..|text| - 1];
      TwoQuestions(p);
      ThreeQuestions(p);
      assert forall i: nat :: i < |p| ==> (QuestionAt(p, i) <==> QuestionAt(text, i));
      if QuestionAt(text, |p|) { }
    }
  }

  lemma MarkersAreThese(text: string, lower: char -> string)
    ensures var low := Lowered(text, lower);
            HasMarker(text, lower) <==>
              || Contains(low, "step by step") || Contains(low, "step-by-step") || Contains(low, "prove")
              || Contains(low, "analyze in depth") || Contains(low, "in-depth analysis")
              || Contains(low, "think through") || Contains(low, "reason through") || Contains(low, "chain of thought")
  {
    var low := Lowered(text, lower);
    assert MARKERS[0] == "step by step" && MARKERS[1] == "step-by-step" && MARKERS[2] == "prove";
    assert MARKERS[3] == "analyze in depth" && MARKERS[4] == "in-depth analysis" && MARKERS[5] == "think through";
    assert MARKERS[6] == "reason through" && MARKERS[7] == "chain of thought";
  }

  ghost predicate HasThreeQuestions(text: string) {
    exists a: nat, b: nat, c: nat :: a < b < c && QuestionAt(text, a) && QuestionAt(text, b) && QuestionAt(text, c)
  }

  /**
   * Exactly what makes a prompt complex: 4000 characters; a marker anywhere in its
   * lower-cased text; a fenced block of 800 among the pattern's matches; two separate
   * numbered items; or three question marks.
   */
  lemma WhatIsComplex(text: string, lower: char -> string)
    ensures IsComplex(text, lower) <==>
              |text| >= 4000 || HasMarker(text, lower) || HasLargeMatch(text) || HasTwoItems(text) || HasThreeQuestions(text)
  {
    ScannerFindsLargeMatches(text);
    CountsTwoExactlyWhenTwoApart(text, 0);
    TwoItemsByParts(text);
    ThreeQuestions(text);
  }

  /** The text looked at: every message's, in order, a newline between two; a message's parts have a space between. */
  lemma FlattenSnoc(messages: seq<Content>, m: Content)
    ensures var text := match m case Plain(text) => text case Null => "" case Parts(_) => TextOf(m);
            && Flatten([m]) == text
            && (messages != [] ==> Flatten(messages + [m]) == Flatten(messages) + "\n" + text)
  {
    var texts := seq(|messages|, i requires 0 <= i < |messages| => TextOf(messages[i]));
    var all := messages + [m];
    assert seq(|all|, i requires 0 <= i < |all| => TextOf(all[i])) == texts + [TextOf(m)];
    assert (texts + [TextOf(m)])[..|texts|] == texts;
  }

  lemma PartsSnoc(parts: seq<Option<string>>, part: Option<string>)
    ensures TextOf(Parts([part])) == part.GetOr("")
    ensures parts != [] ==> TextOf(Parts(parts + [part])) == TextOf(Parts(parts)) + " " + part.GetOr("")
  {
    var texts := seq(|parts|, i requires 0 <= i < |parts| => parts[i].GetOr(""));
    var all := parts + [part];
    assert seq(|all|, i requires 0 <= i < |all| => all[i].GetOr("")) == texts + [part.GetOr("")];
    assert (texts + [part.GetOr("")])[..|texts|] == texts;
  }

  // --------------------------------------------------------------- monotone

  lemma {:induction false} JoinGrows(texts: seq<string>, more: seq<string>, separator: string)
    ensures Prefix(Join(texts, separator), Join(texts + more, separator))
    decreases |more|
  {
    if more == [] {
      assert texts + more == texts;
    } else {
      var last := |more| - 1;
      JoinGrows(texts, more[..last], separator);
      var whole := texts + more;
      assert whole[..|whole| - 1] == texts + more[..last];
    }
  }

  lemma FlattenGrows(messages: seq<Content>, more: seq<Content>)
    ensures Prefix(Flatten(messages), Flatten(messages + more))
  {
    var texts := seq(|messages|, i requires 0 <= i < |messages| => TextOf(messages[i]));
    var others := seq(|more|, i requires 0 <= i < |more| => TextOf(more[i]));
    var all := messages + more;
    assert seq(|all|, i requires 0 <= i < |all| => TextOf(all[i])) == texts + others;
    JoinGrows(texts, others, "\n");
  }

  lemma {:induction false} LoweredGrows(p: string, t: string, lower: char -> string)
    requires Prefix(p, t)
    ensures Prefix(Lowered(p, lower), Lowered(t, lower))
    decreases |t|
  {
    if |p| < |t| {
      LoweredGrows(p, t[..|t| - 1], lower);
    } else {
      assert p == t;
    }
  }

  lemma ContainsGrows(p: string, t: string, part: string)
    requires Prefix(p, t) && Contains(p, part)
    ensures Contains(t, part)
  {
    var i :| 0 <= i <= |p| && OccursAt(p, part, i);
    assert t[i..i + |part|] == t[..|p|][i..i + |part|];
    assert OccursAt(t, part, i);
  }

  lemma {:induction false} FirstFenceGrows(p: string, t: string, from: nat)
    requires Prefix(p, t) && FirstFence(p, from).Some?
    ensures FirstFence(t, from) == FirstFence(p, from)
    decreases |p| - from
  {
    SameChars(p, t);
    if !FenceAt(p, from) { FirstFenceGrows(p, t, from + 1); }
  }

  lemma NextBlockGrows(p: string, t: string, from: nat)
    requires Prefix(p, t) && NextBlock(p, from).Some?
    ensures NextBlock(t, from) == NextBlock(p, from)
  {
    FirstFenceGrows(p, t, from);
    FirstFenceGrows(p, t, FirstFence(p, from).value + 3);
  }

  /** Blocks matched in a prefix are matched in the whole text. */
  lemma {:induction false} BlocksSurvive(p: string, t: string, from: nat)
    requires Prefix(p, t) && HasLargeBlock(p, from)
    ensures HasLargeBlock(t, from)
    decreases |p| - from
  {
    NextBlockGrows(p, t, from);
    var block := NextBlock(p, from).value;
    if !Large(block) { BlocksSurvive(p, t, block.close + 3); }
  }

  lemma SameChars(p: string, t: string)
    requires Prefix(p, t)
    ensures forall k :: 0 <= k < |p| ==> p[k] == t[k]
  {
    forall k | 0 <= k < |p| ensures p[k] == t[k] { assert t[..|p|][k] == t[k]; }
  }

  lemma {:induction false} DigitsEndGrows(p: string, t: string, from: nat)
    requires Prefix(p, t) && from <= |p|
    ensures DigitsEnd(p, from) < |p| ==> DigitsEnd(t, from) == DigitsEnd(p, from)
    ensures DigitsEnd(t, from) < |p| ==> DigitsEnd(p, from) == DigitsEnd(t, from)
    decreases |p| - from
  {
    SameChars(p, t);
    if from < |p| && IsDigit(p[from]) { DigitsEndGrows(p, t, from + 1); }
  }

  lemma NumbersAgree(p: string, t: string, from: nat)
    requires Prefix(p, t) && from <= |p|
    ensures NumberEnd(p, from).Some? ==> NumberEnd(t, from) == NumberEnd(p, from)
    ensures NumberEnd(p, from).None? && NumberEnd(t, from).Some? ==> |p| < NumberEnd(t, from).value
  {
    SameChars(p, t);
    DigitsEndGrows(p, t, from);
  }

  /** An item in the prefix is one in the whole; one the prefix does not have ends beyond it. */
  lemma ItemsAgree(p: string, t: string, at: nat)
    requires Prefix(p, t) && at < |p|
    ensures ItemEnd(p, at).Some? ==> ItemEnd(t, at) == ItemEnd(p, at)
    ensures ItemEnd(p, at).None? && ItemEnd(t, at).Some? ==>
              && |p| < ItemEnd(t, at).value
              && forall k :: at < k < |p| ==> !IsSpace(p[k])
  {
    SameChars(p, t);
    NumbersAgree(p, t, at + 1);
    if at == 0 { NumbersAgree(p, t, 0); }
  }

  lemma {:induction false} NoSpacesNoItems(p: string, from: nat)
    requires from > 0 && forall k :: from <= k < |p| ==> !IsSpace(p[k])
    ensures ItemCount(p, from) == 0
    decreases |p| - from
  {
    if from < |p| { NoSpacesNoItems(p, from + 1); }
  }

  /** The scanner never finds fewer items in a longer text: a new match cannot swallow an old one. */
  lemma {:induction false} ItemsSurvive(p: string, t: string, from: nat)
    requires Prefix(p, t)
    ensures ItemCount(p, from) <= ItemCount(t, from)
    decreases |p| - from
  {
    if from < |p| {
      ItemsAgree(p, t, from);
      if ItemEnd(p, from).Some? {
        ItemsSurvive(p, t, ItemEnd(p, from).value);
      } else if ItemEnd(t, from).Some? {
        NoSpacesNoItems(p, from + 1);
      } else {
        ItemsSurvive(p, t, from + 1);
      }
    }
  }

  lemma {:induction false} QuestionMarksGrow(p: string, t: string)
    requires Prefix(p, t)
    ensures QuestionMarks(p) <= QuestionMarks(t)
    decreases |t|
  {
    if |p| < |t| {
      QuestionMarksGrow(p, t[..|t| - 1]);
    } else {
      assert p == t;
    }
  }

  /** Appending messages never turns a complex conversation back into a simple one. */
  lemma ComplexityIsMonotone(messages: seq<Content>, more: seq<Content>, lower: char -> string)
    requires IsComplex(Flatten(messages), lower)
    ensures IsComplex(Flatten(messages + more), lower)
  {
    var p, t := Flatten(messages), Flatten(messages + more);
    FlattenGrows(messages, more);
    if HasMarker(p, lower) {
      var k :| 0 <= k < |MARKERS| && Contains(Lowered(p, lower), MARKERS[k]);
      LoweredGrows(p, t, lower);
      ContainsGrows(Lowered(p, lower), Lowered(t, lower), MARKERS[k]);
    }
    if HasLargeBlock(p, 0) { BlocksSurvive(p, t, 0); }
    ItemsSurvive(p, t, 0);
    QuestionMarksGrow(p, t);
  }
}
