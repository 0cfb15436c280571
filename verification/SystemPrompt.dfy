/** Delivering the operator's default prompt, and folding system messages into the first user turn. */
module SystemPrompt {
  import opened Wrappers
  import Complexity

  /** null, a string, or anything else, which only ever reaches a text as its JSON. */
  datatype Content = Absent | Text(text: string) | Structured(json: string)

  /** `others` stands for a message's remaining fields, which are carried along. */
  datatype Message = Message(role: string, content: Content, others: string)

  const SEPARATOR := "\n\n"

  predicate IsSystem(m: Message) {
    m.role == "system" || m.role == "developer"
  }

  predicate IsUser(m: Message) {
    m.role == "user"
  }

  function TextOf(content: Content): string {
    match content
    case Absent => ""
    case Text(text) => text
    case Structured(json) => json
  }

  /** trim() leaves nothing. */
  predicate Blank(text: string) {
    forall i :: 0 <= i < |text| ==> Complexity.IsSpace(text[i])
  }

  /** A system message that says something; a whitespace placeholder does not. */
  predicate Effective(m: Message) {
    IsSystem(m) && (match m.content case Absent => false case Text(text) => !Blank(text) case Structured(_) => true)
  }

  predicate CallerSetSystemPrompt(messages: seq<Message>) {
    exists i :: 0 <= i < |messages| && Effective(messages[i])
  }

  function WithDefault(prompt: string, messages: seq<Message>): seq<Message> {
    if prompt != "" && !CallerSetSystemPrompt(messages)
    then [Message("system", Text(prompt), "")] + messages else messages
  }

  function Systems(messages: seq<Message>): seq<Message> {
    if messages == [] then []
    else (if IsSystem(messages[0]) then [messages[0]] else []) + Systems(messages[1..])
  }

  function Others(messages: seq<Message>): seq<Message> {
    if messages == [] then []
    else (if IsSystem(messages[0]) then [] else [messages[0]]) + Others(messages[1..])
  }

  function JoinTexts(messages: seq<Message>): string {
    if messages == [] then ""
    else if |messages| == 1 then TextOf(messages[0].content)
    else TextOf(messages[0].content) + SEPARATOR + JoinTexts(messages[1..])
  }

  function Preamble(messages: seq<Message>): string {
    JoinTexts(Systems(messages))
  }

  function FirstUser(messages: seq<Message>): (found: Option<nat>)
    ensures found.Some? ==> found.value < |messages| && IsUser(messages[found.value])
    ensures forall i :: 0 <= i < |messages| && (found.None? || i < found.value) ==> !IsUser(messages[i])
  {
    if messages == [] then None
    else if IsUser(messages[0]) then Some(0)
    else match FirstUser(messages[1..]) case None => None case Some(i) => Some(i + 1)
  }

  function Merged(messages: seq<Message>): seq<Message> {
    var preamble := Preamble(messages);
    if preamble == "" then messages
    else
      var rest := Others(messages);
      match FirstUser(rest)
      case None => [Message("user", Text(preamble), "")] + rest
      case Some(i) => rest[i := rest[i].(content := Text(preamble + SEPARATOR + TextOf(rest[i].content)))]
  }

  /** The messages actually sent to the model server. */
  function Outgoing(prompt: string, merge: bool, messages: seq<Message>): seq<Message> {
    var withDefault := WithDefault(prompt, messages);
    if merge then Merged(withDefault) else withDefault
  }

  // ---------------------------------------------------------------- delivery

  predicate NoSystem(messages: seq<Message>) {
    forall i :: 0 <= i < |messages| ==> !IsSystem(messages[i])
  }

  lemma {:induction false} NoSystemMeansNone(messages: seq<Message>)
    ensures NoSystem(messages) <==> Systems(messages) == []
    ensures NoSystem(messages) ==> Others(messages) == messages
    ensures NoSystem(Others(messages))
  {
    if messages != [] {
      var rest := messages[1..];
      NoSystemMeansNone(rest);
      assert forall i :: 1 <= i < |messages| ==> messages[i] == rest[i - 1];
      assert messages == [messages[0]] + rest;
    }
  }

  // ------------------------------------------------------ what is kept, and how

  /** `at` picks messages out in order: the k-th kept is the one at index at[k]. */
  predicate Picks(at: seq<nat>, messages: seq<Message>) {
    && (forall k :: 0 <= k < |at| ==> at[k] < |messages|)
    && (forall k, l :: 0 <= k < l < |at| ==> at[k] < at[l])
  }

  /** `kept` is the order-preserving selection of exactly the messages that are not system messages. */
  predicate Selects(kept: seq<Message>, at: seq<nat>, messages: seq<Message>) {
    && Picks(at, messages)
    && |kept| == |at|
    && (forall k :: 0 <= k < |at| ==> kept[k] == messages[at[k]] && !IsSystem(kept[k]))
    && (forall i :: 0 <= i < |messages| && !IsSystem(messages[i]) ==> PickedAt(at, i))
  }

  predicate PickedAt(at: seq<nat>, i: nat) {
    exists k :: 0 <= k < |at| && at[k] == i
  }

  /** Where the messages that are not system messages stand. */
  function Kept(messages: seq<Message>): seq<nat> {
    if messages == [] then []
    else
      var last := |messages| - 1;
      Kept(messages[..last]) + (if IsSystem(messages[last]) then [] else [last])
  }

  lemma OthersCons(m: Message, messages: seq<Message>)
    ensures Others([m] + messages) == (if IsSystem(m) then [] else [m]) + Others(messages)
  {
    assert ([m] + messages)[0] == m && ([m] + messages)[1..] == messages;
  }

  lemma {:induction false} OthersSnoc(messages: seq<Message>, m: Message)
    ensures Others(messages + [m]) == Others(messages) + (if IsSystem(m) then [] else [m])
  {
    if messages == [] {
      OthersCons(m, []);
      assert [] + [m] == [m] == [m] + [];
    } else {
      OthersSnoc(messages[1..], m);
      OthersCons(messages[0], messages[1..] + [m]);
      assert messages + [m] == [messages[0]] + (messages[1..] + [m]);
    }
  }

  lemma SelectsSnoc(kept: seq<Message>, at: seq<nat>, messages: seq<Message>, m: Message)
    requires Selects(kept, at, messages)
    ensures Selects(kept + (if IsSystem(m) then [] else [m]), at + (if IsSystem(m) then [] else [|messages|]),
                    messages + [m])
  {
    var more, at' := messages + [m], at + (if IsSystem(m) then [] else [|messages|]);
    forall i | 0 <= i < |more| && !IsSystem(more[i]) ensures PickedAt(at', i) {
      if i < |messages| {
        assert !IsSystem(messages[i]) && PickedAt(at, i);
        var k :| 0 <= k < |at| && at[k] == i;
        assert at'[k] == i;
      } else {
        assert at'[|at|] == i;
      }
    }
  }

  lemma {:induction false} OthersSelects(messages: seq<Message>)
    ensures Selects(Others(messages), Kept(messages), messages)
    decreases |messages|
  {
    if messages != [] {
      var last := |messages| - 1;
      OthersSelects(messages[..last]);
      SelectsSnoc(Others(messages[..last]), Kept(messages[..last]), messages[..last], messages[last]);
      OthersSnoc(messages[..last], messages[last]);
      assert messages[..last] + [messages[last]] == messages;
    }
  }

  /** Not a system prompt of the caller's: another role, or no content, or text of nothing but white space. */
  predicate SaysNothing(m: Message) {
    || (m.role != "system" && m.role != "developer")
    || m.content == Absent
    || (m.content.Text? && forall i :: 0 <= i < |m.content.text| ==> Complexity.IsSpace(m.content.text[i]))
  }

  /**
   * The default joins a conversation exactly when there is one and the caller said
   * nothing effective, always in front of everything the caller sent; and then the
   * model is given a system prompt that says something unless neither side had one.
   * So passing a conversation through twice injects once, except for a default that
   * is itself only whitespace.
   */
  lemma DefaultInjectedExactlyWhenUnset(prompt: string, messages: seq<Message>)
    ensures var sent := WithDefault(prompt, messages);
            && (sent != messages <==> prompt != "" && forall i :: 0 <= i < |messages| ==> SaysNothing(messages[i]))
            && (sent != messages ==> sent[0] == Message("system", Text(prompt), ""))
            && |messages| <= |sent| <= |messages| + 1 && sent[|sent| - |messages|..] == messages
            && (CallerSetSystemPrompt(sent) <==> CallerSetSystemPrompt(messages) || !Blank(prompt))
            && (WithDefault(prompt, sent) == sent <==> prompt == "" || CallerSetSystemPrompt(messages) || !Blank(prompt))
  {
    var sent := WithDefault(prompt, messages);
    assert forall m :: SaysNothing(m) <==> !Effective(m);
    if prompt == "" {
      assert sent == messages && Blank(prompt);
    } else if !CallerSetSystemPrompt(messages) {
      assert sent[1..] == messages;
      if !Blank(prompt) {
        assert Effective(sent[0]);
      } else {
        assert forall i :: 0 <= i < |sent| ==> !Effective(sent[i]);
      }
      assert |WithDefault(prompt, sent)| == |sent| + (if Blank(prompt) then 1 else 0);
    }
  }

  lemma {:induction false} SystemsSnoc(messages: seq<Message>, m: Message)
    ensures Systems(messages + [m]) == Systems(messages) + (if IsSystem(m) then [m] else [])
  {
    if messages == [] {
      assert [m][1..] == [] && [] + [m] == [m];
    } else {
      SystemsSnoc(messages[1..], m);
      assert (messages + [m])[0] == messages[0] && (messages + [m])[1..] == messages[1..] + [m];
    }
  }

  lemma {:induction false} JoinTextsSnoc(messages: seq<Message>, m: Message)
    ensures JoinTexts(messages + [m])
         == if messages == [] then TextOf(m.content) else JoinTexts(messages) + "\n\n" + TextOf(m.content)
  {
    if |messages| == 1 {
      assert (messages + [m])[1..] == [m];
    } else if messages != [] {
      JoinTextsSnoc(messages[1..], m);
      assert (messages + [m])[0] == messages[0] && (messages + [m])[1..] == messages[1..] + [m];
      Glue(TextOf(messages[0].content), JoinTexts(messages[1..]), TextOf(m.content));
    }
  }

  lemma Glue(a: string, b: string, c: string)
    ensures a + "\n\n" + (b + "\n\n" + c) == a + "\n\n" + b + "\n\n" + c
  {
  }

  /**
   * The preamble, message by message: every system or developer message adds its text,
   * null as nothing and structure as its JSON, after a blank line if it is not the
   * first; no other message adds anything.
   */
  lemma PreambleSnoc(messages: seq<Message>, m: Message)
    ensures Preamble([]) == ""
    ensures m.role != "system" && m.role != "developer" ==> Preamble(messages + [m]) == Preamble(messages)
    ensures m.role == "system" || m.role == "developer" ==>
              var text := match m.content case Absent => "" case Text(text) => text case Structured(json) => json;
              Preamble(messages + [m]) == if NoSystem(messages) then text else Preamble(messages) + "\n\n" + text
  {
    SystemsSnoc(messages, m);
    JoinTextsSnoc(Systems(messages), m);
    NoSystemMeansNone(messages);
    assert Systems(messages) + [] == Systems(messages);
  }

  /** The combined system text is empty only with no system message, or a single one that says nothing. */
  lemma PreambleIsEmptyExactlyWhen(messages: seq<Message>)
    ensures Preamble(messages) == "" <==>
              NoSystem(messages) || (|Systems(messages)| == 1 && TextOf(Systems(messages)[0].content) == "")
  {
    NoSystemMeansNone(messages);
    var systems := Systems(messages);
    if |systems| >= 2 {
      assert |JoinTexts(systems)| >= |SEPARATOR|;
    }
  }

  /** Merging leaves a system role behind exactly when the combined system text is empty. */
  lemma MergingRemovesSystemRoles(messages: seq<Message>)
    ensures NoSystem(Merged(messages)) <==> NoSystem(messages) || Preamble(messages) != ""
    ensures NoSystem(Merged(messages)) <==>
              forall i :: 0 <= i < |Merged(messages)| ==>
                Merged(messages)[i].role != "system" && Merged(messages)[i].role != "developer"
  {
    NoSystemMeansNone(messages);
  }

  lemma MergingIsIdempotent(messages: seq<Message>)
    ensures Merged(Merged(messages)) == Merged(messages)
  {
    MergingRemovesSystemRoles(messages);
    NoSystemMeansNone(Merged(messages));
  }

  /** Merging, message by message: what becomes of those kept, given where they stood. */
  predicate KeepsConversation(sent: seq<Message>, messages: seq<Message>, at: seq<nat>)
    requires Picks(at, messages)
  {
    var preamble := Preamble(messages);
    match FirstUser(messages)
    case None =>
      && (forall i :: 0 <= i < |messages| ==> messages[i].role != "user")
      && |sent| == |at| + 1
      && sent[0] == Message("user", Text(preamble), "")
      && (forall k :: 0 <= k < |at| ==> sent[k + 1] == messages[at[k]])
    case Some(u) =>
      && messages[u].role == "user" && (forall i :: 0 <= i < u ==> messages[i].role != "user")
      && |sent| == |at|
      && PickedAt(at, u)
      && (forall k :: 0 <= k < |at| ==>
            sent[k] == if at[k] != u then messages[at[k]]
                       else messages[u].(content := Text(preamble + "\n\n" + TextOf(messages[u].content))))
  }

  /** A selection of everything but the system messages finds the same first user turn. */
  lemma FirstUserAmongKept(kept: seq<Message>, at: seq<nat>, messages: seq<Message>)
    requires Selects(kept, at, messages)
    ensures FirstUser(kept).None? <==> FirstUser(messages).None?
    ensures FirstUser(kept).Some? ==> Some(at[FirstUser(kept).value]) == FirstUser(messages)
  {
    match FirstUser(messages)
    case None =>
      forall k | 0 <= k < |kept| ensures !IsUser(kept[k]) { assert kept[k] == messages[at[k]]; }
    case Some(u) =>
      assert PickedAt(at, u);
      var k :| 0 <= k < |at| && at[k] == u;
      assert IsUser(kept[k]);
      var first := FirstUser(kept).value;
      assert kept[first] == messages[at[first]];
      assert !(first < k);
  }

  /**
   * Everything but the system messages is kept, in order and unchanged, except that
   * the first user turn of the conversation has the preamble put before its own text.
   */
  lemma MergingKeepsTheConversation(messages: seq<Message>)
    requires Preamble(messages) != ""
    ensures Picks(Kept(messages), messages)
    ensures forall i :: 0 <= i < |messages| ==> (PickedAt(Kept(messages), i) <==> !IsSystem(messages[i]))
    ensures KeepsConversation(Merged(messages), messages, Kept(messages))
  {
    OthersSelects(messages);
    PickedAreNotSystem(Others(messages), Kept(messages), messages);
    MergedFollowsTheSelection(messages, Kept(messages));
  }

  lemma PickedAreNotSystem(kept: seq<Message>, at: seq<nat>, messages: seq<Message>)
    requires Selects(kept, at, messages)
    ensures forall i :: 0 <= i < |messages| ==> (PickedAt(at, i) <==> !IsSystem(messages[i]))
  {
    forall i | 0 <= i < |messages| && PickedAt(at, i) ensures !IsSystem(messages[i]) {
      var k :| 0 <= k < |at| && at[k] == i;
      assert !IsSystem(kept[k]);
    }
  }

  /** Changing one kept message changes what became of one message. */
  lemma SelectionUpdated(kept: seq<Message>, at: seq<nat>, messages: seq<Message>, first: nat, turn: Message)
    requires Selects(kept, at, messages) && first < |at|
    ensures PickedAt(at, at[first])
    ensures forall k :: 0 <= k < |at| ==>
              kept[first := turn][k] == if at[k] != at[first] then messages[at[k]] else turn
  {
    forall k | 0 <= k < |at| && k != first ensures at[k] != at[first] {
      if k < first { assert at[k] < at[first]; } else { assert at[first] < at[k]; }
    }
  }

  lemma MergedFollowsTheSelection(messages: seq<Message>, at: seq<nat>)
    requires Preamble(messages) != "" && Selects(Others(messages), at, messages)
    ensures KeepsConversation(Merged(messages), messages, at)
  {
    var preamble, rest := Preamble(messages), Others(messages);
    FirstUserAmongKept(rest, at, messages);
    match FirstUser(rest)
    case None =>
      assert Merged(messages)[1..] == rest;
    case Some(first) =>
      var turn := rest[first].(content := Text(preamble + SEPARATOR + TextOf(rest[first].content)));
      assert rest[first] == messages[at[first]];
      SelectionUpdated(rest, at, messages, first, turn);
  }

  /** The first user turn stays the first: it is where the preamble went. */
  lemma FirstUserAfterMerging(messages: seq<Message>)
    requires Preamble(messages) != ""
    ensures var sent, rest := Merged(messages), Others(messages);
            && FirstUser(sent).Some?
            && StartsWith(TextOf(sent[FirstUser(sent).value].content), Preamble(messages))
  {
    var sent, rest := Merged(messages), Others(messages);
    match FirstUser(rest)
    case None => assert IsUser(sent[0]);
    case Some(i) =>
      assert forall k :: 0 <= k < |rest| ==> (IsUser(sent[k]) <==> IsUser(rest[k]));
      assert IsUser(sent[i]);
      var j := FirstUser(sent).value;
      assert j <= i && IsUser(rest[j]);
      assert TextOf(sent[i].content)[..|Preamble(messages)|] == Preamble(messages);
  }

  predicate StartsWith(text: string, start: string) {
    |start| <= |text| && text[..|start|] == start
  }

  /** In merge mode an injected default still reaches the model: it opens the first user turn. */
  lemma DefaultReachesTheModel(prompt: string, messages: seq<Message>)
    requires prompt != "" && !CallerSetSystemPrompt(messages)
    ensures var sent := Outgoing(prompt, true, messages);
            && NoSystem(sent)
            && FirstUser(sent).Some?
            && StartsWith(TextOf(sent[FirstUser(sent).value].content), prompt)
  {
    var given := Message("system", Text(prompt), "");
    var all := [given] + messages;
    assert WithDefault(prompt, messages) == all;
    assert all[0] == given && all[1..] == messages;
    assert Systems(all) == [given] + Systems(messages);
    assert StartsWith(Preamble(all), prompt) by {
      assert Systems(all)[1..] == Systems(messages);
      if |Systems(all)| > 1 {
        assert Preamble(all) == prompt + (SEPARATOR + JoinTexts(Systems(messages)));
      }
    }
    assert Preamble(all) != "";
    MergingRemovesSystemRoles(all);
    FirstUserAfterMerging(all);
    var sent := Merged(all);
    var text := TextOf(sent[FirstUser(sent).value].content);
    assert text[..|prompt|] == text[..|Preamble(all)|][..|prompt|];
  }
}
