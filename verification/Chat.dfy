/**
 * One turn, two ways: the streaming handler forwards deltas as they come, the
 * other folds them into one reply. Both read the chunks streamChat makes of the
 * backend's event lines.
 */
module Chat {
  import opened Wrappers
  import opened ToolCalls

  datatype Usage = Usage(promptTokens: int, completionTokens: int, totalTokens: int)

  /** What one `data:` line parses to. A null or missing string reads as "". */
  datatype Line =
    | Ignored
    | DoneMarker
    | Parsed(hasId: bool, content: string, reasoning: string, toolCalls: Option<seq<Delta>>,
             finishReason: Option<string>, usage: Option<Usage>)

  /** What streamChat yields. */
  datatype Chunk =
    | Piece(token: string, reasoning: string, toolCalls: Option<seq<Delta>>)
    | Last(finishReason: Option<string>, usage: Option<Usage>)

  // -------------------------------------------------------------- streamChat

  /** llama-swap's loading banner: reasoning, no answer text, and no id because no model produced it. */
  predicate Banner(line: Line) {
    line.Parsed? && line.reasoning != "" && line.content == "" && !line.hasId
  }

  function Yielded(line: Line): seq<Chunk> {
    if !line.Parsed? || Banner(line) then []
    else
      (if line.toolCalls.Some? then [Piece("", "", line.toolCalls)] else [])
      + (if line.content != "" then [Piece(line.content, "", None)]
         else if line.reasoning != "" && line.toolCalls.None? then [Piece("", line.reasoning, None)]
         else [])
  }

  /** The lines streamChat reads: everything before the first [DONE]. */
  function BeforeDone(lines: seq<Line>): seq<Line> {
    if lines == [] || lines[0].DoneMarker? then [] else [lines[0]] + BeforeDone(lines[1..])
  }

  function AllYielded(lines: seq<Line>): seq<Chunk> {
    if lines == [] then [] else Yielded(lines[0]) + AllYielded(lines[1..])
  }

  function LastFinish(lines: seq<Line>, otherwise: Option<string>): Option<string> {
    if lines == [] then otherwise
    else LastFinish(lines[1..], if lines[0].Parsed? && lines[0].finishReason.Some? then lines[0].finishReason else otherwise)
  }

  function LastUsage(lines: seq<Line>, otherwise: Option<Usage>): Option<Usage> {
    if lines == [] then otherwise
    else LastUsage(lines[1..], if lines[0].Parsed? && lines[0].usage.Some? then lines[0].usage else otherwise)
  }

  /** The whole of what is yielded from here on, given what has been noted so far. */
  function Delivered(lines: seq<Line>, finish: Option<string>, usage: Option<Usage>): seq<Chunk> {
    if lines == [] || lines[0].DoneMarker? then [Last(finish, usage)]
    else
      var line := lines[0];
      Yielded(line) + Delivered(lines[1..],
                                if line.Parsed? && line.finishReason.Some? then line.finishReason else finish,
                                if line.Parsed? && line.usage.Some? then line.usage else usage)
  }

  method StreamChat(lines: seq<Line>) returns (chunks: seq<Chunk>)
    ensures chunks == Delivered(lines, None, None)
  {
    var finishReason, usage := None, None;
    chunks := [];
    for n := 0 to |lines|
      invariant chunks + Delivered(lines[n..], finishReason, usage) == Delivered(lines, None, None)
    {
      var line := lines[n];
      assert lines[n..][0] == line && lines[n..][1..] == lines[n + 1..];
      if line.DoneMarker? {
        return chunks + [Last(finishReason, usage)];
      }
      var out := [];
      if line.Parsed? {
        if line.usage.Some? { usage := line.usage; }
        if line.finishReason.Some? { finishReason := line.finishReason; }
        out := ReadDelta(line);
      }
      Joins(chunks, out, Delivered(lines[n + 1..], finishReason, usage));
      chunks := chunks + out;
    }
    chunks := chunks + [Last(finishReason, usage)];
  }

  method ReadDelta(line: Line) returns (out: seq<Chunk>)
    requires line.Parsed?
    ensures out == Yielded(line)
  {
    if line.reasoning != "" && line.content == "" && !line.hasId {
      return [];
    }
    out := [];
    if line.toolCalls.Some? { out := [Piece("", "", line.toolCalls)]; }
    if line.content != "" { out := out + [Piece(line.content, "", None)]; }
    else if line.reasoning != "" && line.toolCalls.None? { out := out + [Piece("", line.reasoning, None)]; }
  }

  lemma Joins<T>(xs: seq<T>, ys: seq<T>, zs: seq<T>)
    ensures (xs + ys) + zs == xs + (ys + zs)
  {
  }

  /** Everything the lines before [DONE] yield, in order, then one ending with the last finish reason and usage seen. */
  lemma {:induction false} DeliveredInOrder(lines: seq<Line>, finish: Option<string>, usage: Option<Usage>)
    ensures Delivered(lines, finish, usage) == AllYielded(BeforeDone(lines))
              + [Last(LastFinish(BeforeDone(lines), finish), LastUsage(BeforeDone(lines), usage))]
  {
    if lines != [] && !lines[0].DoneMarker? {
      var line := lines[0];
      var finish' := if line.Parsed? && line.finishReason.Some? then line.finishReason else finish;
      var usage' := if line.Parsed? && line.usage.Some? then line.usage else usage;
      DeliveredInOrder(lines[1..], finish', usage');
      assert BeforeDone(lines)[0] == line && BeforeDone(lines)[1..] == BeforeDone(lines[1..]);
      Joins(Yielded(line), AllYielded(BeforeDone(lines[1..])),
                [Last(LastFinish(BeforeDone(lines), finish), LastUsage(BeforeDone(lines), usage))]);
    }
  }

  // ------------------------------------------------- what a turn says, by kind

  function Body(chunks: seq<Chunk>): seq<Chunk> {
    if chunks == [] || chunks[0].Last? then [] else [chunks[0]] + Body(chunks[1..])
  }

  /** The done frame, or an ending with nothing to say when the generator just stops. */
  function Ending(chunks: seq<Chunk>): (last: Chunk)
    ensures last.Last?
  {
    if chunks == [] then Last(None, None)
    else if chunks[0].Last? then chunks[0]
    else Ending(chunks[1..])
  }

  function TextOf(c: Chunk): string {
    if c.Piece? && c.toolCalls.None? && c.reasoning == "" then c.token else ""
  }

  function ReasoningOf(c: Chunk): string {
    if c.Piece? && c.toolCalls.None? then c.reasoning else ""
  }

  function CallsOf(c: Chunk): seq<Delta> {
    if c.Piece? then c.toolCalls.GetOr([]) else []
  }

  function Text(chunks: seq<Chunk>): string {
    if chunks == [] then "" else TextOf(chunks[0]) + Text(chunks[1..])
  }

  function Reasoning(chunks: seq<Chunk>): string {
    if chunks == [] then "" else ReasoningOf(chunks[0]) + Reasoning(chunks[1..])
  }

  function CallDeltas(chunks: seq<Chunk>): seq<Delta> {
    if chunks == [] then [] else CallsOf(chunks[0]) + CallDeltas(chunks[1..])
  }

  function FinishFor(upstream: Option<string>, madeCalls: bool): string {
    upstream.GetOr(if madeCalls then "tool_calls" else "stop")
  }

  function ResolveUsage(upstream: Option<Usage>, estimatedPrompt: int, counted: int): Usage {
    match upstream
    case Some(u) => Usage(u.promptTokens, u.completionTokens, u.promptTokens + u.completionTokens)
    case None => Usage(estimatedPrompt, counted, estimatedPrompt + counted)
  }

  // ------------------------------------------------------- the two handlers

  datatype Frame =
    | RoleFrame
    | ContentFrame(content: string)
    | ReasoningFrame(reasoning: string)
    | ToolFrame(toolCalls: seq<Delta>)
    | FinishFrame(reason: string)
    | UsageFrame(usage: Usage)
    | DoneFrame

  function FrameFor(c: Chunk): Frame
    requires c.Piece?
  {
    if c.toolCalls.Some? then ToolFrame(c.toolCalls.value)
    else if c.reasoning != "" then ReasoningFrame(c.reasoning)
    else ContentFrame(c.token)
  }

  function Frames(body: seq<Chunk>): seq<Frame>
    requires forall c :: c in body ==> c.Piece?
  {
    if body == [] then [] else Frames(body[..|body| - 1]) + [FrameFor(body[|body| - 1])]
  }

  /** Everything written to the wire for a turn that ends normally. */
  function Streamed(chunks: seq<Chunk>, estimatedPrompt: int, includeUsage: bool): seq<Frame> {
    AllBodiesArePieces(chunks);
    [RoleFrame] + Frames(Body(chunks))
    + [FinishFrame(FinishFor(Ending(chunks).finishReason, CallDeltas(Body(chunks)) != []))]
    + (if includeUsage then [UsageFrame(UsageOf(chunks, estimatedPrompt))] else []) + [DoneFrame]
  }

  function UsageOf(chunks: seq<Chunk>, estimatedPrompt: int): Usage {
    ResolveUsage(Ending(chunks).usage, estimatedPrompt, |Body(chunks)|)
  }

  /** The streaming branch, to its normal end. `recorded` is what completeRequest is told. */
  method StreamReply(chunks: seq<Chunk>, estimatedPrompt: int, includeUsage: bool)
    returns (frames: seq<Frame>, recorded: Usage)
    ensures frames == Streamed(chunks, estimatedPrompt, includeUsage)
    ensures recorded == UsageOf(chunks, estimatedPrompt)
  {
    AllBodiesArePieces(chunks);
    frames := [RoleFrame];
    var outputTokens := 0;
    var toolCallLog: seq<Delta> := [];
    var upstreamFinish: Option<string>, upstreamUsage: Option<Usage> := None, None;
    var n := 0;
    while n < |chunks| && chunks[n].Piece?
      invariant 0 <= n <= |chunks| && outputTokens == n
      invariant forall i :: 0 <= i < n ==> chunks[i].Piece?
      invariant frames == [RoleFrame] + Frames(chunks[..n])
      invariant toolCallLog == CallDeltas(chunks[..n])
    {
      var chunk := chunks[n];
      outputTokens := outputTokens + 1;
      if chunk.toolCalls.Some? { toolCallLog := toolCallLog + chunk.toolCalls.value; }
      var frame := if chunk.toolCalls.Some? then ToolFrame(chunk.toolCalls.value)
                   else if chunk.reasoning != "" then ReasoningFrame(chunk.reasoning)
                   else ContentFrame(chunk.token);
      FramesOneMore(chunks, n);
      Joins([RoleFrame], Frames(chunks[..n]), [frame]);
      frames := frames + [frame];
      FoldOneMore(chunks, n);
      n := n + 1;
    }
    BodyIsThePrefix(chunks, n);
    if n < |chunks| {
      upstreamFinish, upstreamUsage := chunks[n].finishReason, chunks[n].usage;
    }
    frames := frames + [FinishFrame(upstreamFinish.GetOr(if |toolCallLog| > 0 then "tool_calls" else "stop"))];
    recorded := ResolveUsage(upstreamUsage, estimatedPrompt, outputTokens);
    if includeUsage { frames := frames + [UsageFrame(recorded)]; }
    frames := frames + [DoneFrame];
  }

  /** The JSON reply. `content` is null, and the other two absent, when there is nothing to put there. */
  datatype Reply = Reply(content: Option<string>, reasoning: Option<string>, toolCalls: seq<Call>,
                         finishReason: string, usage: Usage)

  lemma FramesOneMore(chunks: seq<Chunk>, n: nat)
    requires n < |chunks| && forall i :: 0 <= i <= n ==> chunks[i].Piece?
    ensures Frames(chunks[..n + 1]) == Frames(chunks[..n]) + [FrameFor(chunks[n])]
  {
    assert chunks[..n + 1][..n] == chunks[..n];
  }

  function Whole(chunks: seq<Chunk>, estimatedPrompt: int): Reply {
    var body := Body(chunks);
    var calls := Assembled(CallDeltas(body));
    Reply(if Text(body) != "" || calls == [] then Some(Text(body)) else None,
          if Reasoning(body) != "" then Some(Reasoning(body)) else None,
          calls,
          FinishFor(Ending(chunks).finishReason, calls != []),
          UsageOf(chunks, estimatedPrompt))
  }

  /** The non-streaming branch, to its normal end. */
  method WholeReply(chunks: seq<Chunk>, estimatedPrompt: int) returns (reply: Reply)
    ensures reply == Whole(chunks, estimatedPrompt)
  {
    var outputTokens, fullText, fullReasoning, toolCallDeltas := FoldChunks(chunks);
    var upstreamFinish: Option<string>, upstreamUsage: Option<Usage> := None, None;
    if outputTokens < |chunks| {
      upstreamFinish, upstreamUsage := chunks[outputTokens].finishReason, chunks[outputTokens].usage;
    }
    var toolCalls := AssembleToolCalls(toolCallDeltas);
    reply := Reply(
      if fullText != "" then Some(fullText) else if |toolCalls| > 0 then None else Some(""),
      if fullReasoning != "" then Some(fullReasoning) else None,
      toolCalls,
      upstreamFinish.GetOr(if |toolCalls| > 0 then "tool_calls" else "stop"),
      ResolveUsage(upstreamUsage, estimatedPrompt, outputTokens));
  }

  /** The loop over the chunks, up to the done frame or the end. */
  method FoldChunks(chunks: seq<Chunk>) returns (n: nat, text: string, reasoning: string, deltas: seq<Delta>)
    ensures n <= |chunks| && (n < |chunks| ==> chunks[n].Last?)
    ensures n == |Body(chunks)| && Ending(chunks) == if n < |chunks| then chunks[n] else Last(None, None)
    ensures text == Text(Body(chunks)) && reasoning == Reasoning(Body(chunks)) && deltas == CallDeltas(Body(chunks))
  {
    n, text, reasoning, deltas := 0, "", "", [];
    ghost var body: seq<Chunk> := [];
    while n < |chunks| && chunks[n].Piece?
      invariant n <= |chunks| && body == chunks[..n]
      invariant forall i :: 0 <= i < n ==> chunks[i].Piece?
      invariant text == Text(body) && reasoning == Reasoning(body) && deltas == CallDeltas(body)
    {
      text, reasoning, deltas := FoldChunk(chunks[n], text, reasoning, deltas);
      FoldSnoc(body, chunks[n]);
      body := body + [chunks[n]];
      n := n + 1;
    }
    BodyIsThePrefix(chunks, n);
  }

  method FoldChunk(chunk: Chunk, text: string, reasoning: string, deltas: seq<Delta>)
    returns (text': string, reasoning': string, deltas': seq<Delta>)
    requires chunk.Piece?
    ensures text' == text + TextOf(chunk) && reasoning' == reasoning + ReasoningOf(chunk) && deltas' == deltas + CallsOf(chunk)
  {
    text', reasoning', deltas' := text, reasoning, deltas;
    if chunk.toolCalls.Some? { deltas' := deltas + chunk.toolCalls.value; }
    else if chunk.reasoning != "" { reasoning' := reasoning + chunk.reasoning; }
    else { text' := text + chunk.token; }
  }

  predicate BodyIsPieces(chunks: seq<Chunk>) {
    forall c :: c in Body(chunks) ==> c.Piece?
  }

  lemma {:induction false} AllBodiesArePieces(chunks: seq<Chunk>)
    ensures BodyIsPieces(chunks)
  {
    if chunks != [] && chunks[0].Piece? { AllBodiesArePieces(chunks[1..]); }
  }

  lemma {:induction false} BodyIsThePrefix(chunks: seq<Chunk>, n: nat)
    requires n <= |chunks| && (forall i :: 0 <= i < n ==> chunks[i].Piece?)
    requires n < |chunks| ==> chunks[n].Last?
    ensures Body(chunks) == chunks[..n]
    ensures Ending(chunks) == if n < |chunks| then chunks[n] else Last(None, None)
  {
    if n > 0 {
      BodyIsThePrefix(chunks[1..], n - 1);
      assert chunks[..n] == [chunks[0]] + chunks[1..][..n - 1];
    }
  }

  lemma {:induction false} TextConcat(xs: seq<Chunk>, ys: seq<Chunk>)
    ensures Text(xs + ys) == Text(xs) + Text(ys)
  {
    if xs == [] {
      assert xs + ys == ys;
    } else {
      assert (xs + ys)[0] == xs[0] && (xs + ys)[1..] == xs[1..] + ys;
      TextConcat(xs[1..], ys);
      Joins(TextOf(xs[0]), Text(xs[1..]), Text(ys));
    }
  }

  lemma {:induction false} ReasoningConcat(xs: seq<Chunk>, ys: seq<Chunk>)
    ensures Reasoning(xs + ys) == Reasoning(xs) + Reasoning(ys)
  {
    if xs == [] {
      assert xs + ys == ys;
    } else {
      assert (xs + ys)[0] == xs[0] && (xs + ys)[1..] == xs[1..] + ys;
      ReasoningConcat(xs[1..], ys);
      Joins(ReasoningOf(xs[0]), Reasoning(xs[1..]), Reasoning(ys));
    }
  }

  lemma {:induction false} CallsConcat(xs: seq<Chunk>, ys: seq<Chunk>)
    ensures CallDeltas(xs + ys) == CallDeltas(xs) + CallDeltas(ys)
  {
    if xs == [] {
      assert xs + ys == ys;
    } else {
      assert (xs + ys)[0] == xs[0] && (xs + ys)[1..] == xs[1..] + ys;
      CallsConcat(xs[1..], ys);
      Joins(CallsOf(xs[0]), CallDeltas(xs[1..]), CallDeltas(ys));
    }
  }

  lemma FoldsConcat(xs: seq<Chunk>, ys: seq<Chunk>)
    ensures Text(xs + ys) == Text(xs) + Text(ys)
    ensures Reasoning(xs + ys) == Reasoning(xs) + Reasoning(ys)
    ensures CallDeltas(xs + ys) == CallDeltas(xs) + CallDeltas(ys)
  {
    TextConcat(xs, ys);
    ReasoningConcat(xs, ys);
    CallsConcat(xs, ys);
  }

  lemma FoldSnoc(body: seq<Chunk>, c: Chunk)
    ensures Text(body + [c]) == Text(body) + TextOf(c)
    ensures Reasoning(body + [c]) == Reasoning(body) + ReasoningOf(c)
    ensures CallDeltas(body + [c]) == CallDeltas(body) + CallsOf(c)
  {
    FoldsConcat(body, [c]);
    FoldOfOne(c);
  }

  lemma FoldOfOne(c: Chunk)
    ensures Text([c]) == TextOf(c) && Reasoning([c]) == ReasoningOf(c) && CallDeltas([c]) == CallsOf(c)
  {
    assert [c][1..] == [];
    assert Text([]) == "" && Reasoning([]) == "" && CallDeltas([]) == [];
  }

  lemma FoldOneMore(chunks: seq<Chunk>, n: nat)
    requires n < |chunks|
    ensures Text(chunks[..n + 1]) == Text(chunks[..n]) + TextOf(chunks[n])
    ensures Reasoning(chunks[..n + 1]) == Reasoning(chunks[..n]) + ReasoningOf(chunks[n])
    ensures CallDeltas(chunks[..n + 1]) == CallDeltas(chunks[..n]) + CallsOf(chunks[n])
  {
    FoldSnoc(chunks[..n], chunks[n]);
    assert chunks[..n + 1] == chunks[..n] + [chunks[n]];
  }

  // ------------------------------------------------------------- the client

  /** What a client has after folding a stream of frames. */
  datatype Client = Client(content: string, reasoning: string, deltas: seq<Delta>,
                           finishReason: Option<string>, usage: Option<Usage>)

  const FRESH := Client("", "", [], None, None)

  function Receive(client: Client, frame: Frame): Client {
    match frame
    case RoleFrame => client
    case ContentFrame(content) => client.(content := client.content + content)
    case ReasoningFrame(reasoning) => client.(reasoning := client.reasoning + reasoning)
    case ToolFrame(toolCalls) => client.(deltas := client.deltas + toolCalls)
    case FinishFrame(reason) => client.(finishReason := Some(reason))
    case UsageFrame(usage) => client.(usage := Some(usage))
    case DoneFrame => client
  }

  function ReceiveAll(client: Client, frames: seq<Frame>): Client {
    if frames == [] then client else Receive(ReceiveAll(client, frames[..|frames| - 1]), frames[|frames| - 1])
  }

  lemma {:induction false} ReceiveConcat(client: Client, xs: seq<Frame>, ys: seq<Frame>)
    ensures ReceiveAll(client, xs + ys) == ReceiveAll(ReceiveAll(client, xs), ys)
    decreases |ys|
  {
    if ys == [] {
      assert xs + ys == xs;
    } else {
      var last := |ys| - 1;
      assert (xs + ys)[..|xs + ys| - 1] == xs + ys[..last];
      ReceiveConcat(client, xs, ys[..last]);
    }
  }

  lemma {:induction false} ClientFoldsTheBody(client: Client, body: seq<Chunk>)
    requires forall c :: c in body ==> c.Piece?
    ensures ReceiveAll(client, Frames(body)) ==
            Client(client.content + Text(body), client.reasoning + Reasoning(body), client.deltas + CallDeltas(body),
                   client.finishReason, client.usage)
    decreases |body|
  {
    if body == [] {
      assert Frames(body) == [];
    } else {
      var last := |body| - 1;
      ClientFoldsTheBody(client, body[..last]);
      FoldOneMore(body, last);
      assert body[..last + 1] == body;
      assert Frames(body)[..|Frames(body)| - 1] == Frames(body[..last]);
      ReceivePiece(ReceiveAll(client, Frames(body[..last])), body[last]);
      Joins(client.content, Text(body[..last]), TextOf(body[last]));
      Joins(client.reasoning, Reasoning(body[..last]), ReasoningOf(body[last]));
      Joins(client.deltas, CallDeltas(body[..last]), CallsOf(body[last]));
    }
  }

  lemma ReceivePiece(client: Client, c: Chunk)
    requires c.Piece?
    ensures Receive(client, FrameFor(c)) ==
            Client(client.content + TextOf(c), client.reasoning + ReasoningOf(c), client.deltas + CallsOf(c),
                   client.finishReason, client.usage)
  {
  }

  lemma ReceiveOne(client: Client, frame: Frame)
    ensures ReceiveAll(client, [frame]) == Receive(client, frame)
  {
    assert [frame][..0] == [];
    assert ReceiveAll(client, []) == client;
  }

  /** The frames a turn's normal ending appends, folded by the client. */
  lemma ClientFoldsTheStream(body: seq<Chunk>, finish: string, usage: Option<Usage>, frames: seq<Frame>)
    requires forall c :: c in body ==> c.Piece?
    requires frames == [RoleFrame] + Frames(body) + [FinishFrame(finish)]
                       + (if usage.Some? then [UsageFrame(usage.value)] else []) + [DoneFrame]
    ensures ReceiveAll(FRESH, frames) == Client(Text(body), Reasoning(body), CallDeltas(body), Some(finish), usage)
  {
    var a, b, c := [RoleFrame], [FinishFrame(finish)], if usage.Some? then [UsageFrame(usage.value)] else [];
    ReceiveConcat(FRESH, a + Frames(body) + b + c, [DoneFrame]);
    ReceiveConcat(FRESH, a + Frames(body) + b, c);
    ReceiveConcat(FRESH, a + Frames(body), b);
    ReceiveConcat(FRESH, a, Frames(body));
    ReceiveOne(FRESH, RoleFrame);
    ClientFoldsTheBody(FRESH, body);
    var mid := ReceiveAll(FRESH, a + Frames(body));
    ReceiveOne(mid, FinishFrame(finish));
    var ended := ReceiveAll(mid, b);
    if usage.Some? { ReceiveOne(ended, UsageFrame(usage.value)); }
    ReceiveOne(ReceiveAll(ended, c), DoneFrame);
  }

  /** Assembling drops nothing: there are calls exactly when there were fragments. */
  lemma SomeCallsIffSomeDeltas(deltas: seq<Delta>)
    ensures Assembled(deltas) == [] <==> deltas == []
  {
    OneCallPerIndex(deltas);
    if deltas != [] {
      var last := deltas[|deltas| - 1];
      assert For(deltas, IndexOf(last)) != [];
      assert IndexOf(last) in Sort(FirstSeen(deltas));
    }
  }

  /**
   * Asking for a stream or for one reply is the same turn: for every sequence of
   * chunks the backend ends normally, a client that folds the stream has the
   * reply's content (null read as empty), reasoning, tool calls, finish reason
   * and token counts. Without the usage frame it has all but the counts.
   */
  lemma StreamingAndNonStreamingAgree(chunks: seq<Chunk>, estimatedPrompt: int)
    ensures var client := ReceiveAll(FRESH, Streamed(chunks, estimatedPrompt, true));
            var reply := Whole(chunks, estimatedPrompt);
            && client.content == reply.content.GetOr("")
            && client.reasoning == reply.reasoning.GetOr("")
            && Assembled(client.deltas) == reply.toolCalls
            && client.finishReason == Some(reply.finishReason)
            && client.usage == Some(reply.usage)
    ensures var client := ReceiveAll(FRESH, Streamed(chunks, estimatedPrompt, true));
            ReceiveAll(FRESH, Streamed(chunks, estimatedPrompt, false)) == client.(usage := None)
  {
    AllBodiesArePieces(chunks);
    var finish := FinishFor(Ending(chunks).finishReason, CallDeltas(Body(chunks)) != []);
    ClientFoldsTheStream(Body(chunks), finish, Some(UsageOf(chunks, estimatedPrompt)),
                         Streamed(chunks, estimatedPrompt, true));
    ClientFoldsTheStream(Body(chunks), finish, None, Streamed(chunks, estimatedPrompt, false));
    SomeCallsIffSomeDeltas(CallDeltas(Body(chunks)));
  }

  // ------------------------------------------- what reading the lines delivers

  function Contents(lines: seq<Line>): string {
    if lines == [] then "" else (if lines[0].Parsed? then lines[0].content else "") + Contents(lines[1..])
  }

  function CallsIn(line: Line): seq<Delta> {
    if line.Parsed? then line.toolCalls.GetOr([]) else []
  }

  function AllCalls(lines: seq<Line>): seq<Delta> {
    if lines == [] then [] else CallsIn(lines[0]) + AllCalls(lines[1..])
  }

  /** The model's own reasoning: every line's, except one that says nothing else and that no model has put an id on. */
  function ModelReasoning(line: Line): string {
    if line.Parsed? && (line.hasId || line.content != "") then line.reasoning else ""
  }

  function AllReasoning(lines: seq<Line>): string {
    if lines == [] then "" else ModelReasoning(lines[0]) + AllReasoning(lines[1..])
  }

  /** A line without an id that carries reasoning and tool calls but no text is taken for a banner, calls and all. */
  predicate LosesCalls(line: Line) {
    line.Parsed? && CallsIn(line) != [] && line.reasoning != "" && line.content == "" && !line.hasId
  }

  /** Reasoning that shares its line with text or tool calls gives way to them. */
  predicate LosesReasoning(line: Line) {
    line.Parsed? && line.reasoning != "" && (line.content != "" || (line.hasId && line.toolCalls.Some?))
  }

  /** The reasoning that gets through: that of exactly the lines with an id, no text and no tool calls. */
  function ReasoningThrough(lines: seq<Line>): string {
    if lines == [] then ""
    else
      (if lines[0].Parsed? && lines[0].hasId && lines[0].content == "" && lines[0].toolCalls.None?
       then lines[0].reasoning else "") + ReasoningThrough(lines[1..])
  }

  /** The fragments that get through: every line's but those mistaken for a banner. */
  function CallsThrough(lines: seq<Line>): seq<Delta> {
    if lines == [] then [] else (if LosesCalls(lines[0]) then [] else CallsIn(lines[0])) + CallsThrough(lines[1..])
  }

  lemma YieldedByALine(line: Line)
    ensures Text(Yielded(line)) == if line.Parsed? then line.content else ""
    ensures CallDeltas(Yielded(line)) == if LosesCalls(line) then [] else CallsIn(line)
    ensures Reasoning(Yielded(line)) == if LosesReasoning(line) then "" else ModelReasoning(line)
    ensures LosesCalls(line) ==> Yielded(line) == []
  {
    if line.Parsed? && !Banner(line) {
      var first := if line.toolCalls.Some? then [Piece("", "", line.toolCalls)] else [];
      var second := if line.content != "" then [Piece(line.content, "", None)]
                    else if line.reasoning != "" && line.toolCalls.None? then [Piece("", line.reasoning, None)] else [];
      FoldsConcat(first, second);
      assert first != [] ==> first[1..] == [];
      assert second != [] ==> second[1..] == [];
    }
  }

  /**
   * Answer text always arrives whole. Tool calls do unless some line is mistaken
   * for a banner, and reasoning does unless some line also says something else.
   */
  lemma {:induction false} WhatIsDelivered(lines: seq<Line>)
    ensures Text(AllYielded(lines)) == Contents(lines)
    ensures CallDeltas(AllYielded(lines)) == CallsThrough(lines)
    ensures Reasoning(AllYielded(lines)) == ReasoningThrough(lines)
    ensures |CallDeltas(AllYielded(lines))| <= |AllCalls(lines)|
    ensures CallDeltas(AllYielded(lines)) == AllCalls(lines) <==> forall l :: l in lines ==> !LosesCalls(l)
    ensures |Reasoning(AllYielded(lines))| <= |AllReasoning(lines)|
    ensures Reasoning(AllYielded(lines)) == AllReasoning(lines) <==> forall l :: l in lines ==> !LosesReasoning(l)
  {
    if lines != [] {
      var line, rest := lines[0], lines[1..];
      WhatIsDelivered(rest);
      YieldedByALine(line);
      FoldsConcat(Yielded(line), AllYielded(rest));
      assert forall l :: l in lines <==> l == line || l in rest;
      SameTail(CallDeltas(Yielded(line)), CallDeltas(AllYielded(rest)), CallsIn(line), AllCalls(rest));
      SameTail(Reasoning(Yielded(line)), Reasoning(AllYielded(rest)), ModelReasoning(line), AllReasoning(rest));
    }
  }

  /** A part that is all or nothing, followed by a tail no longer than the other's: equal only part by part. */
  lemma SameTail<T>(part: seq<T>, tail: seq<T>, whole: seq<T>, rest: seq<T>)
    requires (part == whole || part == []) && |tail| <= |rest|
    ensures part + tail == whole + rest <==> part == whole && tail == rest
  {
    if part == whole {
      assert (part + tail)[|part|..] == tail && (whole + rest)[|whole|..] == rest;
    }
  }

  lemma {:induction false} YieldsArePieces(lines: seq<Line>)
    ensures forall i :: 0 <= i < |AllYielded(lines)| ==> AllYielded(lines)[i].Piece?
  {
    if lines != [] { YieldsArePieces(lines[1..]); }
  }

  /** Where the reading stops: at the first [DONE], or at the end. */
  lemma {:induction false} BeforeDoneIsThePrefix(lines: seq<Line>, n: nat)
    requires n <= |lines| && (n < |lines| ==> lines[n].DoneMarker?)
    requires forall i :: 0 <= i < n ==> !lines[i].DoneMarker?
    ensures BeforeDone(lines) == lines[..n]
  {
    if n > 0 {
      BeforeDoneIsThePrefix(lines[1..], n - 1);
      assert lines[..n] == [lines[0]] + lines[1..][..n - 1];
    }
  }

  /** The line's own finish reason, if it has one. */
  predicate Finishes(line: Line) {
    line.Parsed? && line.finishReason.Some?
  }

  predicate ReportsUsage(line: Line) {
    line.Parsed? && line.usage.Some?
  }

  lemma {:induction false} NothingNoted(lines: seq<Line>, finish: Option<string>, usage: Option<Usage>)
    ensures (forall l :: l in lines ==> !Finishes(l)) ==> LastFinish(lines, finish) == finish
    ensures (forall l :: l in lines ==> !ReportsUsage(l)) ==> LastUsage(lines, usage) == usage
  {
    if lines != [] {
      assert lines[0] in lines && forall l :: l in lines[1..] ==> l in lines;
      NothingNoted(lines[1..], finish, usage);
    }
  }

  /** What is noted is what the last line to say anything said; a line after which none says anything is that line. */
  lemma {:induction false} TheLastIsNoted(lines: seq<Line>, k: nat, finish: Option<string>, usage: Option<Usage>)
    requires k < |lines|
    ensures (Finishes(lines[k]) && forall l :: l in lines[k + 1..] ==> !Finishes(l)) ==>
              LastFinish(lines, finish) == lines[k].finishReason
    ensures (ReportsUsage(lines[k]) && forall l :: l in lines[k + 1..] ==> !ReportsUsage(l)) ==>
              LastUsage(lines, usage) == lines[k].usage
    decreases k
  {
    var finish' := if Finishes(lines[0]) then lines[0].finishReason else finish;
    var usage' := if ReportsUsage(lines[0]) then lines[0].usage else usage;
    if k == 0 {
      NothingNoted(lines[1..], finish', usage');
    } else {
      assert lines[1..][k..] == lines[k + 1..];
      TheLastIsNoted(lines[1..], k - 1, finish', usage');
    }
  }

  /**
   * From the backend's lines to the caller. The content is the text of every line
   * before [DONE], null exactly when there is none and tools are called; the reasoning
   * is what gets through, which is all of it exactly when no line loses any; the calls
   * are assembled from the fragments that get through. The finish reason is the
   * backend's last, or follows from whether tools are called; the counts are the
   * backend's last, or the estimate and the number of pieces.
   */
  lemma ReplySaysWhatTheBackendSaid(lines: seq<Line>, estimatedPrompt: int)
    ensures var said, reply := BeforeDone(lines), Whole(Delivered(lines, None, None), estimatedPrompt);
            var finish, usage := LastFinish(said, None), LastUsage(said, None);
            && reply.content.GetOr("") == Contents(said)
            && (reply.content == None <==> Contents(said) == "" && reply.toolCalls != [])
            && reply.reasoning.GetOr("") == ReasoningThrough(said)
            && (reply.reasoning == None <==> ReasoningThrough(said) == "")
            && (ReasoningThrough(said) == AllReasoning(said) <==> forall l :: l in said ==> !LosesReasoning(l))
            && reply.toolCalls == Assembled(CallsThrough(said))
            && (CallsThrough(said) == AllCalls(said) <==> forall l :: l in said ==> !LosesCalls(l))
            && (finish.Some? ==> reply.finishReason == finish.value)
            && (finish.None? ==> reply.finishReason == (if reply.toolCalls != [] then "tool_calls" else "stop"))
            && (usage.Some? ==> reply.usage.promptTokens == usage.value.promptTokens
                                && reply.usage.completionTokens == usage.value.completionTokens)
            && (usage.None? ==> reply.usage.promptTokens == estimatedPrompt
                                && reply.usage.completionTokens == |AllYielded(said)|)
            && reply.usage.totalTokens == reply.usage.promptTokens + reply.usage.completionTokens
  {
    var said, chunks := BeforeDone(lines), Delivered(lines, None, None);
    DeliveredInOrder(lines, None, None);
    YieldsArePieces(said);
    BodyIsThePrefix(chunks, |AllYielded(said)|);
    assert Body(chunks) == AllYielded(said);
    WhatIsDelivered(said);
  }

  /** How many pieces a line counts for: its calls, and its text or else its reasoning, unless it is a banner. */
  lemma PiecesOfALine(line: Line)
    ensures |Yielded(line)|
         == (if !line.Parsed? || (line.reasoning != "" && line.content == "" && !line.hasId) then 0
             else (if line.toolCalls.Some? then 1 else 0)
                  + (if line.content != "" || (line.reasoning != "" && line.toolCalls.None?) then 1 else 0))
  {
  }

  lemma {:induction false} FramesAreInOrder(body: seq<Chunk>)
    requires forall c :: c in body ==> c.Piece?
    ensures |Frames(body)| == |body|
    ensures forall k :: 0 <= k < |body| ==>
              Frames(body)[k] == if body[k].toolCalls.Some? then ToolFrame(body[k].toolCalls.value)
                                 else if body[k].reasoning != "" then ReasoningFrame(body[k].reasoning)
                                 else ContentFrame(body[k].token)
    decreases |body|
  {
    if body != [] { FramesAreInOrder(body[..|body| - 1]); }
  }

  /** The wire: the role first, one frame for each piece in order, the finish reason, usage if asked for, and [DONE]. */
  lemma StreamShape(chunks: seq<Chunk>, estimatedPrompt: int, includeUsage: bool)
    ensures var frames, body, reply := Streamed(chunks, estimatedPrompt, includeUsage), Body(chunks),
                                       Whole(chunks, estimatedPrompt);
            && |frames| == |body| + (if includeUsage then 4 else 3)
            && frames[0] == RoleFrame
            && (forall k :: 0 <= k < |body| ==>
                  && body[k].Piece?
                  && frames[k + 1] == if body[k].toolCalls.Some? then ToolFrame(body[k].toolCalls.value)
                                      else if body[k].reasoning != "" then ReasoningFrame(body[k].reasoning)
                                      else ContentFrame(body[k].token))
            && frames[|body| + 1] == FinishFrame(reply.finishReason)
            && (includeUsage ==> frames[|body| + 2] == UsageFrame(reply.usage))
            && frames[|frames| - 1] == DoneFrame
  {
    var usage := if includeUsage then [UsageFrame(Whole(chunks, estimatedPrompt).usage)] else [];
    StreamParts(chunks, estimatedPrompt, includeUsage, usage);
    ShapeOf(Body(chunks), Whole(chunks, estimatedPrompt).finishReason, usage,
            Streamed(chunks, estimatedPrompt, includeUsage));
  }

  lemma StreamParts(chunks: seq<Chunk>, estimatedPrompt: int, includeUsage: bool, usage: seq<Frame>)
    requires usage == if includeUsage then [UsageFrame(Whole(chunks, estimatedPrompt).usage)] else []
    ensures forall c :: c in Body(chunks) ==> c.Piece?
    ensures Streamed(chunks, estimatedPrompt, includeUsage)
         == [RoleFrame] + Frames(Body(chunks)) + [FinishFrame(Whole(chunks, estimatedPrompt).finishReason)] + usage + [DoneFrame]
  {
    AllBodiesArePieces(chunks);
    SomeCallsIffSomeDeltas(CallDeltas(Body(chunks)));
  }

  lemma ShapeOf(body: seq<Chunk>, finish: string, usage: seq<Frame>, frames: seq<Frame>)
    requires |usage| <= 1 && forall c :: c in body ==> c.Piece?
    requires frames == [RoleFrame] + Frames(body) + [FinishFrame(finish)] + usage + [DoneFrame]
    ensures |frames| == |body| + |usage| + 3
    ensures frames[0] == RoleFrame && frames[|frames| - 1] == DoneFrame
    ensures frames[|body| + 1] == FinishFrame(finish)
    ensures usage != [] ==> frames[|body| + 2] == usage[0]
    ensures forall k :: 0 <= k < |body| ==>
              && body[k].Piece?
              && frames[k + 1] == if body[k].toolCalls.Some? then ToolFrame(body[k].toolCalls.value)
                                  else if body[k].reasoning != "" then ReasoningFrame(body[k].reasoning)
                                  else ContentFrame(body[k].token)
  {
    FramesAreInOrder(body);
    Lined(RoleFrame, Frames(body), FinishFrame(finish), usage, DoneFrame);
    forall k | 0 <= k < |body| ensures body[k].Piece? && frames[k + 1] == Frames(body)[k] {
      assert body[k] in body;
    }
  }

  lemma Lined(first: Frame, body: seq<Frame>, finish: Frame, usage: seq<Frame>, last: Frame)
    requires |usage| <= 1
    ensures var frames := [first] + body + [finish] + usage + [last];
            && |frames| == |body| + |usage| + 3
            && frames[0] == first
            && (forall k :: 0 <= k < |body| ==> frames[k + 1] == body[k])
            && frames[|body| + 1] == finish
            && (usage != [] ==> frames[|body| + 2] == usage[0])
            && frames[|frames| - 1] == last
  {
  }
}
