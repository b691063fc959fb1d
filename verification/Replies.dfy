/** What the router can put together from the frames a chat request leaves on the connection (connection.go:158-210,
    frame.go), against what the backend sent. */
module Replies {
  import opened Histogram
  import opened Windows
  import opened Chat
  import opened ToolCalls
  import opened Sse
  import opened Completion
  import opened Refinement
  import opened HandleChats
  import MetricsRuns

  // ----- What a reader of the frames reassembles -----

  function FrameText(fs: seq<Frame>): string {
    if fs == [] then "" else FrameText(fs[..|fs| - 1]) + (if fs[|fs| - 1].Chunk? then fs[|fs| - 1].content else "")
  }

  function FrameThoughts(fs: seq<Frame>): string {
    if fs == [] then ""
    else FrameThoughts(fs[..|fs| - 1]) + (if fs[|fs| - 1].Chunk? then fs[|fs| - 1].reasoning else "")
  }

  /** The chunk frames with content, each with its logprobs. */
  function FrameContents(fs: seq<Frame>): seq<(string, string)> {
    if fs == [] then []
    else
      var f := fs[|fs| - 1];
      FrameContents(fs[..|fs| - 1]) + (if f.Chunk? && f.content != "" then [(f.content, f.logprobs)] else [])
  }

  lemma FramesSnoc(fs: seq<Frame>, f: Frame)
    ensures FrameText(fs + [f]) == FrameText(fs) + (if f.Chunk? then f.content else "")
    ensures FrameThoughts(fs + [f]) == FrameThoughts(fs) + (if f.Chunk? then f.reasoning else "")
    ensures FrameContents(fs + [f])
         == FrameContents(fs) + (if f.Chunk? && f.content != "" then [(f.content, f.logprobs)] else [])
  {
    assert (fs + [f])[..|fs|] == fs;
  }

  /** The chunk frames carry the deltas: content as content, reasoning as reasoning, logprobs with their content. */
  lemma {:induction false} ChunksCarry(id: nat, ds: seq<Delta>)
    requires forall d :: d in ds ==> d.Content? ==> d.text != ""
    ensures FrameText(ChunkFrames(id, ds)) == Text(ds) && FrameThoughts(ChunkFrames(id, ds)) == Thoughts(ds)
    ensures FrameContents(ChunkFrames(id, ds)) == ContentsOf(ds)
  {
    if ds == [] {
      assert ChunkFrames(id, ds) == [];
    } else {
      var n := |ds| - 1;
      ChunksCarry(id, ds[..n]);
      assert ds[n] in ds;
      assert ChunkFrames(id, ds) == ChunkFrames(id, ds[..n]) + [ChunkFrame(id, ds[n])];
      FramesSnoc(ChunkFrames(id, ds[..n]), ChunkFrame(id, ds[n]));
    }
  }

  /** The frames of a streamed reply: the text, the reasoning and the logprobs of the deltas in the chunks; then the
      final frame with usage, finish reason and tool calls; then, after a read error, an error frame without a status.
      */
  lemma StreamedFrames(id: nat, o: Outcome)
    requires o.Streamed? && forall d :: d in o.deltas ==> d.Content? ==> d.text != ""
    ensures var fs, n := Trace(id, o), |o.deltas|;
            && FrameText(fs) == Text(o.deltas) && FrameThoughts(fs) == Thoughts(o.deltas)
            && FrameContents(fs) == ContentsOf(o.deltas)
            && |fs| == n + (if o.readError then 2 else 1)
            && fs[n] == Final(id, o.usage, o.finish, o.toolCalls)
            && (o.readError ==> fs[n + 1] == Error(id, 0))
  {
    var chunks, final, e := ChunkFrames(id, o.deltas), Final(id, o.usage, o.finish, o.toolCalls), Error(id, 0);
    ChunksCarry(id, o.deltas);
    FramesSnoc(chunks, final);
    FramesSnoc(chunks + [final], e);
    assert chunks + [final] + [] == chunks + [final];
  }

  // ----- From the backend's answer to the frames -----

  /** A request that is not streamed: one response frame with what is on the wire, or one error frame, which has exactly
      the status of an answer that was not 200 and none for any other failure. */
  lemma WholeReply(id: nat, http: HttpResult, decode: string -> Option<Whole>, ms: int)
    ensures var fs := Trace(id, WholeOutcome(http, decode, ms));
            && |fs| == 1
            && (http.Answer? && http.status != 200 ==> fs[0] == Error(id, http.status))
            && (!http.Answer? || (http.status == 200 && decode(http.body).None?) ==> fs[0] == Error(id, 0))
            && (http.Answer? && http.status == 200 && decode(http.body).Some? ==>
                  var w := decode(http.body).value;
                  var c := FirstChoice(w);
                  && fs[0].Response? && fs[0].id == id
                  && fs[0].reply.content == c.content && fs[0].reply.reasoning == c.reasoning
                  && fs[0].reply.finish == c.finish && fs[0].reply.toolCalls == c.toolCalls
                  && fs[0].reply.logprobs == c.logprobs
                  && fs[0].reply.usage.input == w.usage.prompt && fs[0].reply.usage.output == w.usage.completion)
  {
    hide ReplyFrom;
    ChatReadsWire(http, decode);
  }

  /** A refused streaming request leaves one error frame, with the backend's status if it gave one. */
  lemma RefusedReply(id: nat, failure: Failure, decode: string -> Option<Chunk>, ms: int)
    ensures Trace(id, StreamOutcome(Refused(failure), decode, ms))
         == [Error(id, if failure.BadStatus? then failure.status else 0)]
  {
  }

  /** However a completion is split into chunks, the frames left by streaming it carry what is on the wire of the whole
      one, and what the response frame carries when it is not streamed. */
  lemma SameReply(
      id: nat, scan: Scan, decode: string -> Option<Chunk>,
      body: string, decodeWhole: string -> Option<Whole>, w: Whole, labels: seq<int>, ms: int)
    requires decodeWhole(body) == Some(w)
    requires Splits(Decoded(Payloads(scan.lines), decode), w, labels)
    ensures var cs := Decoded(Payloads(scan.lines), decode);
            var o := StreamOutcome(Body(scan), decode, ms);
            var fs, one := Trace(id, o), Trace(id, WholeOutcome(Answer(200, body), decodeWhole, ms));
            var c := FirstChoice(w);
            && o.Streamed? && one == [Response(id, one[0].reply)]
            && FrameText(fs) == one[0].reply.content == c.content
            && FrameThoughts(fs) == one[0].reply.reasoning == c.reasoning
            && FrameContents(fs) == ContentsSent(cs)
            && |fs| == |o.deltas| + (if ErrAfter(scan) then 2 else 1)
            && (var final := fs[|o.deltas|];
                && final.Final? && final.id == id
                && final.usage == one[0].reply.usage && final.finish == one[0].reply.finish == c.finish
                && final.usage.input == w.usage.prompt && final.usage.output == w.usage.completion
                && one[0].reply.toolCalls == c.toolCalls && |final.toolCalls| == |c.toolCalls|
                && (forall k, i ::
                      0 <= k < |Order(Pieces(cs))| && 0 <= i < |labels| && Order(Pieces(cs))[k] == labels[i] ==>
                        k < |final.toolCalls| && i < |c.toolCalls| && final.toolCalls[k] == AsFunctions(c.toolCalls)[i])
                && (Order(Pieces(cs)) == labels ==> final.toolCalls == AsFunctions(c.toolCalls)))
  {
    hide Trace, Splits, Decoded, Payloads, Pieces, Deltas, LastUsage, Finish, CallsOf, Text, Thoughts, FrameText,
      FrameThoughts, FrameContents, ContentsSent, ErrAfter, ReplyFrom;
    var cs := Decoded(Payloads(scan.lines), decode);
    StreamRefinesChat(scan, decode, body, decodeWhole, w, labels);
    NoEmptyDelta(cs);
    LogprobsKept(cs);
    StreamedFrames(id, StreamOutcome(Body(scan), decode, ms));
    WholeReply(id, Answer(200, body), decodeWhole, ms);
    OneResponse(id, Answer(200, body), decodeWhole, ms);
  }

  lemma OneResponse(id: nat, http: HttpResult, decode: string -> Option<Whole>, ms: int)
    requires ChatResult(http, decode).Ok?
    ensures Trace(id, WholeOutcome(http, decode, ms)) == [Response(id, ChatResult(http, decode).value)]
  {
  }

  // ----- From the backend's answer to the counters -----

  /** What a request that is not streamed counts: a decoded answer as one latency, the measured one, and the tokens on
      the wire; anything else as one error. */
  lemma WholeCounts(http: HttpResult, decode: string -> Option<Whole>, ms: int)
    ensures var incs := Script(WholeOutcome(http, decode, ms));
            var ok := http.Answer? && http.status == 200 && decode(http.body).Some?;
            && Total(incs, Only(Requests)) == 1 && Total(incs, Only(Errors)) == (if ok then 0 else 1)
            && Total(incs, Only(NonStreamCount)) == (if ok then 1 else 0) && Total(incs, Only(StreamCount)) == 0
            && Total(incs, Only(NonStreamLatency)) == (if ok then ms else 0)
            && (forall i: Bucket ::
                  Total(incs, Only(NonStreamBucket(i))) == if ok && i == BucketIndex(ms) then 1 else 0)
            && Total(incs, Only(InputTokens)) == (if ok then decode(http.body).value.usage.prompt else 0)
            && Total(incs, Only(OutputTokens)) == (if ok then decode(http.body).value.usage.completion else 0)
  {
    hide Script, Total, BucketIndex, ReplyFrom;
    ChatReadsWire(http, decode);
    MetricsRuns.ScriptTotals(WholeOutcome(http, decode, ms));
    MetricsRuns.TtftTotals(WholeOutcome(http, decode, ms));
  }

  /** What a streamed request counts: one error if it was refused or its scan ended in an error; the measured time to
      first content if there was content; the tokens of its usage. */
  lemma StreamCounts(answer: StreamAnswer, decode: string -> Option<Chunk>, ms: int)
    ensures var incs := Script(StreamOutcome(answer, decode, ms));
            && Total(incs, Only(Requests)) == 1 && Total(incs, Only(NonStreamCount)) == 0
            && (answer.Refused? ==> Total(incs, Only(Errors)) == 1 && Total(incs, Only(StreamCount)) == 0)
            && (answer.Body? ==>
                  var cs := Decoded(Payloads(answer.scan.lines), decode);
                  var timed := exists q :: 0 <= q < |cs| && ContentOf(cs[q]) != "";
                  && Total(incs, Only(Errors)) == (if ErrAfter(answer.scan) then 1 else 0)
                  && Total(incs, Only(StreamCount)) == (if timed then 1 else 0)
                  && Total(incs, Only(StreamTtft)) == (if timed then ms else 0)
                  && (forall i: Bucket ::
                        Total(incs, Only(StreamBucket(i))) == if timed && i == BucketIndex(ms) then 1 else 0)
                  && Total(incs, Only(InputTokens)) == LastUsage(cs).input
                  && Total(incs, Only(OutputTokens)) == LastUsage(cs).output)
  {
    hide Script, Total, BucketIndex, Deltas, LastUsage, Decoded, Payloads, ErrAfter, Finish, CallsOf, Pieces, ContentOf;
    MetricsRuns.ScriptTotals(StreamOutcome(answer, decode, ms));
    MetricsRuns.TtftTotals(StreamOutcome(answer, decode, ms));
    var o := StreamOutcome(answer, decode, ms);
    if answer.Body? {
      var cs := Decoded(Payloads(answer.scan.lines), decode);
      ContentIsSent(cs);
      assert MetricsRuns.SendsContent(o) <==> exists q :: 0 <= q < |cs| && ContentOf(cs[q]) != "";
    }
  }

  /** Some content is sent on exactly when some chunk has content in its first choice. */
  lemma {:induction false} ContentIsSent(cs: seq<Chunk>)
    ensures (exists d :: d in Deltas(cs) && d.Content?) <==> exists q :: 0 <= q < |cs| && ContentOf(cs[q]) != ""
  {
    hide ChunkDeltas, ContentOf;
    if cs != [] {
      var n := |cs| - 1;
      ContentIsSent(cs[..n]);
      ContentInChunk(cs[n]);
      assert Deltas(cs) == Deltas(cs[..n]) + ChunkDeltas(cs[n]);
      assert forall q :: 0 <= q < n ==> cs[..n][q] == cs[q];
    }
  }

  lemma ContentInChunk(c: Chunk)
    ensures (exists d :: d in ChunkDeltas(c) && d.Content?) <==> ContentOf(c) != ""
  {
    if ContentOf(c) != "" {
      assert Content(c.choices[0].content, c.choices[0].logprobs) in ChunkDeltas(c);
    }
  }
}
