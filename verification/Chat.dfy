/** The values one chat request deals in (frame.go), and what handleChat does for each way it can end. */
module Chat {
  import opened Histogram
  import opened Windows

  datatype Option<+T> = None | Some(value: T)

  datatype Usage = Usage(input: int, output: int, reasoning: int)

  datatype ToolCall = ToolCall(id: string, kind: string, name: string, arguments: string)

  /** What a non-streaming completion returns. */
  datatype Reply = Reply(
    content: string, reasoning: string, usage: Usage, finish: string, toolCalls: seq<ToolCall>, logprobs: string)

  /** A non-200 answer carries the backend's own status; any other failure has none. */
  datatype Failure = BadStatus(status: int) | OtherFailure

  /** One call stream makes to the functions handleChat gives it, before the final one. */
  datatype Delta = Content(text: string, logprobs: string) | Reasoning(thought: string)

  datatype Frame =
    | Hello
    | Chunk(id: nat, content: string, reasoning: string, logprobs: string)
    | Response(id: nat, reply: Reply)
    | Final(id: nat, usage: Usage, finish: string, toolCalls: seq<ToolCall>)
    | Error(id: nat, status: int)
    | BenchmarkResult(id: nat)
  {
    predicate Belongs(request: nat) {
      !Hello? && id == request
    }
  }

  /** How the backend served a request, and the milliseconds handleChat measured. */
  datatype Outcome =
    | Failed(failure: Failure)
    | Answered(reply: Reply, latency: int)
    | Streamed(deltas: seq<Delta>, ttft: int, usage: Usage, finish: string, toolCalls: seq<ToolCall>, readError: bool)

  function ErrorFrame(id: nat, failure: Failure): Frame {
    Error(id, if failure.BadStatus? then failure.status else 0)
  }

  function ChunkFrame(id: nat, d: Delta): Frame {
    match d
    case Content(text, logprobs) => Chunk(id, text, "", logprobs)
    case Reasoning(thought) => Chunk(id, "", thought, "")
  }

  function ChunkFrames(id: nat, ds: seq<Delta>): seq<Frame> {
    seq(|ds|, i requires 0 <= i < |ds| => ChunkFrame(id, ds[i]))
  }

  /** The data frames a chat request sends, in order. */
  function Trace(id: nat, o: Outcome): seq<Frame> {
    match o
    case Failed(failure) => [ErrorFrame(id, failure)]
    case Answered(reply, _) => [Response(id, reply)]
    case Streamed(deltas, _, usage, finish, toolCalls, readError) =>
      ChunkFrames(id, deltas) + [Final(id, usage, finish, toolCalls)]
      + (if readError then [ErrorFrame(id, OtherFailure)] else [])
  }

  predicate HasContent(ds: seq<Delta>) {
    exists i :: 0 <= i < |ds| && ds[i].Content?
  }

  function TokenIncs(usage: Usage): seq<Inc> {
    [Inc(InputTokens, usage.input), Inc(OutputTokens, usage.output)]
  }

  function LatencyIncs(ms: int): seq<Inc> {
    [Inc(NonStreamCount, 1), Inc(NonStreamLatency, ms), Inc(NonStreamBucket(BucketIndex(ms)), 1)]
  }

  function TtftIncs(ms: int): seq<Inc> {
    [Inc(StreamCount, 1), Inc(StreamTtft, ms), Inc(StreamBucket(BucketIndex(ms)), 1)]
  }

  /** The atomic increments a chat request makes to the window it pinned, in order. */
  function Script(o: Outcome): seq<Inc> {
    match o
    case Failed(_) => [Inc(Requests, 1), Inc(Errors, 1)]
    case Answered(reply, latency) => [Inc(Requests, 1)] + LatencyIncs(latency) + TokenIncs(reply.usage)
    case Streamed(deltas, ttft, usage, _, _, readError) =>
      [Inc(Requests, 1)] + (if HasContent(deltas) then TtftIncs(ttft) else [])
      + TokenIncs(usage) + (if readError then [Inc(Errors, 1)] else [])
  }
}
