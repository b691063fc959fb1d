/** The streaming and the non-streaming completion of backend.go. */
module Completion {
  import opened Chat
  import opened ToolCalls
  import opened Sse

  // ----- The decoded wire values -----

  datatype WireUsage = WireUsage(prompt: int, completion: int, details: Option<int>)

  datatype Choice =
    Choice(content: string, reasoning: string, fragments: seq<Fragment>, finish: string, logprobs: string)

  /** One event of a streamed completion. */
  datatype Chunk = Chunk(choices: seq<Choice>, usage: Option<WireUsage>)

  datatype WholeChoice =
    WholeChoice(content: string, reasoning: string, toolCalls: seq<ToolCall>, finish: string, logprobs: string)

  /** The body of a completion that is not streamed. */
  datatype Whole = Whole(choices: seq<WholeChoice>, usage: WireUsage)

  datatype HttpResult = Unreachable | ReadFailed | Answer(status: int, body: string)

  datatype Result<+T> = Ok(value: T) | Err(failure: Failure)

  // ----- chat -----

  function UsageFrom(u: WireUsage): Usage {
    Usage(u.prompt, u.completion, if u.details.Some? then u.details.value else 0)
  }

  function ReplyFrom(w: Whole): Reply {
    if w.choices == [] then Reply("", "", UsageFrom(w.usage), "", [], "")
    else
      var c := w.choices[0];
      Reply(c.content, c.reasoning, UsageFrom(w.usage), c.finish, c.toolCalls, c.logprobs)
  }

  /** chat: one request, one whole answer or one failure. */
  function ChatResult(http: HttpResult, decode: string -> Option<Whole>): Result<Reply> {
    match http
    case Unreachable => Err(OtherFailure)
    case ReadFailed => Err(OtherFailure)
    case Answer(status, body) =>
      if status != 200 then Err(BadStatus(status))
      else
        match decode(body)
        case None => Err(OtherFailure)
        case Some(w) => Ok(ReplyFrom(w))
  }

  // ----- What a list of chunks says -----

  /** The chunks that decode; the others are skipped. */
  function Decoded(payloads: seq<string>, decode: string -> Option<Chunk>): seq<Chunk> {
    if payloads == [] then []
    else
      var n := |payloads| - 1;
      var c := decode(payloads[n]);
      Decoded(payloads[..n], decode) + (if c.Some? then [c.value] else [])
  }

  function ChunkDeltas(c: Chunk): seq<Delta> {
    if c.choices == [] then []
    else
      (if c.choices[0].content != "" then [Content(c.choices[0].content, c.choices[0].logprobs)] else [])
      + (if c.choices[0].reasoning != "" then [Reasoning(c.choices[0].reasoning)] else [])
  }

  function Deltas(cs: seq<Chunk>): seq<Delta> {
    if cs == [] then [] else Deltas(cs[..|cs| - 1]) + ChunkDeltas(cs[|cs| - 1])
  }

  function Pieces(cs: seq<Chunk>): seq<Fragment> {
    if cs == [] then []
    else
      var c := cs[|cs| - 1];
      Pieces(cs[..|cs| - 1]) + (if c.choices == [] then [] else c.choices[0].fragments)
  }

  /** The last non-empty finish reason. */
  function Finish(cs: seq<Chunk>): string {
    if cs == [] then ""
    else
      var c := cs[|cs| - 1];
      if c.choices != [] && c.choices[0].finish != "" then c.choices[0].finish else Finish(cs[..|cs| - 1])
  }

  /** Token counts of the last chunk with usage, reasoning tokens of the last one with details. */
  function LastUsage(cs: seq<Chunk>): Usage {
    if cs == [] then Usage(0, 0, 0)
    else
      var before, u := LastUsage(cs[..|cs| - 1]), cs[|cs| - 1].usage;
      if u.None? then before
      else
        var reasoning := if u.value.details.Some? then u.value.details.value else before.reasoning;
        Usage(u.value.prompt, u.value.completion, reasoning)
  }

  // ----- stream -----

  /** Everything stream reports: the deltas as they came, then the final call, then whether scanner.Err() is non-nil. */
  datatype StreamResult =
    StreamResult(deltas: seq<Delta>, usage: Usage, finish: string, toolCalls: seq<ToolCall>, readError: bool)

  function StreamOf(scan: Scan, decode: string -> Option<Chunk>): StreamResult {
    var cs := Decoded(Payloads(scan.lines), decode);
    StreamResult(Deltas(cs), LastUsage(cs), Finish(cs), CallsOf(Pieces(cs)), ErrAfter(scan))
  }

  /** What stream's loop carries besides the tool calls. */
  datatype SoFar = SoFar(deltas: seq<Delta>, usage: Usage, finish: string)

  ghost predicate Carries(v: SoFar, acc: Accumulator, seen: seq<Chunk>)
    reads acc
  {
    v == SoFar(Deltas(seen), LastUsage(seen), Finish(seen)) && acc.Holds(Pieces(seen))
  }

  /** The scanner loop; an error the scanner holds when the loop stops is what its Err() says. */
  method Stream(scan: Scan, decode: string -> Option<Chunk>) returns (r: StreamResult)
    ensures r == StreamOf(scan, decode)
  {
    hide Decoded, Payloads, Deltas, LastUsage, Finish, Pieces, Accumulator.Holds;
    var lines, err := scan.lines, scan.failed;
    var v := SoFar([], Usage(0, 0, 0), "");
    var acc := new Accumulator();
    ghost var seen: seq<Chunk> := [];
    NothingSeen(decode);
    var k := 0;
    assert lines[0..] == lines;
    while k < |lines|
      invariant 0 <= k <= |lines|
      invariant fresh(acc) && Carries(v, acc, seen)
      invariant seen + Decoded(Payloads(lines[k..]), decode) == Decoded(Payloads(lines), decode)
      invariant err == scan.failed && ReachesDone(lines[k..]) == ReachesDone(lines)
      invariant DoneAt(lines) == k + DoneAt(lines[k..])
    {
      NextLine(lines[k..], decode);
      var line := lines[k];
      assert lines[k..][1..] == lines[k + 1..];
      k := k + 1;
      if !IsData(line) {
        continue;
      }
      var data := Data(line);
      if data == DONE {
        assert seen + [] == seen;
        err := scan.failed && scan.held <= k - 1;
        break;
      }
      var decoded := decode(data);
      if decoded.Some? {
        v := TakeChunk(v, decoded.value, acc, seen);
        seen := seen + [decoded.value];
      }
    }
    assert k == |lines| ==> lines[k..] == [] && seen + [] == seen;
    assert seen == Decoded(Payloads(lines), decode);
    var collected := acc.Collect(Pieces(seen));
    return StreamResult(v.deltas, v.usage, v.finish, collected, err);
  }

  /** The loop body for a chunk that decoded. */
  method TakeChunk(v: SoFar, chunk: Chunk, acc: Accumulator, ghost seen: seq<Chunk>) returns (next: SoFar)
    requires Carries(v, acc, seen)
    modifies acc
    ensures Carries(next, acc, seen + [chunk])
  {
    hide Deltas, LastUsage, Finish, Pieces, Accumulator.Holds;
    next := v;
    ChunkAdds(seen, chunk);
    assert Pieces(seen) + [] == Pieces(seen);
    if chunk.usage.Some? {
      var u := chunk.usage.value;
      next := next.(usage := Usage(u.prompt, u.completion, next.usage.reasoning));
      if u.details.Some? {
        next := next.(usage := next.usage.(reasoning := u.details.value));
      }
    }
    if |chunk.choices| > 0 {
      var choice := chunk.choices[0];
      if choice.content != "" {
        next := next.(deltas := next.deltas + [Content(choice.content, choice.logprobs)]);
      }
      if choice.reasoning != "" {
        next := next.(deltas := next.deltas + [Reasoning(choice.reasoning)]);
      }
      if choice.finish != "" {
        next := next.(finish := choice.finish);
      }
      AddAll(acc, choice.fragments, Pieces(seen));
    }
    assert next.deltas == v.deltas + ChunkDeltas(chunk);
  }

  lemma NothingSeen(decode: string -> Option<Chunk>)
    ensures Deltas([]) == [] && LastUsage([]) == Usage(0, 0, 0) && Finish([]) == "" && Pieces([]) == []
    ensures Decoded(Payloads([]), decode) == []
  {
    hide Accumulator.Holds;
  }

  /** What one more line adds to the decoded chunks. */
  lemma NextLine(lines: seq<string>, decode: string -> Option<Chunk>)
    requires lines != []
    ensures var rest, all := Decoded(Payloads(lines[1..]), decode), Decoded(Payloads(lines), decode);
            if !IsData(lines[0]) then all == rest
            else if Data(lines[0]) == DONE then all == []
            else if decode(Data(lines[0])).None? then all == rest
            else all == [decode(Data(lines[0])).value] + rest
  {
    if IsData(lines[0]) && Data(lines[0]) != DONE {
      DecodedCons(Data(lines[0]), Payloads(lines[1..]), decode);
    }
  }

  lemma {:induction false} DecodedCons(p: string, ps: seq<string>, decode: string -> Option<Chunk>)
    ensures Decoded([p] + ps, decode) == (if decode(p).None? then [] else [decode(p).value]) + Decoded(ps, decode)
  {
    if ps == [] {
      assert [p] + ps == [p];
      assert [p][..0] == [];
    } else {
      var n := |ps| - 1;
      DecodedCons(p, ps[..n], decode);
      assert ([p] + ps)[..n + 1] == [p] + ps[..n];
    }
  }

  /** A payload that does not decode changes nothing, wherever it stands. */
  lemma {:induction false} UndecodableIgnored(
      a: seq<string>, p: string, b: seq<string>, decode: string -> Option<Chunk>)
    requires decode(p).None?
    ensures Decoded(a + [p] + b, decode) == Decoded(a + b, decode)
  {
    if a == [] {
      DecodedCons(p, b, decode);
      assert [] + [p] + b == [p] + b && [] + b == b && [] + Decoded(b, decode) == Decoded(b, decode);
    } else {
      UndecodableIgnored(a[1..], p, b, decode);
      DecodedCons(a[0], a[1..] + [p] + b, decode);
      DecodedCons(a[0], a[1..] + b, decode);
      assert [a[0]] + (a[1..] + [p] + b) == a + [p] + b && [a[0]] + (a[1..] + b) == a + b;
    }
  }

  method AddAll(acc: Accumulator, fragments: seq<Fragment>, ghost before: seq<Fragment>)
    requires acc.Holds(before)
    modifies acc
    ensures acc.Holds(before + fragments)
  {
    assert before + fragments[..0] == before;
    for i := 0 to |fragments|
      invariant acc.Holds(before + fragments[..i])
    {
      acc.Add(fragments[i], before + fragments[..i]);
      assert before + fragments[..i] + [fragments[i]] == before + fragments[..i + 1];
    }
    assert fragments[..|fragments|] == fragments;
  }

  lemma ChunkAdds(cs: seq<Chunk>, c: Chunk)
    ensures Deltas(cs + [c]) == Deltas(cs) + ChunkDeltas(c)
    ensures Pieces(cs + [c]) == Pieces(cs) + (if c.choices == [] then [] else c.choices[0].fragments)
    ensures Finish(cs + [c]) == if c.choices != [] && c.choices[0].finish != "" then c.choices[0].finish else Finish(cs)
    ensures LastUsage(cs + [c])
         == if c.usage.None? then LastUsage(cs)
            else Usage(c.usage.value.prompt, c.usage.value.completion,
                       if c.usage.value.details.Some? then c.usage.value.details.value else LastUsage(cs).reasoning)
  {
    assert (cs + [c])[..|cs|] == cs;
  }
}
