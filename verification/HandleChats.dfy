/** handleChat (connection.go): one request, its increments on the window it pinned and its frames on the connection. */
module HandleChats {
  import opened Windows
  import opened Chat
  import opened Sse
  import opened Completion
  import opened RequestWindows

  /** The write side of one router connection. A write that fails fails every later one. */
  class Connection {
    var written: seq<Frame>
    var broken: bool

    constructor ()
      ensures written == [] && !broken
    {
      written, broken := [], false;
    }

    /** fails: whether the network breaks at this write. */
    method Send(f: Frame, fails: bool)
      modifies this
      ensures broken == (old(broken) || fails)
      ensures written == old(written) + (if broken then [] else [f])
    {
      broken := broken || fails;
      if !broken {
        written := written + [f];
      }
    }
  }

  /** The backend's answer to a streaming request: refused, or a body as the scanner delivers it. */
  datatype StreamAnswer = Refused(failure: Failure) | Body(scan: Scan)

  /** How a chat request ends, given what the backend answers and the measured milliseconds. */
  function WholeOutcome(http: HttpResult, decode: string -> Option<Whole>, ms: int): Outcome {
    match ChatResult(http, decode)
    case Err(failure) => Failed(failure)
    case Ok(reply) => Answered(reply, ms)
  }

  function StreamOutcome(answer: StreamAnswer, decode: string -> Option<Chunk>, ms: int): Outcome {
    match answer
    case Refused(failure) => Failed(failure)
    case Body(scan) =>
      var r := StreamOf(scan, decode);
      Streamed(r.deltas, ms, r.usage, r.finish, r.toolCalls, r.readError)
  }

  /** What a request leaves behind: its script on the window, increment by increment, and, as far as the connection
      held, its trace. */
  ghost predicate Served(
      before: seq<Inc>, after: seq<Inc>, was: seq<Frame>, now: seq<Frame>, broken: bool, id: nat, o: Outcome)
  {
    && after == before + Script(o)
    && (exists k: nat :: k <= |Trace(id, o)| && now == was + Trace(id, o)[..k] && (!broken ==> k == |Trace(id, o)|))
  }

  /** A request that is not streamed. */
  method HandleWhole(
      id: nat, http: HttpResult, decode: string -> Option<Whole>, ms: int, fails: bool,
      window: RequestWindow, conn: Connection)
    requires window.Valid() && conn !in window.Repr()
    modifies window.Repr(), conn
    ensures window.Valid()
    ensures Served(old(window.incs), window.incs, old(conn.written), conn.written, conn.broken,
                   id, WholeOutcome(http, decode, ms))
    ensures forall m: Measure ::
              window.View().Value(m) == old(window.View().Value(m)) + Total(Script(WholeOutcome(http, decode, ms)), m)
  {
    hide RequestWindow.Valid, LatencyIncs, TokenIncs, Total, Window.Value;
    window.MeasuresAddUp();
    window.RecordRequestStart();
    ghost var trace := Trace(id, WholeOutcome(http, decode, ms));
    match ChatResult(http, decode) {
      case Err(failure) =>
        window.RecordError();
        conn.Send(ErrorFrame(id, failure), fails);
      case Ok(reply) =>
        window.RecordNonStreamLatency(ms);
        window.RecordTokens(Some(reply.usage));
        conn.Send(Response(id, reply), fails);
    }
    assert trace[..1] == trace && trace[..0] == [];
    assert conn.written == old(conn.written) + trace[..if conn.broken then 0 else 1];
    Grown(old(window.incs), Script(WholeOutcome(http, decode, ms)));
    window.MeasuresAddUp();
  }

  lemma Grown(before: seq<Inc>, script: seq<Inc>)
    ensures forall m: Measure :: Total(before + script, m) == Total(before, m) + Total(script, m)
  {
    forall m: Measure ensures Total(before + script, m) == Total(before, m) + Total(script, m) {
      TotalConcat(before, script, m);
    }
  }

  /** A streamed request: fails says at which of its writes, if any, the network breaks. */
  method HandleStream(
      id: nat, answer: StreamAnswer, decode: string -> Option<Chunk>, ms: int, fails: nat -> bool,
      window: RequestWindow, conn: Connection)
    requires window.Valid() && conn !in window.Repr()
    modifies window.Repr(), conn
    ensures window.Valid()
    ensures Served(old(window.incs), window.incs, old(conn.written), conn.written, conn.broken,
                   id, StreamOutcome(answer, decode, ms))
    ensures forall m: Measure ::
              window.View().Value(m) == old(window.View().Value(m))
                  + Total(Script(StreamOutcome(answer, decode, ms)), m)
  {
    hide RequestWindow.Valid, StreamOf, HasContent, TtftIncs, TokenIncs, ChunkFrames, Total, Window.Value;
    window.MeasuresAddUp();
    window.RecordRequestStart();
    match answer {
      case Refused(failure) =>
        window.RecordError();
        conn.Send(ErrorFrame(id, failure), fails(0));
        ghost var trace := Trace(id, Failed(failure));
        assert trace[..1] == trace && trace[..0] == [];
        assert conn.written == old(conn.written) + trace[..if conn.broken then 0 else 1];
      case Body(scan) =>
        var r := Stream(scan, decode);
        ghost var o := Streamed(r.deltas, ms, r.usage, r.finish, r.toolCalls, r.readError);
        ghost var k := SendDeltas(id, r.deltas, ms, fails, window, conn);
        k := SendEnd(id, r, fails, window, conn, ms, k, old(conn.written));
        assert o == StreamOutcome(answer, decode, ms);
        assert window.incs == old(window.incs) + Script(o);
    }
    Grown(old(window.incs), Script(StreamOutcome(answer, decode, ms)));
    window.MeasuresAddUp();
  }

  ghost predicate SentSoFar(conn: Connection, was: seq<Frame>, frames: seq<Frame>, k: nat)
    reads conn
  {
    k <= |frames| && conn.written == was + frames[..k] && (!conn.broken ==> k == |frames|)
  }

  /** The calls stream makes while it reads; the first content delta is timed. */
  method SendDeltas(
      id: nat, deltas: seq<Delta>, ms: int, fails: nat -> bool, window: RequestWindow, conn: Connection)
    returns (ghost k: nat)
    requires window.Valid() && conn !in window.Repr()
    modifies window.Repr(), conn
    ensures window.Valid()
    ensures SentSoFar(conn, old(conn.written), ChunkFrames(id, deltas), k)
    ensures window.incs == old(window.incs) + (if HasContent(deltas) then TtftIncs(ms) else [])
  {
    hide RequestWindow.Valid, TtftIncs;
    var firstChunk := true;
    k := 0;
    ghost var frames := ChunkFrames(id, deltas);
    for i := 0 to |deltas|
      invariant window.Valid()
      invariant SentSoFar(conn, old(conn.written), frames[..i], k)
      invariant firstChunk == !HasContent(deltas[..i])
      invariant window.incs == old(window.incs) + (if firstChunk then [] else TtftIncs(ms))
    {
      if deltas[i].Content? && firstChunk {
        firstChunk := false;
        window.RecordTTFT(ms);
      }
      HasContentNext(deltas, i);
      assert frames[..i + 1] == frames[..i] + [frames[i]];
      conn.Send(ChunkFrame(id, deltas[i]), fails(i));
      k := if conn.broken then k else i + 1;
      assert frames[..i + 1][..k] == if k <= i then frames[..i][..k] else frames[..i + 1];
    }
    assert deltas[..|deltas|] == deltas && frames[..|deltas|] == frames;
  }

  lemma HasContentNext(ds: seq<Delta>, i: nat)
    requires i < |ds|
    ensures HasContent(ds[..i + 1]) <==> HasContent(ds[..i]) || ds[i].Content?
  {
    assert ds[..i + 1] == ds[..i] + [ds[i]];
    if HasContent(ds[..i]) {
      var j :| 0 <= j < i && ds[..i][j].Content?;
      assert ds[..i + 1][j].Content?;
    }
    if ds[i].Content? {
      assert ds[..i + 1][i].Content?;
    }
    if HasContent(ds[..i + 1]) && !ds[i].Content? {
      var j :| 0 <= j < i + 1 && ds[..i + 1][j].Content?;
      assert ds[..i][j].Content?;
    }
  }

  /** The final call, and the error when the scan ended in one: the final frame goes out before stream returns. */
  method SendEnd(
      id: nat, r: StreamResult, fails: nat -> bool, window: RequestWindow, conn: Connection,
      ghost ms: int, ghost sent: nat, ghost was: seq<Frame>)
    returns (ghost k: nat)
    requires window.Valid() && conn !in window.Repr()
    requires SentSoFar(conn, was, ChunkFrames(id, r.deltas), sent)
    modifies window.Repr(), conn
    ensures window.Valid()
    ensures window.incs == old(window.incs) + TokenIncs(r.usage) + (if r.readError then [Inc(Errors, 1)] else [])
    ensures SentSoFar(conn, was, Trace(id, Streamed(r.deltas, ms, r.usage, r.finish, r.toolCalls, r.readError)), k)
  {
    hide RequestWindow.Valid, TokenIncs, ChunkFrames;
    ghost var frames := ChunkFrames(id, r.deltas);
    ghost var n := |frames|;
    k := sent;
    window.RecordTokens(Some(r.usage));
    var final := Final(id, r.usage, r.finish, r.toolCalls);
    conn.Send(final, fails(|r.deltas|));
    k := if conn.broken then k else n + 1;
    assert (frames + [final])[..k] == if k <= n then frames[..k] else frames + [final];
    frames := frames + [final];
    assert SentSoFar(conn, was, frames, k);
    if r.readError {
      window.RecordError();
      var e := ErrorFrame(id, OtherFailure);
      conn.Send(e, fails(|r.deltas| + 1));
      k := if conn.broken then k else n + 2;
      assert (frames + [e])[..k] == if k <= n + 1 then frames[..k] else frames + [e];
    } else {
      assert frames + [] == frames;
    }
  }
}
