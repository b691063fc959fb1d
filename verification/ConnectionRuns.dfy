/** Every interleaving of the requests served on one router connection (connection.go). The write mutex makes each send
    one atomic step; a write that fails fails every later one. */
module ConnectionRuns {
  import opened Chat

  /** A request being handled: the frames it sends, in order, and how many of those sends it has made. */
  datatype Request = Request(id: nat, frames: seq<Frame>, pc: nat)

  datatype State = State(helloSent: bool, broken: bool, log: seq<Frame>, requests: seq<Request>)

  /** fails: whether the network breaks at this write. */
  datatype Action =
    | SendHello(fails: bool)
    | AcceptChat(id: nat, outcome: Outcome)
    | AcceptBenchmark(id: nat)
    | SendNext(r: nat, fails: bool)

  const INITIAL := State(false, false, [], [])

  function Write(s: State, f: Frame, fails: bool): State {
    if s.broken || fails then s.(broken := true) else s.(log := s.log + [f])
  }

  predicate IsFresh(s: State, id: nat) {
    forall r :: 0 <= r < |s.requests| ==> s.requests[r].id != id
  }

  /** Requests are read only after the hello was tried, and the router gives each its own id. */
  function Accept(s: State, id: nat, frames: seq<Frame>): State {
    if s.helloSent && IsFresh(s, id) then s.(requests := s.requests + [Request(id, frames, 0)]) else s
  }

  function Step(s: State, a: Action): State {
    match a
    case SendHello(fails) => if s.helloSent then s else Write(s, Hello, fails).(helloSent := true)
    case AcceptChat(id, o) => Accept(s, id, Trace(id, o))
    case AcceptBenchmark(id) => Accept(s, id, [BenchmarkResult(id)])
    case SendNext(r, fails) =>
      if r < |s.requests| && s.requests[r].pc < |s.requests[r].frames| then
        var q := s.requests[r];
        Write(s, q.frames[q.pc], fails).(requests := s.requests[r := q.(pc := q.pc + 1)])
      else s
  }

  function Run(acts: seq<Action>): State {
    if acts == [] then INITIAL else Step(Run(acts[..|acts| - 1]), acts[|acts| - 1])
  }

  /** The frames of the log that belong to one request. */
  function Project(log: seq<Frame>, id: nat): seq<Frame> {
    if log == [] then []
    else
      var n := |log| - 1;
      Project(log[..n], id) + (if log[n].Belongs(id) then [log[n]] else [])
  }

  // ----- What a request's frames look like -----

  predicate IsTerminal(f: Frame) { f.Response? || f.Final? || f.Error? }

  function Terminals(fs: seq<Frame>): nat {
    if fs == [] then 0 else Terminals(fs[..|fs| - 1]) + (if IsTerminal(fs[|fs| - 1]) then 1 else 0)
  }

  /** n chunks, then the end of the reply: one response or one error without chunks; or a final, and perhaps an error.
      */
  ghost predicate EndsAfter(fs: seq<Frame>, n: nat) {
    && n < |fs| && (forall i :: 0 <= i < n ==> fs[i].Chunk?)
    && (|| (n == 0 && |fs| == 1 && (fs[0].Response? || fs[0].Error?))
        || (|fs| == n + 1 && fs[n].Final?)
        || (|fs| == n + 2 && fs[n].Final? && fs[n + 1].Error?))
  }

  ghost predicate IsReply(fs: seq<Frame>, id: nat) {
    (forall i :: 0 <= i < |fs| ==> fs[i].Belongs(id)) && exists n: nat :: EndsAfter(fs, n)
  }

  lemma {:induction false} ChunksAreNotTerminal(fs: seq<Frame>)
    requires forall i :: 0 <= i < |fs| ==> fs[i].Chunk?
    ensures Terminals(fs) == 0
  {
    if fs != [] {
      ChunksAreNotTerminal(fs[..|fs| - 1]);
    }
  }

  lemma TerminalsSnoc(fs: seq<Frame>, f: Frame)
    ensures Terminals(fs + [f]) == Terminals(fs) + (if IsTerminal(f) then 1 else 0)
  {
    assert (fs + [f])[..|fs|] == fs;
  }

  lemma StreamIsReply(id: nat, o: Outcome)
    requires o.Streamed?
    ensures IsReply(Trace(id, o), id)
    ensures Terminals(Trace(id, o)) == if o.readError then 2 else 1
  {
    var chunks, final := ChunkFrames(id, o.deltas), Final(id, o.usage, o.finish, o.toolCalls);
    var e := ErrorFrame(id, OtherFailure);
    assert forall i :: 0 <= i < |chunks| ==> chunks[i].Chunk? && chunks[i].Belongs(id);
    hide ChunkFrames, Terminals;
    ChunksAreNotTerminal(chunks);
    TerminalsSnoc(chunks, final);
    TerminalsSnoc(chunks + [final], e);
    assert EndsAfter(Trace(id, o), |chunks|);
    assert chunks + [final] + [] == chunks + [final];
  }

  /** A chat request's frames follow the grammar, and there is exactly one terminal frame exactly when the scan of a
      stream did not end in a read error; otherwise there are two, final and error. */
  lemma TraceIsReply(id: nat, o: Outcome)
    ensures IsReply(Trace(id, o), id)
    ensures Terminals(Trace(id, o)) == 1 <==> !(o.Streamed? && o.readError)
    ensures Terminals(Trace(id, o)) == 2 <==> o.Streamed? && o.readError
  {
    match o
    case Failed(failure) =>
      TerminalsSnoc([], ErrorFrame(id, failure));
      assert Trace(id, o) == [] + [ErrorFrame(id, failure)];
      assert EndsAfter(Trace(id, o), 0);
    case Answered(reply, _) =>
      TerminalsSnoc([], Response(id, reply));
      assert Trace(id, o) == [] + [Response(id, reply)];
      assert EndsAfter(Trace(id, o), 0);
    case Streamed(_, _, _, _, _, _) => StreamIsReply(id, o);
  }

  /** The number of chunk frames is the number of deltas: a stream that had none carries no chunk at all. */
  lemma ChunksAreDeltas(id: nat, o: Outcome)
    ensures (forall f :: f in Trace(id, o) ==> !f.Chunk?) <==> !(o.Streamed? && o.deltas != [])
    ensures forall i :: 0 <= i < |Trace(id, o)| ==> (Trace(id, o)[i].Chunk? <==> o.Streamed? && i < |o.deltas|)
  {
    var t := Trace(id, o);
    if o.Streamed? {
      assert forall i :: 0 <= i < |o.deltas| ==> t[i] == ChunkFrames(id, o.deltas)[i];
      assert t[|o.deltas|].Final?;
      assert o.deltas != [] ==> t[0] in t;
    }
  }

  // ----- The invariant -----

  /** What request q has put on the wire is the start of its frames: all it tried to send while the connection held. */
  ghost predicate ProjectsTo(s: State, q: Request) {
    && q.pc <= |q.frames|
    && (forall i :: 0 <= i < |q.frames| ==> q.frames[i].Belongs(q.id))
    && exists k: nat :: k <= q.pc && (!s.broken ==> k == q.pc) && Project(s.log, q.id) == q.frames[..k]
  }

  ghost predicate Inv(s: State) {
    && (s.log != [] ==> s.helloSent && s.log[0] == Hello)
    && (forall i :: 0 < i < |s.log| ==> s.log[i] != Hello)
    && (!s.helloSent ==> s.requests == [])
    && (s.helloSent && !s.broken ==> s.log != [])
    && (forall r :: 0 <= r < |s.requests| ==> ProjectsTo(s, s.requests[r]))
    && (forall q, r :: 0 <= q < r < |s.requests| ==> s.requests[q].id != s.requests[r].id)
    && (forall id: nat :: IsFresh(s, id) ==> Project(s.log, id) == [])
  }

  lemma ProjectSnoc(log: seq<Frame>, f: Frame, id: nat)
    ensures Project(log + [f], id) == Project(log, id) + (if f.Belongs(id) then [f] else [])
  {
    assert (log + [f])[..|log|] == log;
  }

  lemma AcceptInv(s: State, id: nat, frames: seq<Frame>)
    requires Inv(s) && forall i :: 0 <= i < |frames| ==> frames[i].Belongs(id)
    ensures Inv(Accept(s, id, frames))
  {
    hide Project;
    var t := Accept(s, id, frames);
    if s.helloSent && IsFresh(s, id) {
      assert frames[..0] == Project(s.log, id);
      assert ProjectsTo(t, t.requests[|s.requests|]);
      forall r | 0 <= r < |s.requests| ensures ProjectsTo(t, t.requests[r]) {
        assert ProjectsTo(s, s.requests[r]);
      }
      forall other: nat | IsFresh(t, other) ensures Project(t.log, other) == [] {
        forall r | 0 <= r < |s.requests| ensures s.requests[r].id != other {
          assert t.requests[r].id != other;
        }
        assert IsFresh(s, other);
      }
    }
  }

  lemma SendKeepsOwn(s: State, r: nat, fails: bool)
    requires Inv(s) && r < |s.requests| && s.requests[r].pc < |s.requests[r].frames|
    ensures ProjectsTo(Step(s, SendNext(r, fails)), Step(s, SendNext(r, fails)).requests[r])
  {
    hide Project;
    var q, t := s.requests[r], Step(s, SendNext(r, fails));
    assert ProjectsTo(s, q);
    var k: nat :| k <= q.pc && (!s.broken ==> k == q.pc) && Project(s.log, q.id) == q.frames[..k];
    if s.broken || fails {
      assert Project(t.log, q.id) == q.frames[..k];
    } else {
      ProjectSnoc(s.log, q.frames[q.pc], q.id);
      assert Project(t.log, q.id) == q.frames[..q.pc + 1];
    }
  }

  lemma SendKeepsOthers(s: State, r: nat, fails: bool)
    requires Inv(s) && r < |s.requests| && s.requests[r].pc < |s.requests[r].frames|
    ensures var t := Step(s, SendNext(r, fails));
            forall id: nat :: id != s.requests[r].id ==> Project(t.log, id) == Project(s.log, id)
  {
    hide Project;
    var q := s.requests[r];
    assert ProjectsTo(s, q);
    forall id: nat | id != q.id ensures Project(s.log + [q.frames[q.pc]], id) == Project(s.log, id) {
      ProjectSnoc(s.log, q.frames[q.pc], id);
    }
  }

  lemma SendInv(s: State, r: nat, fails: bool)
    requires Inv(s) && r < |s.requests| && s.requests[r].pc < |s.requests[r].frames|
    ensures Inv(Step(s, SendNext(r, fails)))
  {
    hide Project;
    var q, t := s.requests[r], Step(s, SendNext(r, fails));
    assert ProjectsTo(s, q);
    SendKeepsOwn(s, r, fails);
    SendKeepsOthers(s, r, fails);
    forall p | 0 <= p < |t.requests| ensures ProjectsTo(t, t.requests[p]) {
      if p != r {
        assert ProjectsTo(s, s.requests[p]);
      }
    }
    forall id: nat | IsFresh(t, id) ensures Project(t.log, id) == [] {
      assert t.requests[r].id != id;
      forall p | 0 <= p < |s.requests| ensures s.requests[p].id != id {
        assert t.requests[p].id != id;
      }
    }
  }

  lemma HelloInv(s: State, fails: bool)
    requires Inv(s) && !s.helloSent
    ensures Inv(Step(s, SendHello(fails)))
  {
    assert s.log == [];
    forall id: nat ensures Project([Hello], id) == [] { ProjectSnoc([], Hello, id); assert [] + [Hello] == [Hello]; }
  }

  lemma {:induction false} RunInv(acts: seq<Action>)
    ensures Inv(Run(acts))
  {
    if acts != [] {
      var s, a := Run(acts[..|acts| - 1]), acts[|acts| - 1];
      RunInv(acts[..|acts| - 1]);
      match a
      case SendHello(fails) => if !s.helloSent { HelloInv(s, fails); }
      case AcceptChat(id, o) => TraceIsReply(id, o); AcceptInv(s, id, Trace(id, o));
      case AcceptBenchmark(id) => AcceptInv(s, id, [BenchmarkResult(id)]);
      case SendNext(r, fails) =>
        if r < |s.requests| && s.requests[r].pc < |s.requests[r].frames| { SendInv(s, r, fails); }
    }
  }

  // ----- What holds of every run -----

  /** hello is the first data frame written, if any is, and no other frame is a hello. */
  lemma HelloFirst(acts: seq<Action>)
    ensures var s := Run(acts);
            && (s.log != [] ==> s.log[0] == Hello)
            && (forall i :: 0 < i < |s.log| ==> s.log[i] != Hello)
            && (s.helloSent && !s.broken ==> s.log != [])
  {
    RunInv(acts);
  }

  /** Seen through its id, the wire shows each request's own frames, in order and without gaps, whatever the others do:
      all those it has sent while the connection holds, the start of them once it has broken. */
  lemma OwnFramesInOrder(acts: seq<Action>, r: nat)
    requires r < |Run(acts).requests|
    ensures var s := Run(acts); var q := s.requests[r]; var mine := Project(s.log, q.id);
            && q.pc <= |q.frames| && mine <= q.frames && |mine| <= q.pc && (!s.broken ==> mine == q.frames[..q.pc])
            && (!s.broken && q.pc == |q.frames| ==> mine == q.frames)
  {
    RunInv(acts);
    assert ProjectsTo(Run(acts), Run(acts).requests[r]);
  }

  lemma {:induction false} RequestsAreReplies(acts: seq<Action>, r: nat)
    requires r < |Run(acts).requests|
    ensures var q := Run(acts).requests[r];
            q.frames == [BenchmarkResult(q.id)] || exists o :: q.frames == Trace(q.id, o)
    decreases |acts|
  {
    hide Trace;
    var s, a := Run(acts[..|acts| - 1]), acts[|acts| - 1];
    if r < |s.requests| {
      RequestsAreReplies(acts[..|acts| - 1], r);
    } else if a.AcceptChat? {
      assert Run(acts).requests[r].frames == Trace(a.id, a.outcome);
    }
  }

  /** While the connection holds, what a finished chat request left on the wire is a reply by the grammar, with exactly
      one terminal frame unless its stream ended in a read error. */
  lemma FinishedReply(acts: seq<Action>, r: nat)
    requires r < |Run(acts).requests| && !Run(acts).broken
    requires var q := Run(acts).requests[r]; q.pc == |q.frames| && q.frames != [BenchmarkResult(q.id)]
    ensures var s := Run(acts); var q := s.requests[r];
            && IsReply(Project(s.log, q.id), q.id)
            && exists o :: Project(s.log, q.id) == Trace(q.id, o)
                 && (Terminals(Project(s.log, q.id)) == 1 <==> !(o.Streamed? && o.readError))
  {
    hide Trace, Project, Terminals, IsReply, Run;
    var q := Run(acts).requests[r];
    OwnFramesInOrder(acts, r);
    RequestsAreReplies(acts, r);
    var o :| q.frames == Trace(q.id, o);
    TraceIsReply(q.id, o);
  }

  // ----- Every request is served -----

  lemma RunNext(acts: seq<Action>, a: Action)
    ensures Run(acts + [a]) == Step(Run(acts), a)
  {
    assert (acts + [a])[..|acts|] == acts;
  }

  /** While the connection holds a request can send all that it has left. */
  lemma {:induction false} SendsAll(acts: seq<Action>, r: nat) returns (more: seq<Action>)
    requires r < |Run(acts).requests| && !Run(acts).broken
    ensures var s, t := Run(acts), Run(acts + more);
            && r < |t.requests| && t.requests[r].id == s.requests[r].id && t.requests[r].frames == s.requests[r].frames
            && t.requests[r].pc >= |t.requests[r].frames| && !t.broken
    decreases |Run(acts).requests[r].frames| - Run(acts).requests[r].pc
  {
    hide Run;
    var s := Run(acts);
    if s.requests[r].pc >= |s.requests[r].frames| {
      more := [];
      assert acts + more == acts;
    } else {
      RunNext(acts, SendNext(r, false));
      var rest := SendsAll(acts + [SendNext(r, false)], r);
      more := [SendNext(r, false)] + rest;
      assert acts + more == acts + [SendNext(r, false)] + rest;
    }
  }

  /** A chat request with an id that is not in use is accepted on every connection that has tried its hello, whatever
      else goes on there, and its whole reply can be sent while the connection holds. */
  lemma ChatIsServed(acts: seq<Action>, id: nat, o: Outcome)
    requires var s := Run(acts);
             s.helloSent && !s.broken && forall r :: 0 <= r < |s.requests| ==> s.requests[r].id != id
    ensures exists more ::
              var t := Run(acts + [AcceptChat(id, o)] + more); !t.broken && Project(t.log, id) == Trace(id, o)
  {
    hide Run, Trace, Project;
    RunNext(acts, AcceptChat(id, o));
    var b := acts + [AcceptChat(id, o)];
    var r := |Run(acts).requests|;
    var more := SendsAll(b, r);
    OwnFramesInOrder(b + more, r);
    assert Project(Run(b + more).log, id) == Trace(id, o);
  }

  /** And so is a benchmark request, with its one result. */
  lemma BenchmarkIsServed(acts: seq<Action>, id: nat)
    requires var s := Run(acts);
             s.helloSent && !s.broken && forall r :: 0 <= r < |s.requests| ==> s.requests[r].id != id
    ensures exists more ::
              var t := Run(acts + [AcceptBenchmark(id)] + more);
              !t.broken && Project(t.log, id) == [BenchmarkResult(id)]
  {
    hide Run, Project;
    RunNext(acts, AcceptBenchmark(id));
    var b := acts + [AcceptBenchmark(id)];
    var r := |Run(acts).requests|;
    var more := SendsAll(b, r);
    OwnFramesInOrder(b + more, r);
    assert Project(Run(b + more).log, id) == [BenchmarkResult(id)];
  }

  /** A connection begins by sending its hello, and then accepts requests whether that was written or not. */
  lemma HelloIsSent(fails: bool)
    ensures var s := Run([] + [SendHello(fails)]);
            s.helloSent && s.log == (if fails then [] else [Hello]) && s.broken == fails && s.requests == []
  {
    RunNext([], SendHello(fails));
  }
}
