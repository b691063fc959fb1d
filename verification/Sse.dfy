/** The event-stream framing between the backend and stream (backend.go): the subset of section 9.2 of the WHATWG HTML
    Living Standard that uses one "data: " line per event. */
module Sse {

  // Text here is bytes: a character stands for one.

  const PREFIX := "data: "
  const DONE := "[DONE]"
  const DONE_EVENT := "data: [DONE]\n\n"

  // ----- Reading: bufio.Scanner's lines, and the data they carry -----

  /** The position of the first newline, |t| when there is none. */
  function FirstNewline(t: string): (i: nat)
    ensures i <= |t|
    ensures forall j :: 0 <= j < i ==> t[j] != '\n'
    ensures i < |t| ==> t[i] == '\n'
  {
    if t == "" || t[0] == '\n' then 0 else 1 + FirstNewline(t[1..])
  }

  function DropCR(line: string): string {
    if line != "" && line[|line| - 1] == '\r' then line[..|line| - 1] else line
  }

  /** bufio.MaxScanTokenSize: a line and its newline have to fit in a buffer of this many bytes. */
  const LIMIT: nat := 65536

  /** How reading a body ends: it is complete, or reading fails. The error may come along with the last bytes, as many
      as together says. */
  datatype Ending = Complete | Breaks(together: nat)

  /** What a scanner delivers when it is asked until it stops, whether it stopped because of an error, and how many
      lines it delivered before it knew of that error. */
  datatype Scan = Scan(lines: seq<string>, failed: bool, held: nat)

  /** Lines come without their newline and one carriage return before it; text after the last newline is a line unless
      it is empty. A line that does not fit the buffer stops the scanner. An error that came along with some bytes is
      kept while the lines that end in them are delivered. */
  function ScanLines(t: string, ending: Ending): Scan
    decreases |t|
  {
    if t == "" then Scan([], ending.Breaks?, 0)
    else
      var i := FirstNewline(t);
      if i >= LIMIT then Scan([], true, 0)
      else if i == |t| then Scan([DropCR(t)], ending.Breaks?, 0)
      else
        var rest := ScanLines(t[i + 1..], ending);
        Scan([DropCR(t[..i])] + rest.lines, rest.failed, if Together(|t| - i, ending) then 0 else rest.held + 1)
  }

  /** The last n bytes of a body come along with a read error. */
  predicate Together(n: nat, ending: Ending) { ending.Breaks? && n <= ending.together }

  predicate IsData(line: string) { PREFIX <= line }

  function Data(line: string): string
    requires IsData(line)
  {
    line[|PREFIX|..]
  }

  /** The data of the data lines before the first "[DONE]". */
  function Payloads(lines: seq<string>): seq<string> {
    if lines == [] then []
    else if !IsData(lines[0]) then Payloads(lines[1..])
    else if Data(lines[0]) == DONE then []
    else [Data(lines[0])] + Payloads(lines[1..])
  }

  /** Whether a loop over the lines comes to "[DONE]". */
  predicate ReachesDone(lines: seq<string>) {
    lines != [] && ((IsData(lines[0]) && Data(lines[0]) == DONE) || ReachesDone(lines[1..]))
  }

  /** The position of the first "[DONE]", the number of lines when there is none. */
  function DoneAt(lines: seq<string>): nat {
    if lines == [] || (IsData(lines[0]) && Data(lines[0]) == DONE) then 0 else 1 + DoneAt(lines[1..])
  }

  /** What scanner.Err() says after a loop that stops at "[DONE]": the error that stopped the scanner, or one that it
      kept when it delivered "[DONE]". */
  predicate ErrAfter(scan: Scan) {
    scan.failed && (ReachesDone(scan.lines) ==> scan.held <= DoneAt(scan.lines))
  }

  // ----- Writing -----

  function Event(payload: string): string { PREFIX + payload + "\n\n" }

  function Events(payloads: seq<string>): string {
    if payloads == [] then "" else Event(payloads[0]) + Events(payloads[1..])
  }

  class ResponseWriter {
    var body: string

    constructor ()
      ensures body == ""
    {
      body := "";
    }

    method Print(s: string)
      modifies this
      ensures body == old(body) + s
    {
      body := body + s;
    }

    method WriteChunk(payload: string)
      modifies this
      ensures body == old(body) + Event(payload) == old(body) + ("data: " + payload + "\n\n")
    {
      Print(PREFIX + payload + "\n\n");
    }
  }

  // ----- Reading undoes writing, and exactly when -----

  /** A payload the framing does not change. JSON output always is one: it holds no raw newline or carriage return and
      is never "[DONE]". */
  predicate Framable(p: string) {
    '\n' !in p && DropCR(p) == p && p != DONE
  }

  /** A payload whose line fits the scanner's buffer. */
  predicate Fits(p: string) { |PREFIX| + |p| < LIMIT }

  predicate Clean(p: string) { Framable(p) && Fits(p) }

  lemma {:induction false} FirstNewlineAt(l: string, t: string)
    requires '\n' !in l
    ensures FirstNewline(l + "\n" + t) == |l|
  {
    if l != "" {
      FirstNewlineAt(l[1..], t);
      assert (l + "\n" + t)[1..] == l[1..] + "\n" + t;
    }
  }

  lemma ScanOne(l: string, t: string, ending: Ending)
    requires '\n' !in l
    ensures ScanLines(l + "\n" + t, ending)
         == if |l| >= LIMIT then Scan([], true, 0)
            else
              var rest := ScanLines(t, ending);
              Scan([DropCR(l)] + rest.lines, rest.failed, if Together(|t| + 1, ending) then 0 else rest.held + 1)
  {
    FirstNewlineAt(l, t);
    var s := l + "\n" + t;
    assert s[..|l|] == l && s[|l| + 1..] == t;
  }

  /** What reading finds of an event whose payload has no newline. */
  lemma ReadEvent(p: string, t: string, ending: Ending)
    requires '\n' !in p
    ensures var scan, rest := ScanLines(Event(p) + t, ending), ScanLines(t, ending);
            if !Fits(p) then scan == Scan([], true, 0)
            else
              && scan.failed == rest.failed
              && Payloads(scan.lines) == (if DropCR(p) == DONE then [] else [DropCR(p)] + Payloads(rest.lines))
              && (ReachesDone(scan.lines) <==> DropCR(p) == DONE || ReachesDone(rest.lines))
              && (if DropCR(p) == DONE then scan.held <= DoneAt(scan.lines) <==> Together(|t| + 2, ending)
                  else scan.held <= DoneAt(scan.lines) <==> rest.held <= DoneAt(rest.lines))
  {
    hide ScanLines, Payloads, ReachesDone, DoneAt;
    assert Event(p) + t == (PREFIX + p) + "\n" + ("" + "\n" + t);
    ScanOne(PREFIX + p, "" + "\n" + t, ending);
    ScanOne("", t, ending);
    ReadDataLine(p, [""] + ScanLines(t, ending).lines);
    ReadBlankLine(ScanLines(t, ending).lines);
    if Together(|t|, ending) {
      AllHeld(t, ending);
    }
  }

  /** When all of a body comes along with the error, the scanner knows of it from the first line on. */
  lemma AllHeld(t: string, ending: Ending)
    requires Together(|t|, ending)
    ensures ScanLines(t, ending).held == 0
  {
  }

  lemma ReadBlankLine(rest: seq<string>)
    ensures Payloads([""] + rest) == Payloads(rest) && ReachesDone([""] + rest) == ReachesDone(rest)
    ensures DoneAt([""] + rest) == DoneAt(rest) + 1
  {
  }

  lemma ReadDataLine(p: string, rest: seq<string>)
    ensures Payloads([DropCR(PREFIX + p)] + rest) == if DropCR(p) == DONE then [] else [DropCR(p)] + Payloads(rest)
    ensures ReachesDone([DropCR(PREFIX + p)] + rest) <==> DropCR(p) == DONE || ReachesDone(rest)
    ensures DoneAt([DropCR(PREFIX + p)] + rest) == if DropCR(p) == DONE then 0 else DoneAt(rest) + 1
  {
    var line := DropCR(PREFIX + p);
    assert line == PREFIX + DropCR(p);
    assert Data(line) == DropCR(p);
    assert ([line] + rest)[1..] == rest;
  }

  /** A payload with a newline in it is cut short, or stops the scanner. */
  lemma ReadBrokenEvent(p: string, t: string, ending: Ending)
    requires '\n' in p
    ensures var read := Payloads(ScanLines(Event(p) + t, ending).lines); read == [] || |read[0]| < |p|
  {
    hide ScanLines, Payloads;
    var i := FirstNewline(p);
    assert i < |p|;
    var a, rest := p[..i], p[i + 1..] + "\n\n" + t;
    assert p == a + "\n" + p[i + 1..];
    assert Event(p) + t == (PREFIX + a) + "\n" + rest;
    ScanOne(PREFIX + a, rest, ending);
    ReadDataLine(a, ScanLines(rest, ending).lines);
    NoPayloads();
  }

  lemma NoPayloads()
    ensures Payloads([]) == [] && !ReachesDone([])
  {
  }

  /** Whatever follows "[DONE]" is ignored, and reading gives the payloads back if and only if all are clean. */
  lemma {:induction false} RoundTrip(ps: seq<string>, after: string, ending: Ending)
    ensures Payloads(ScanLines(Events(ps) + DONE_EVENT + after, ending).lines) == ps
       <==> forall p :: p in ps ==> Clean(p)
  {
    hide ScanLines, Payloads;
    NoPayloads();
    if ps == [] {
      assert Events(ps) + DONE_EVENT + after == Event(DONE) + after;
      ReadEvent(DONE, after, ending);
    } else {
      var p, t := ps[0], Events(ps[1..]) + DONE_EVENT + after;
      assert Events(ps) + DONE_EVENT + after == Event(p) + t;
      RoundTrip(ps[1..], after, ending);
      if '\n' in p {
        ReadBrokenEvent(p, t, ending);
        assert p in ps && !Clean(p);
      } else {
        ReadEvent(p, t, ending);
        assert ps == [p] + ps[1..];
      }
    }
  }

  /** Framed payloads are read up to the first whose line does not fit: none is, and the loop comes to "[DONE]", without
      an error unless one came along with the newline of that line; or the scanner stops in front of it with an error,
      and it and what follows are lost. */
  lemma {:induction false} ReadUpToOverlong(ps: seq<string>, after: string, ending: Ending)
    requires forall p :: p in ps ==> Framable(p)
    ensures var scan, k := ScanLines(Events(ps) + DONE_EVENT + after, ending), FirstOverlong(ps);
            && Payloads(scan.lines) == ps[..k]
            && (k == |ps| ==>
                  ReachesDone(scan.lines) && (scan.held <= DoneAt(scan.lines) <==> Together(|after| + 2, ending)))
            && (k < |ps| ==> scan.failed && !ReachesDone(scan.lines))
  {
    hide ScanLines, Payloads, ReachesDone, Events, DoneAt;
    NoPayloads();
    if ps == [] {
      assert Events(ps) + DONE_EVENT + after == Event(DONE) + after by { EventsOf([], DONE); }
      ReadEvent(DONE, after, ending);
    } else {
      var p, t := ps[0], Events(ps[1..]) + DONE_EVENT + after;
      assert Events(ps) + DONE_EVENT + after == Event(p) + t by { EventsOf(ps[1..], p); assert [p] + ps[1..] == ps; }
      ReadUpToOverlong(ps[1..], after, ending);
      assert Framable(p);
      ReadEvent(p, t, ending);
      var k := FirstOverlong(ps);
      assert k == 0 ==> !Fits(p);
      assert k > 0 ==> ps[..k] == [p] + ps[1..][..k - 1];
    }
  }

  /** So after the loop there is an error exactly when a line did not fit, or reading failed with an error that came
      along with the newline after "[DONE]". */
  lemma ErrorExactly(ps: seq<string>, after: string, ending: Ending)
    requires forall p :: p in ps ==> Framable(p)
    ensures ErrAfter(ScanLines(Events(ps) + DONE_EVENT + after, ending))
       <==> FirstOverlong(ps) < |ps| || Together(|after| + 2, ending)
  {
    hide ScanLines, Payloads, ReachesDone, Events, DoneAt;
    ReadUpToOverlong(ps, after, ending);
    BreaksFail(Events(ps) + DONE_EVENT + after, ending);
  }

  lemma {:induction false} BreaksFail(t: string, ending: Ending)
    ensures ending.Breaks? ==> ScanLines(t, ending).failed
    decreases |t|
  {
    if t != "" && FirstNewline(t) < |t| {
      BreaksFail(t[FirstNewline(t) + 1..], ending);
    }
  }

  lemma EventsOf(ps: seq<string>, p: string)
    ensures Events([]) == "" && Events([p] + ps) == Event(p) + Events(ps)
  {
  }

  /** The position of the first payload whose line does not fit, |ps| when all do. */
  function FirstOverlong(ps: seq<string>): (k: nat)
    ensures k <= |ps| && (forall j :: 0 <= j < k ==> Fits(ps[j])) && (k < |ps| ==> !Fits(ps[k]))
  {
    if ps == [] || !Fits(ps[0]) then 0 else 1 + FirstOverlong(ps[1..])
  }

  /** A payload ending in a carriage return comes back without it, so being newline-free is not enough. */
  lemma CarriageReturnIsLost(p: string)
    requires '\n' !in p && p != DONE && |PREFIX| + |p| + 1 < LIMIT
    ensures Payloads(ScanLines(Event(p + "\r") + DONE_EVENT, Complete).lines) == [p]
  {
    hide ScanLines, Payloads;
    ReadEvent(p + "\r", DONE_EVENT, Complete);
    assert DONE_EVENT == Event(DONE) + "";
    ReadEvent(DONE, "", Complete);
  }

  /** A payload of exactly the length that no longer fits is lost, although nothing is wrong with it. */
  lemma OverlongIsLost()
    ensures var p := seq(65530, _ => 'x');
            Framable(p) && !Fits(p) && ScanLines(Event(p) + DONE_EVENT, Complete) == Scan([], true, 0)
  {
    hide ScanLines;
    var p := seq(65530, _ => 'x');
    ReadEvent(p, DONE_EVENT, Complete);
    assert p[0] == 'x';
  }

  /** One byte less comes back: the limit is exact. */
  lemma LongestFits(p: string)
    requires Framable(p)
    ensures Payloads(ScanLines(Event(p) + DONE_EVENT, Complete).lines) == [p] <==> |p| <= 65529
  {
    hide ScanLines, Payloads;
    RoundTrip([p], "", Complete);
    assert Events([p]) == Event(p) + Events([]);
    assert Events([p]) + DONE_EVENT + "" == Event(p) + DONE_EVENT;
    assert forall q :: q in [p] ==> q == p;
    assert p in [p];
  }

  /** Text after the last newline is a line too, without a carriage return at its end. */
  lemma LastLineCounts(l: string, ending: Ending)
    requires l != "" && '\n' !in l && |l| < 65536
    ensures ScanLines(l, ending).lines == [if l[|l| - 1] == '\r' then l[..|l| - 1] else l]
    ensures ScanLines(l, ending).failed == ending.Breaks?
  {
    assert FirstNewline(l) == |l|;
  }

  /** A line that does not begin with "data: " changes nothing, wherever it stands. */
  lemma {:induction false} OtherLinesIgnored(a: seq<string>, l: string, b: seq<string>)
    requires !("data: " <= l)
    ensures Payloads(a + [l] + b) == Payloads(a + b)
    ensures ReachesDone(a + [l] + b) == ReachesDone(a + b)
  {
    if a == [] {
      assert [] + [l] + b == [l] + b && [] + b == b;
      assert ([l] + b)[1..] == b;
    } else {
      OtherLinesIgnored(a[1..], l, b);
      assert (a + [l] + b)[1..] == a[1..] + [l] + b && (a + b)[1..] == a[1..] + b;
    }
  }
}
