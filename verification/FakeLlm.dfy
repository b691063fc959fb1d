/** The streaming printer of cmd/fakellm/main.go, and what stream reads back from what it prints. */
module FakeLlm {
  import opened Chat
  import opened ToolCalls
  import opened Sse
  import opened Completion
  import opened Refinement

  // ----- strings.Fields -----

  /** Unicode white space. */
  predicate IsSpace(c: char) {
    || c == ' ' || '\t' <= c <= '\r' || c == '\U{0085}' || c == '\U{00A0}' || c == '\U{1680}'
    || '\U{2000}' <= c <= '\U{200A}' || c == '\U{2028}' || c == '\U{2029}' || c == '\U{202F}' || c == '\U{205F}'
    || c == '\U{3000}'
  }

  function SpacesAt(s: string): (n: nat)
    ensures n <= |s| && (forall i :: 0 <= i < n ==> IsSpace(s[i])) && (n < |s| ==> !IsSpace(s[n]))
  {
    if s == "" || !IsSpace(s[0]) then 0 else 1 + SpacesAt(s[1..])
  }

  function WordAt(s: string): (n: nat)
    ensures n <= |s| && (forall i :: 0 <= i < n ==> !IsSpace(s[i])) && (n < |s| ==> IsSpace(s[n]))
    ensures s != "" && !IsSpace(s[0]) ==> n > 0
  {
    if s == "" || IsSpace(s[0]) then 0 else 1 + WordAt(s[1..])
  }

  /** The maximal runs of characters that are not white space. */
  function Fields(s: string): seq<string>
    decreases |s|
  {
    var t := s[SpacesAt(s)..];
    if t == "" then [] else [t[..WordAt(t)]] + Fields(t[WordAt(t)..])
  }

  predicate IsWord(w: string) {
    w != "" && forall i :: 0 <= i < |w| ==> !IsSpace(w[i])
  }

  lemma {:induction false} FieldsAreWords(s: string)
    ensures forall w :: w in Fields(s) ==> IsWord(w)
    decreases |s|
  {
    hide IsSpace;
    var t := s[SpacesAt(s)..];
    if t != "" {
      FieldsAreWords(t[WordAt(t)..]);
      assert IsWord(t[..WordAt(t)]);
    }
  }

  function Spaced(ws: seq<string>): string {
    if ws == [] then "" else if |ws| == 1 then ws[0] else ws[0] + " " + Spaced(ws[1..])
  }

  lemma WordThen(w: string, rest: string)
    requires IsWord(w) && (rest == "" || IsSpace(rest[0]))
    ensures Fields(w + rest) == [w] + Fields(rest)
  {
    var s := w + rest;
    assert forall i :: 0 <= i < |w| ==> s[i] == w[i];
    assert rest != "" ==> s[|w|] == rest[0];
    assert WordAt(s) == |w|;
    assert s[SpacesAt(s)..] == s;
    assert s[..|w|] == w && s[|w|..] == rest;
  }

  lemma SkipOne(c: char, rest: string)
    requires IsSpace(c)
    ensures Fields([c] + rest) == Fields(rest)
  {
    var s := [c] + rest;
    assert s[1..] == rest;
    assert s[SpacesAt(s)..] == rest[SpacesAt(rest)..];
  }

  /** One white-space character between two words splits them; no printable ASCII character does, nor do letters. */
  lemma SplitsAtSpace(a: string, c: char, b: string)
    requires IsWord(a) && IsWord(b)
    requires || c in "\t\n\r \U{000B}\U{000C}\U{0085}\U{00A0}\U{1680}\U{2028}\U{2029}\U{202F}\U{205F}\U{3000}"
             || '\U{2000}' <= c <= '\U{200A}'
    ensures Fields(a + [c] + b) == [a, b]
    ensures forall d: char :: '!' <= d <= '~' || '\U{00C0}' <= d <= '\U{017F}' ==> !IsSpace(d)
  {
    hide Fields, IsWord;
    NoFields();
    WordThen(b, "");
    assert b + "" == b;
    SkipOne(c, b);
    WordThen(a, [c] + b);
    assert a + [c] + b == a + ([c] + b);
  }

  lemma NoFields()
    ensures Fields("") == [] && Spaced([]) == ""
  {
  }

  /** Joining words with single spaces and splitting again gives the words back. */
  lemma {:induction false} FieldsOfSpaced(ws: seq<string>)
    requires forall w :: w in ws ==> IsWord(w)
    ensures Fields(Spaced(ws)) == ws
  {
    hide Fields, IsWord;
    NoFields();
    if |ws| == 1 {
      WordThen(ws[0], "");
      assert ws[0] + "" == ws[0];
    } else if |ws| > 1 {
      FieldsOfSpaced(ws[1..]);
      WordThen(ws[0], " " + Spaced(ws[1..]));
      SkipOne(' ', Spaced(ws[1..]));
      assert Spaced(ws) == ws[0] + (" " + Spaced(ws[1..]));
    }
  }

  /** Text whose only white space is single blanks between words. */
  predicate IsNormal(s: string) {
    && (forall i :: 0 <= i < |s| && IsSpace(s[i]) ==> s[i] == ' ')
    && (forall i :: 0 <= i < |s| - 1 && IsSpace(s[i]) ==> !IsSpace(s[i + 1]))
    && (s != "" ==> !IsSpace(s[0]) && !IsSpace(s[|s| - 1]))
  }

  lemma {:induction false} SpacedIsNormal(ws: seq<string>)
    requires forall w :: w in ws ==> IsWord(w)
    ensures IsNormal(Spaced(ws)) && (ws != [] ==> Spaced(ws) != "")
  {
    if |ws| > 1 {
      SpacedIsNormal(ws[1..]);
      assert IsWord(ws[0]);
      var a, t := ws[0], Spaced(ws[1..]);
      var s := Spaced(ws);
      assert s == a + " " + t;
      forall i | 0 <= i < |s| ensures s[i] == if i < |a| then a[i] else if i == |a| then ' ' else t[i - |a| - 1] { }
    } else if |ws| == 1 {
      assert IsWord(ws[0]);
    }
  }

  lemma NormalTail(s: string, n: nat)
    requires IsNormal(s) && n < |s| && IsSpace(s[n])
    ensures n + 1 < |s| && s[n..] == " " + s[n + 1..] && IsNormal(s[n + 1..])
  {
    var rest := s[n + 1..];
    assert forall i :: 0 <= i < |rest| ==> rest[i] == s[n + 1 + i];
  }

  lemma {:induction false} NormalIsSpaced(s: string)
    requires IsNormal(s)
    ensures Spaced(Fields(s)) == s
    decreases |s|
  {
    hide Fields, IsSpace, WordAt;
    NoFields();
    if s != "" {
      var n := WordAt(s);
      var w := s[..n];
      assert s == w + s[n..];
      assert IsWord(w);
      WordThen(w, s[n..]);
      if n < |s| {
        NormalTail(s, n);
        SkipOne(' ', s[n + 1..]);
        NormalIsSpaced(s[n + 1..]);
        assert ([w] + Fields(s[n + 1..]))[1..] == Fields(s[n + 1..]);
      }
    }
  }

  /** What is reassembled is a fixed point, and it is the text itself exactly when that is normal. */
  lemma SpacedFields(content: string)
    ensures Fields(Spaced(Fields(content))) == Fields(content)
    ensures Spaced(Fields(content)) == content <==> IsNormal(content)
  {
    FieldsAreWords(content);
    FieldsOfSpaced(Fields(content));
    SpacedIsNormal(Fields(content));
    if IsNormal(content) {
      NormalIsSpaced(content);
    }
  }

  // ----- What the fake server streams -----

  function Piece(ws: seq<string>, i: nat): string
    requires i < |ws|
  {
    if i < |ws| - 1 then ws[i] + " " else ws[i]
  }

  function WordPieces(ws: seq<string>): seq<string> {
    seq(|ws|, i requires 0 <= i < |ws| => Piece(ws, i))
  }

  function TextChunk(piece: string): Chunk { Chunk.Chunk([Choice(piece, "", [], "", "")], None) }

  function LastChunk(finish: string, prompt: int, completion: int): Chunk {
    Chunk.Chunk([Choice("", "", [], finish, "")], Some(WireUsage(prompt, completion, None)))
  }

  function ToolChunk(tc: ToolCall): Chunk {
    Chunk.Chunk([Choice("", "", [Fragment(0, tc.id, tc.name, tc.arguments)], "", "")], None)
  }

  function TextChunks(ws: seq<string>, prompt: int): seq<Chunk> {
    seq(|ws|, i requires 0 <= i < |ws| => TextChunk(Piece(ws, i))) + [LastChunk("stop", prompt, |ws|)]
  }

  function Encoded(cs: seq<Chunk>, encode: Chunk -> string): seq<string> {
    seq(|cs|, i requires 0 <= i < |cs| => encode(cs[i]))
  }

  method StreamText(w: ResponseWriter, content: string, promptTokens: int, encode: Chunk -> string)
    modifies w
    ensures w.body == old(w.body) + Events(Encoded(TextChunks(Fields(content), promptTokens), encode)) + DONE_EVENT
  {
    hide Events, Fields, Event;
    EventsEmpty();
    var words := Fields(content);
    ghost var all := Encoded(TextChunks(words, promptTokens), encode);
    for i := 0 to |words|
      invariant w.body == old(w.body) + Events(all[..i])
    {
      var piece := words[i];
      if i < |words| - 1 {
        piece := piece + " ";
      }
      assert piece == Piece(words, i) && all[i] == encode(TextChunk(piece));
      w.WriteChunk(encode(TextChunk(piece)));
      assert all[..i + 1] == all[..i] + [all[i]];
      EventsSnoc(all[..i], all[i]);
    }
    w.WriteChunk(encode(LastChunk("stop", promptTokens, |words|)));
    assert all == all[..|words|] + [all[|words|]];
    EventsSnoc(all[..|words|], all[|words|]);
    w.Print("data: [DONE]\n\n");
  }

  method StreamToolCall(w: ResponseWriter, tc: ToolCall, promptTokens: int, encode: Chunk -> string)
    modifies w
    ensures var cs := [ToolChunk(tc), LastChunk("tool_calls", promptTokens, 0)];
            w.body == old(w.body) + Events(Encoded(cs, encode)) + DONE_EVENT
  {
    hide Events, Event;
    w.WriteChunk(encode(ToolChunk(tc)));
    w.WriteChunk(encode(LastChunk("tool_calls", promptTokens, 0)));
    w.Print("data: [DONE]\n\n");
    EventsEmpty();
    EventsSnoc([], encode(ToolChunk(tc)));
    EventsSnoc([] + [encode(ToolChunk(tc))], encode(LastChunk("tool_calls", promptTokens, 0)));
    assert Encoded([ToolChunk(tc), LastChunk("tool_calls", promptTokens, 0)], encode)
        == [] + [encode(ToolChunk(tc))] + [encode(LastChunk("tool_calls", promptTokens, 0))];
  }

  lemma EventsEmpty()
    ensures Events([]) == ""
  {
  }

  lemma {:induction false} EventsSnoc(ps: seq<string>, p: string)
    ensures Events(ps + [p]) == Events(ps) + Event(p)
  {
    if ps == [] {
      assert [] + [p] == [p];
    } else {
      assert (ps + [p])[1..] == ps[1..] + [p];
      EventsSnoc(ps[1..], p);
    }
  }

  // ----- End to end -----

  /** JSON as a codec: decoding undoes encoding, and the output, if it is not too long, is a payload the framing
      carries. */
  ghost predicate IsCodec(encode: Chunk -> string, decode: string -> Option<Chunk>) {
    forall c: Chunk :: decode(encode(c)) == Some(c) && Framable(encode(c))
  }

  lemma {:induction false} DecodedEncoded(cs: seq<Chunk>, encode: Chunk -> string, decode: string -> Option<Chunk>)
    requires IsCodec(encode, decode)
    ensures Decoded(Encoded(cs, encode), decode) == cs
  {
    if cs != [] {
      var n := |cs| - 1;
      DecodedEncoded(cs[..n], encode, decode);
      assert Encoded(cs, encode)[..n] == Encoded(cs[..n], encode);
    }
  }

  /** The number of chunks before the first whose line does not fit the scanner's buffer. */
  function Readable(cs: seq<Chunk>, encode: Chunk -> string): (k: nat)
    ensures k <= |cs|
    ensures k == |cs| <==> forall i :: 0 <= i < |cs| ==> Fits(encode(cs[i]))
  {
    var ps := Encoded(cs, encode);
    var k := FirstOverlong(ps);
    assert k < |cs| ==> ps[k] == encode(cs[k]);
    assert forall i :: 0 <= i < k ==> Fits(ps[i]) && ps[i] == encode(cs[i]);
    k
  }

  /** Whatever the server appends after "[DONE]", stream reads exactly the chunks that were written, or those before the
      first whose line is too long; and it finds an error exactly when there is such a line, or reading failed with an
      error that came along with the newline after "[DONE]". */
  lemma ReadBack(
      cs: seq<Chunk>, after: string, ending: Ending, encode: Chunk -> string, decode: string -> Option<Chunk>)
    requires IsCodec(encode, decode)
    ensures var scan, k := ScanLines(Events(Encoded(cs, encode)) + DONE_EVENT + after, ending), Readable(cs, encode);
            && Decoded(Payloads(scan.lines), decode) == cs[..k]
            && (ErrAfter(scan) <==> k < |cs| || Together(|after| + 2, ending))
  {
    hide ScanLines, Events, Payloads, Decoded, ErrAfter;
    ReadUpToOverlong(Encoded(cs, encode), after, ending);
    ErrorExactly(Encoded(cs, encode), after, ending);
    var k := Readable(cs, encode);
    assert Encoded(cs, encode)[..k] == Encoded(cs[..k], encode);
    DecodedEncoded(cs[..k], encode, decode);
  }

  lemma JoinPieces(ws: seq<string>)
    ensures Join(WordPieces(ws)) == Spaced(ws)
  {
    assert ws[0..] == ws;
    JoinFirstPieces(ws, |ws|);
    assert WordPieces(ws)[..|ws|] == WordPieces(ws);
    if ws != [] { assert ws[|ws|..] == []; }
  }

  /** The first k pieces, followed by the remaining words, make up the whole. */
  lemma {:induction false} JoinFirstPieces(ws: seq<string>, k: nat)
    requires k <= |ws|
    ensures Join(WordPieces(ws)[..k]) + Spaced(ws[k..]) == Spaced(ws)
  {
    if k == 0 {
      assert ws[0..] == ws;
    } else {
      JoinFirstPieces(ws, k - 1);
      assert WordPieces(ws)[..k] == WordPieces(ws)[..k - 1] + [Piece(ws, k - 1)];
      JoinSnoc(WordPieces(ws)[..k - 1], Piece(ws, k - 1));
      assert ws[k - 1..][1..] == ws[k..];
      assert Piece(ws, k - 1) + Spaced(ws[k..]) == Spaced(ws[k - 1..]);
    }
  }

  lemma TextChunksText(ws: seq<string>, prompt: int)
    ensures Join(Contents(TextChunks(ws, prompt))) == Spaced(ws)
    ensures Join(Reasonings(TextChunks(ws, prompt))) == ""
    ensures Pieces(TextChunks(ws, prompt)) == []
  {
    hide Join, Pieces, Spaced;
    var cs := TextChunks(ws, prompt);
    assert Contents(cs) == WordPieces(ws) + [""];
    JoinPieces(ws);
    JoinSnoc(WordPieces(ws), "");
    assert forall i :: 0 <= i < |cs| ==> Reasonings(cs)[i] == "";
    AllEmpty(Reasonings(cs));
    NoPieces(cs);
  }

  lemma TextChunksEnd(ws: seq<string>, prompt: int)
    ensures CarriesFinish(TextChunks(ws, prompt), "stop")
    ensures CarriesUsage(TextChunks(ws, prompt), WireUsage(prompt, |ws|, None))
  {
    var cs := TextChunks(ws, prompt);
    var n := |ws|;
    assert FinishOf(cs[n]) == "stop";
    assert forall q :: 0 <= q < n ==> cs[q] == TextChunk(Piece(ws, q));
    assert LastUsageAt(cs, n, WireUsage(prompt, n, None)) && NoDetails(cs[..n]);
  }

  lemma NothingToFragment()
    ensures Fragments([], AsFunctions([]), [])
  {
    assert AsFunctions([]) == [];
  }

  /** The text chunks split the completion whose content is the words joined by single blanks. */
  lemma TextChunksSplit(ws: seq<string>, prompt: int)
    ensures Splits(TextChunks(ws, prompt), TextWhole(Spaced(ws), prompt, |ws|), [])
  {
    hide Join, Pieces, Spaced, TextChunks, CarriesFinish, CarriesUsage, Fragments, AsFunctions;
    TextChunksText(ws, prompt);
    TextChunksEnd(ws, prompt);
    NothingToFragment();
  }

  /** The answer respondText sends for the same content. */
  function TextWhole(content: string, prompt: int, completion: int): (w: Whole)
    ensures w.choices == [WholeChoice(content, "", [], "stop", "")] && w.usage == WireUsage(prompt, completion, None)
  {
    Whole([WholeChoice(content, "", [], "stop", "")], WireUsage(prompt, completion, None))
  }

  lemma {:induction false} AllEmpty(parts: seq<string>)
    requires forall i :: 0 <= i < |parts| ==> parts[i] == ""
    ensures Join(parts) == ""
  {
    if parts != [] {
      AllEmpty(parts[..|parts| - 1]);
    }
  }

  lemma {:induction false} NoPieces(cs: seq<Chunk>)
    requires forall i :: 0 <= i < |cs| ==> cs[i].choices != [] && cs[i].choices[0].fragments == []
    ensures Pieces(cs) == []
  {
    if cs != [] {
      NoPieces(cs[..|cs| - 1]);
    }
  }

  /** Reading what StreamText printed. When every line fits: the words joined by single blanks, the usage and "stop", so
      the streamed reply equals the one chat returns for what respondText sends for the same content if and only if the
      content is normal. When one does not: the text before it, and a read error. */
  lemma StreamedText(
      content: string, prompt: int, encode: Chunk -> string, decode: string -> Option<Chunk>,
      whole: string, decodeWhole: string -> Option<Whole>)
    requires IsCodec(encode, decode)
    requires decodeWhole(whole) == Some(TextWhole(content, prompt, |Fields(content)|))
    ensures var cs := TextChunks(Fields(content), prompt);
            var k := Readable(cs, encode);
            var r := StreamOf(ScanLines(Events(Encoded(cs, encode)) + DONE_EVENT, Complete), decode);
            var chat := ChatResult(Answer(200, whole), decodeWhole);
            && (r.readError <==> k < |cs|)
            && Text(r.deltas) == Join(Contents(cs[..k]))
            && (k == |cs| ==>
                  && chat.Ok? && Text(r.deltas) == Spaced(Fields(content))
                  && Thoughts(r.deltas) == chat.value.reasoning == ""
                  && r.usage == chat.value.usage == Usage(prompt, |Fields(content)|, 0)
                  && r.finish == chat.value.finish == "stop" && r.toolCalls == chat.value.toolCalls == []
                  && (Text(r.deltas) == chat.value.content <==> IsNormal(content)))
  {
    hide Fields, Spaced, Events, Decoded, Payloads, ScanLines, ErrAfter, Deltas, Text, Thoughts, Splits, IsNormal, Join,
      Contents, Encoded, TextChunks, IsCodec;
    var ws := Fields(content);
    var cs := TextChunks(ws, prompt);
    ReadBack(cs, "", Complete, encode, decode);
    var body := Events(Encoded(cs, encode)) + DONE_EVENT;
    assert body + "" == body;
    var k := Readable(cs, encode);
    DeltasKeepText(cs[..k]);
    assert k == |cs| ==> cs[..k] == cs;
    TextChunksSplit(ws, prompt);
    SplitsGiveBack(cs, TextWhole(Spaced(ws), prompt, |ws|), []);
    SpacedFields(content);
    ChatReadsWire(Answer(200, whole), decodeWhole);
  }

  /** Reading what StreamToolCall printed gives the tool call back if and only if both lines fit, and then it is the
      call, usage and finish reason chat returns for what respondToolCall sends; otherwise there is a read error. */
  lemma StreamedToolCall(
      tc: ToolCall, prompt: int, encode: Chunk -> string, decode: string -> Option<Chunk>,
      whole: string, decodeWhole: string -> Option<Whole>)
    requires IsCodec(encode, decode) && tc.kind == "function"
    requires decodeWhole(whole)
          == Some(Whole([WholeChoice("", "", [tc], "tool_calls", "")], WireUsage(prompt, 0, None)))
    ensures var cs := [ToolChunk(tc), LastChunk("tool_calls", prompt, 0)];
            var r := StreamOf(ScanLines(Events(Encoded(cs, encode)) + DONE_EVENT, Complete), decode);
            var chat := ChatResult(Answer(200, whole), decodeWhole);
            && (r == StreamResult([], Usage(prompt, 0, 0), "tool_calls", [tc], false) <==>
                  Fits(encode(cs[0])) && Fits(encode(cs[1])))
            && (r.readError <==> !Fits(encode(cs[0])) || !Fits(encode(cs[1])))
            && chat == Ok(Reply("", "", Usage(prompt, 0, 0), "tool_calls", [tc], ""))
  {
    hide Events, Decoded, Payloads, ScanLines, ErrAfter, Deltas, LastUsage, Finish, Pieces, CallsOf, Encoded, Fits,
      IsCodec, Readable;
    var cs := [ToolChunk(tc), LastChunk("tool_calls", prompt, 0)];
    ReadBack(cs, "", Complete, encode, decode);
    var body := Events(Encoded(cs, encode)) + DONE_EVENT;
    assert body + "" == body;
    var k := Readable(cs, encode);
    assert k == |cs| <==> Fits(encode(cs[0])) && Fits(encode(cs[1]));
    assert k == |cs| ==> cs[..k] == cs;
    ToolChunksMean(tc, prompt);
    ChatReadsWire(Answer(200, whole), decodeWhole);
  }

  lemma ToolChunksMean(tc: ToolCall, prompt: int)
    requires tc.kind == "function"
    ensures var cs := [ToolChunk(tc), LastChunk("tool_calls", prompt, 0)];
            && Deltas(cs) == [] && LastUsage(cs) == Usage(prompt, 0, 0) && Finish(cs) == "tool_calls"
            && CallsOf(Pieces(cs)) == [tc]
  {
    hide Deltas, LastUsage, Finish, Pieces, CallsOf;
    var a, b := ToolChunk(tc), LastChunk("tool_calls", prompt, 0);
    assert [a, b] == [] + [a] + [b];
    NothingSeen(_ => None);
    ChunkAdds([], a);
    ChunkAdds([] + [a], b);
    var f := Fragment(0, tc.id, tc.name, tc.arguments);
    assert Pieces([a, b]) == [f];
    OneFragment(f);
  }

  lemma OneFragment(f: Fragment)
    ensures CallsOf([f]) == [ToolCall(f.id, "function", f.name, f.arguments)]
  {
    assert [] + [f] == [f];
    OrderSnoc([], f);
    assert Order([]) == [];
    MineSnoc([], f);
    NothingYet([], f.index);
    assert "" + f.arguments == f.arguments;
    assert Order([f]) == [f.index];
    assert CallsOf([f])[0] == CallOf([f], f.index);
  }
}
