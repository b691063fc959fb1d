/** Streaming a completion delivers what asking for it whole returns (backend.go: stream against chat). */
module Refinement {
  import opened Chat
  import opened ToolCalls
  import opened Sse
  import opened Completion

  // ----- What a reader reassembles from the deltas -----

  function Text(ds: seq<Delta>): string {
    if ds == [] then ""
    else Text(ds[..|ds| - 1]) + (if ds[|ds| - 1].Content? then ds[|ds| - 1].text else "")
  }

  function Thoughts(ds: seq<Delta>): string {
    if ds == [] then ""
    else Thoughts(ds[..|ds| - 1]) + (if ds[|ds| - 1].Reasoning? then ds[|ds| - 1].thought else "")
  }

  // ----- What it is for chunks to split one completion -----

  function ContentOf(c: Chunk): string { if c.choices == [] then "" else c.choices[0].content }

  function ReasoningOf(c: Chunk): string { if c.choices == [] then "" else c.choices[0].reasoning }

  function FinishOf(c: Chunk): string { if c.choices == [] then "" else c.choices[0].finish }

  function Join(parts: seq<string>): string {
    if parts == [] then "" else Join(parts[..|parts| - 1]) + parts[|parts| - 1]
  }

  function Contents(cs: seq<Chunk>): seq<string> { seq(|cs|, i requires 0 <= i < |cs| => ContentOf(cs[i])) }

  function Reasonings(cs: seq<Chunk>): seq<string> { seq(|cs|, i requires 0 <= i < |cs| => ReasoningOf(cs[i])) }

  /** stream sets every call's type to "function". */
  function AsFunctions(calls: seq<ToolCall>): seq<ToolCall> {
    seq(|calls|, i requires 0 <= i < |calls| => calls[i].(kind := "function"))
  }

  /** The last chunk with usage carries u, and if it has no details no earlier one has any either; or no usage was sent
      in either form. */
  ghost predicate CarriesUsage(cs: seq<Chunk>, u: WireUsage) {
    || (exists p: nat :: LastUsageAt(cs, p, u) && (u.details.None? ==> NoDetails(cs[..p])))
    || (u == WireUsage(0, 0, None) && forall q :: 0 <= q < |cs| ==> cs[q].usage.None?)
  }

  ghost predicate LastUsageAt(cs: seq<Chunk>, p: nat, u: WireUsage) {
    p < |cs| && cs[p].usage == Some(u) && forall q :: p < q < |cs| ==> cs[q].usage.None?
  }

  ghost predicate NoDetails(cs: seq<Chunk>) {
    forall q :: 0 <= q < |cs| && cs[q].usage.Some? ==> cs[q].usage.value.details.None?
  }

  ghost predicate CarriesFinish(cs: seq<Chunk>, finish: string) {
    && (forall q :: 0 <= q < |cs| ==> FinishOf(cs[q]) == "" || FinishOf(cs[q]) == finish)
    && (finish == "" || exists q :: 0 <= q < |cs| && FinishOf(cs[q]) == finish)
  }

  /** cs is one way of splitting the completion w into deltas, call i under index labels[i]. */
  ghost predicate Splits(cs: seq<Chunk>, w: Whole, labels: seq<int>) {
    var c := FirstChoice(w);
    && Join(Contents(cs)) == c.content
    && Join(Reasonings(cs)) == c.reasoning
    && CarriesFinish(cs, c.finish)
    && CarriesUsage(cs, w.usage)
    && Fragments(Pieces(cs), AsFunctions(c.toolCalls), labels)
  }

  /** The choice on the wire that counts, an empty one when there is none. */
  function FirstChoice(w: Whole): (c: WholeChoice)
    ensures if w.choices == [] then c == WholeChoice("", "", [], "", "") else c == w.choices[0]
  {
    if w.choices == [] then WholeChoice("", "", [], "", "") else w.choices[0]
  }

  /** What chat reports is what is on the wire; an answer that is not 200 is a failure with exactly that status, and any
      other failure has none. */
  lemma ChatReadsWire(http: HttpResult, decode: string -> Option<Whole>)
    ensures var r := ChatResult(http, decode);
            && (http.Answer? && http.status != 200 ==> r == Err(BadStatus(http.status)))
            && (http.Answer? && http.status == 200 && decode(http.body).None? ==> r == Err(OtherFailure))
            && (!http.Answer? ==> r == Err(OtherFailure))
            && (http.Answer? && http.status == 200 && decode(http.body).Some? ==>
                  var w := decode(http.body).value;
                  var c := FirstChoice(w);
                  && r.Ok? && r.value.content == c.content && r.value.reasoning == c.reasoning
                  && r.value.finish == c.finish && r.value.toolCalls == c.toolCalls && r.value.logprobs == c.logprobs
                  && r.value.usage.input == w.usage.prompt && r.value.usage.output == w.usage.completion
                  && r.value.usage.reasoning == if w.usage.details.Some? then w.usage.details.value else 0)
  {
  }

  // ----- The proof, one part at a time -----

  lemma TextEmpty()
    ensures Text([]) == "" && Thoughts([]) == "" && Join([]) == "" && Deltas([]) == []
  {
  }

  lemma TextSnoc(a: seq<Delta>, d: Delta)
    ensures Text(a + [d]) == Text(a) + (if d.Content? then d.text else "")
    ensures Thoughts(a + [d]) == Thoughts(a) + (if d.Reasoning? then d.thought else "")
  {
    assert (a + [d])[..|a|] == a;
  }

  lemma {:induction false} TextConcat(a: seq<Delta>, b: seq<Delta>)
    ensures Text(a + b) == Text(a) + Text(b) && Thoughts(a + b) == Thoughts(a) + Thoughts(b)
  {
    hide Text, Thoughts;
    if b == [] {
      assert a + b == a;
      TextEmpty();
    } else {
      var n := |b| - 1;
      TextConcat(a, b[..n]);
      TextSnoc(b[..n], b[n]);
      TextSnoc(a + b[..n], b[n]);
      assert b == b[..n] + [b[n]];
      assert a + b == a + b[..n] + [b[n]];
    }
  }

  lemma ChunkText(c: Chunk)
    ensures Text(ChunkDeltas(c)) == ContentOf(c) && Thoughts(ChunkDeltas(c)) == ReasoningOf(c)
  {
    if c.choices != [] {
      var choice := c.choices[0];
      var content := if choice.content != "" then [Content(choice.content, choice.logprobs)] else [];
      var thought := if choice.reasoning != "" then [Reasoning(choice.reasoning)] else [];
      assert Text(content) == choice.content && Thoughts(content) == "";
      assert Text(thought) == "" && Thoughts(thought) == choice.reasoning;
      TextConcat(content, thought);
    }
  }

  lemma JoinSnoc(parts: seq<string>, s: string)
    ensures Join(parts + [s]) == Join(parts) + s
  {
    assert (parts + [s])[..|parts|] == parts;
  }

  /** Dropping the empty deltas loses no text. */
  lemma {:induction false} DeltasKeepText(cs: seq<Chunk>)
    ensures Text(Deltas(cs)) == Join(Contents(cs))
    ensures Thoughts(Deltas(cs)) == Join(Reasonings(cs))
  {
    hide Text, Thoughts, Deltas, Join;
    if cs == [] {
      TextEmpty();
      assert Contents(cs) == [] && Reasonings(cs) == [];
    } else {
      var n := |cs| - 1;
      var init, c := cs[..n], cs[n];
      assert cs == init + [c];
      DeltasKeepText(init);
      ChunkAdds(init, c);
      ChunkText(c);
      TextConcat(Deltas(init), ChunkDeltas(c));
      assert Contents(cs) == Contents(init) + [ContentOf(c)];
      assert Reasonings(cs) == Reasonings(init) + [ReasoningOf(c)];
      JoinSnoc(Contents(init), ContentOf(c));
      JoinSnoc(Reasonings(init), ReasoningOf(c));
    }
  }

  /** Nothing at all is sent on exactly when no chunk has content or reasoning in its first choice. */
  lemma {:induction false} NoDeltas(cs: seq<Chunk>)
    ensures Deltas(cs) == [] <==> forall q :: 0 <= q < |cs| ==> ContentOf(cs[q]) == "" && ReasoningOf(cs[q]) == ""
  {
    hide ChunkDeltas, ContentOf, ReasoningOf;
    if cs != [] {
      var n := |cs| - 1;
      NoDeltas(cs[..n]);
      NothingInChunk(cs[n]);
      assert forall q :: 0 <= q < n ==> cs[..n][q] == cs[q];
    }
  }

  lemma NothingInChunk(c: Chunk)
    ensures ChunkDeltas(c) == [] <==> ContentOf(c) == "" && ReasoningOf(c) == ""
  {
  }

  /** No delta that is sent on is empty. */
  lemma {:induction false} NoEmptyDelta(cs: seq<Chunk>)
    ensures forall d :: d in Deltas(cs) ==> if d.Content? then d.text != "" else d.thought != ""
  {
    if cs != [] {
      NoEmptyDelta(cs[..|cs| - 1]);
    }
  }

  lemma {:induction false} FinishAgrees(cs: seq<Chunk>, finish: string)
    requires forall q :: 0 <= q < |cs| ==> FinishOf(cs[q]) == "" || FinishOf(cs[q]) == finish
    ensures Finish(cs) == if exists q :: 0 <= q < |cs| && FinishOf(cs[q]) == finish then finish else ""
  {
    if cs != [] {
      var n := |cs| - 1;
      FinishAgrees(cs[..n], finish);
      assert forall q :: 0 <= q < n ==> cs[..n][q] == cs[q];
    }
  }

  lemma {:induction false} NoDetailsNoReasoning(cs: seq<Chunk>)
    requires NoDetails(cs)
    ensures LastUsage(cs).reasoning == 0
  {
    if cs != [] {
      NoDetailsNoReasoning(cs[..|cs| - 1]);
    }
  }

  /** The usage stream reports is the last chunk's, except that reasoning tokens of an earlier chunk stay when the last
      one has no details: it agrees with chat's reading of the last chunk exactly when no such leftover is there. */
  lemma {:induction false} UsageExactly(cs: seq<Chunk>, p: nat, u: WireUsage)
    requires LastUsageAt(cs, p, u)
    ensures LastUsage(cs).input == u.prompt && LastUsage(cs).output == u.completion
    ensures u.details.Some? ==> LastUsage(cs).reasoning == u.details.value
    ensures LastUsage(cs) == UsageFrom(u) <==> u.details.Some? || LastUsage(cs[..p]).reasoning == 0
  {
    var n := |cs| - 1;
    if p < n {
      assert cs[..n][..p] == cs[..p];
      UsageExactly(cs[..n], p, u);
    }
  }

  /** However a completion is split into chunks, stream delivers what is on the wire of the whole one and what chat
      returns for it: the same text, the same reasoning, usage and finish reason, and the same tool calls in order of
      first appearance. */
  lemma StreamRefinesChat(
      scan: Scan, decode: string -> Option<Chunk>,
      body: string, decodeWhole: string -> Option<Whole>, w: Whole, labels: seq<int>)
    requires decodeWhole(body) == Some(w)
    requires Splits(Decoded(Payloads(scan.lines), decode), w, labels)
    ensures var r := StreamOf(scan, decode);
            var order := Order(Pieces(Decoded(Payloads(scan.lines), decode)));
            var chat := ChatResult(Answer(200, body), decodeWhole);
            var c := FirstChoice(w);
            && chat.Ok?
            && Text(r.deltas) == chat.value.content == c.content
            && Thoughts(r.deltas) == chat.value.reasoning == c.reasoning
            && r.usage == chat.value.usage && r.finish == chat.value.finish == c.finish
            && r.usage.input == w.usage.prompt && r.usage.output == w.usage.completion
            && chat.value.toolCalls == c.toolCalls
            && |r.toolCalls| == |order| == |c.toolCalls| == |labels| && NoDuplicates(order)
            && (forall k, i :: 0 <= k < |order| && 0 <= i < |order| && order[k] == labels[i] ==>
                  r.toolCalls[k] == AsFunctions(c.toolCalls)[i])
            && (forall k :: 0 <= k < |order| ==> order[k] in labels)
            && (order == labels ==> r.toolCalls == AsFunctions(c.toolCalls))
  {
    hide Deltas, LastUsage, Finish, Pieces, CallsOf, Decoded, Payloads, Splits, Text, Thoughts;
    var cs := Decoded(Payloads(scan.lines), decode);
    SplitsGiveBack(cs, w, labels);
    ChatReadsWire(Answer(200, body), decodeWhole);
  }

  lemma SplitsGiveBack(cs: seq<Chunk>, w: Whole, labels: seq<int>)
    requires Splits(cs, w, labels)
    ensures var c, order, calls := FirstChoice(w), Order(Pieces(cs)), AsFunctions(FirstChoice(w).toolCalls);
            && Text(Deltas(cs)) == c.content && Thoughts(Deltas(cs)) == c.reasoning
            && LastUsage(cs) == UsageFrom(w.usage) && Finish(cs) == c.finish
            && LastUsage(cs).input == w.usage.prompt && LastUsage(cs).output == w.usage.completion
            && |CallsOf(Pieces(cs))| == |order| == |calls| == |labels| && NoDuplicates(order)
            && (forall k, i :: 0 <= k < |order| && 0 <= i < |order| && order[k] == labels[i] ==>
                  CallsOf(Pieces(cs))[k] == calls[i])
            && (forall k :: 0 <= k < |order| ==> order[k] in labels)
            && (order == labels ==> CallsOf(Pieces(cs)) == calls)
  {
    hide Deltas, LastUsage, Finish, Pieces, CallsOf, Text, Thoughts, CarriesUsage, CarriesFinish, Fragments, Join,
      Contents, Reasonings;
    DeltasKeepText(cs);
    FinishCarried(cs, FirstChoice(w).finish);
    FragmentsGiveBack(Pieces(cs), AsFunctions(FirstChoice(w).toolCalls), labels);
    UsageAgrees(cs, w.usage);
  }

  lemma FinishCarried(cs: seq<Chunk>, finish: string)
    requires CarriesFinish(cs, finish)
    ensures Finish(cs) == finish
  {
    FinishAgrees(cs, finish);
  }

  // ----- What the last chunks decide, split or not -----

  /** The finish reason is the one of the last chunk that has any. */
  lemma {:induction false} FinishIsLast(cs: seq<Chunk>, p: nat)
    requires p < |cs| && FinishOf(cs[p]) != "" && forall q :: p < q < |cs| ==> FinishOf(cs[q]) == ""
    ensures Finish(cs) == FinishOf(cs[p])
  {
    var n := |cs| - 1;
    if p < n {
      FinishIsLast(cs[..n], p);
    }
  }

  /** The reasoning tokens are those of the last usage that has details. */
  lemma {:induction false} ReasoningIsLast(cs: seq<Chunk>, p: nat)
    requires p < |cs| && cs[p].usage.Some? && cs[p].usage.value.details.Some?
    requires forall q :: p < q < |cs| ==> cs[q].usage.None? || cs[q].usage.value.details.None?
    ensures LastUsage(cs).reasoning == cs[p].usage.value.details.value
  {
    var n := |cs| - 1;
    if p < n {
      ReasoningIsLast(cs[..n], p);
    }
  }

  /** A chunk with content and reasoning sends the content first. */
  lemma ContentFirst(cs: seq<Chunk>, c: Chunk)
    requires ContentOf(c) != "" && ReasoningOf(c) != ""
    ensures Deltas(cs + [c]) == Deltas(cs) + [Content(ContentOf(c), c.choices[0].logprobs), Reasoning(ReasoningOf(c))]
  {
    ChunkAdds(cs, c);
  }

  // ----- What stays with the text -----

  /** The content of the first choices that have any, each with its logprobs. */
  function ContentsSent(cs: seq<Chunk>): seq<(string, string)> {
    if cs == [] then []
    else
      var c := cs[|cs| - 1];
      ContentsSent(cs[..|cs| - 1])
      + (if c.choices != [] && c.choices[0].content != "" then [(c.choices[0].content, c.choices[0].logprobs)] else [])
  }

  function ContentsOf(ds: seq<Delta>): seq<(string, string)> {
    if ds == [] then []
    else
      var d := ds[|ds| - 1];
      ContentsOf(ds[..|ds| - 1]) + (if d.Content? then [(d.text, d.logprobs)] else [])
  }

  lemma {:induction false} ContentsConcat(a: seq<Delta>, b: seq<Delta>)
    ensures ContentsOf(a + b) == ContentsOf(a) + ContentsOf(b)
  {
    if b == [] {
      assert a + b == a;
    } else {
      var n := |b| - 1;
      assert (a + b)[..|a| + n] == a + b[..n];
      ContentsConcat(a, b[..n]);
    }
  }

  /** Every content keeps its own logprobs, in order. */
  lemma {:induction false} LogprobsKept(cs: seq<Chunk>)
    ensures ContentsOf(Deltas(cs)) == ContentsSent(cs)
  {
    if cs == [] {
      assert Deltas(cs) == [];
    } else {
      var n := |cs| - 1;
      LogprobsKept(cs[..n]);
      ContentsConcat(Deltas(cs[..n]), ChunkDeltas(cs[n]));
      ChunkContents(cs[n]);
    }
  }

  lemma ChunkContents(c: Chunk)
    ensures ContentsOf(ChunkDeltas(c))
         == if c.choices == [] || c.choices[0].content == "" then []
            else [(c.choices[0].content, c.choices[0].logprobs)]
  {
    if c.choices != [] {
      var choice := c.choices[0];
      var content := if choice.content != "" then [Content(choice.content, choice.logprobs)] else [];
      var thought := if choice.reasoning != "" then [Reasoning(choice.reasoning)] else [];
      assert ContentsOf(thought) == [];
      ContentsConcat(content, thought);
    }
  }

  lemma UsageAgrees(cs: seq<Chunk>, u: WireUsage)
    requires CarriesUsage(cs, u)
    ensures LastUsage(cs) == UsageFrom(u)
    ensures LastUsage(cs).input == u.prompt && LastUsage(cs).output == u.completion
  {
    if p: nat :| LastUsageAt(cs, p, u) && (u.details.None? ==> NoDetails(cs[..p])) {
      UsageExactly(cs, p, u);
      if u.details.None? {
        NoDetailsNoReasoning(cs[..p]);
      }
    } else {
      NoUsage(cs);
    }
  }

  lemma {:induction false} NoUsage(cs: seq<Chunk>)
    requires forall q :: 0 <= q < |cs| ==> cs[q].usage.None?
    ensures LastUsage(cs) == Usage(0, 0, 0)
  {
    if cs != [] {
      NoUsage(cs[..|cs| - 1]);
    }
  }
}
