/** How stream (backend.go) puts tool calls together from the fragments of a streamed completion. */
module ToolCalls {
  import opened Chat

  /** One entry of delta.tool_calls. */
  datatype Fragment = Fragment(index: int, id: string, name: string, arguments: string)

  // ----- What the fragments say, index by index -----

  /** The fragments of one index, in order. */
  function Mine(fs: seq<Fragment>, index: int): seq<Fragment> {
    if fs == [] then []
    else
      var n := |fs| - 1;
      Mine(fs[..n], index) + (if fs[n].index == index then [fs[n]] else [])
  }

  function Arguments(fs: seq<Fragment>): string {
    if fs == [] then "" else Arguments(fs[..|fs| - 1]) + fs[|fs| - 1].arguments
  }

  /** The last non-empty id, "" when there is none. */
  function LastId(fs: seq<Fragment>): string {
    if fs == [] then ""
    else if fs[|fs| - 1].id != "" then fs[|fs| - 1].id
    else LastId(fs[..|fs| - 1])
  }

  function LastName(fs: seq<Fragment>): string {
    if fs == [] then ""
    else if fs[|fs| - 1].name != "" then fs[|fs| - 1].name
    else LastName(fs[..|fs| - 1])
  }

  /** The call that the fragments of one index make up. */
  function CallOf(fs: seq<Fragment>, index: int): ToolCall {
    var mine := Mine(fs, index);
    ToolCall(LastId(mine), "function", LastName(mine), Arguments(mine))
  }

  /** The distinct indices, each where it first appears. */
  function Order(fs: seq<Fragment>): seq<int> {
    if fs == [] then []
    else
      var n := |fs| - 1;
      Order(fs[..n]) + (if fs[n].index in Order(fs[..n]) then [] else [fs[n].index])
  }

  function CallsOf(fs: seq<Fragment>): seq<ToolCall> {
    var order := Order(fs);
    seq(|order|, k requires 0 <= k < |order| => CallOf(fs, order[k]))
  }

  // ----- The accumulator -----

  /** The map and the order list stream keeps while it reads. */
  class Accumulator {
    var toolCalls: map<int, ToolCall>
    var toolCallOrder: seq<int>

    /** What the accumulator holds after the fragments fs. */
    ghost predicate Holds(fs: seq<Fragment>)
      reads this
    {
      && toolCallOrder == Order(fs)
      && (forall i :: i in toolCalls <==> i in toolCallOrder)
      && (forall i :: i in toolCalls ==> toolCalls[i] == CallOf(fs, i))
    }

    constructor ()
      ensures Holds([])
    {
      toolCalls, toolCallOrder := map[], [];
    }

    method Add(tc: Fragment, ghost fs: seq<Fragment>)
      requires Holds(fs)
      modifies this
      ensures Holds(fs + [tc])
    {
      hide Order, CallOf, Mine;
      var index := tc.index;
      if index !in toolCalls {
        toolCalls := toolCalls[index := ToolCall("", "function", "", "")];
        toolCallOrder := toolCallOrder + [index];
        NothingYet(fs, index);
      }
      var call := toolCalls[index];
      if tc.id != "" {
        call := call.(id := tc.id);
      }
      if tc.name != "" {
        call := call.(name := tc.name);
      }
      call := call.(arguments := call.arguments + tc.arguments);
      toolCalls := toolCalls[index := call];
      OrderSnoc(fs, tc);
      MineSnoc(fs, tc);
    }

    /** The finished calls, in order of first appearance. */
    method Collect(ghost fs: seq<Fragment>) returns (collected: seq<ToolCall>)
      requires Holds(fs)
      ensures collected == CallsOf(fs)
    {
      hide Order, CallOf;
      collected := [];
      for k := 0 to |toolCallOrder|
        invariant collected == CallsOf(fs)[..k]
      {
        assert toolCallOrder[k] in toolCalls;
        collected := collected + [toolCalls[toolCallOrder[k]]];
      }
    }
  }

  lemma MineSnoc(fs: seq<Fragment>, tc: Fragment)
    ensures CallOf(fs + [tc], tc.index)
         == (var c := CallOf(fs, tc.index);
             ToolCall(if tc.id != "" then tc.id else c.id, "function", if tc.name != "" then tc.name else c.name,
                      c.arguments + tc.arguments))
    ensures CallOf(fs, tc.index).kind == "function"
    ensures forall i :: i != tc.index ==> CallOf(fs + [tc], i) == CallOf(fs, i)
  {
    assert (fs + [tc])[..|fs|] == fs;
    var mine := Mine(fs, tc.index);
    assert Mine(fs + [tc], tc.index) == mine + [tc];
    assert (mine + [tc])[..|mine|] == mine;
    forall i | i != tc.index ensures Mine(fs + [tc], i) == Mine(fs, i) { }
  }

  lemma {:induction false} NothingMine(fs: seq<Fragment>, index: int)
    requires index !in Order(fs)
    ensures Mine(fs, index) == []
  {
    if fs != [] {
      NothingMine(fs[..|fs| - 1], index);
    }
  }

  lemma NothingYet(fs: seq<Fragment>, index: int)
    requires index !in Order(fs)
    ensures CallOf(fs, index) == ToolCall("", "function", "", "")
  {
    NothingMine(fs, index);
  }

  lemma OrderSnoc(fs: seq<Fragment>, tc: Fragment)
    ensures Order(fs + [tc]) == Order(fs) + (if tc.index in Order(fs) then [] else [tc.index])
  {
    assert (fs + [tc])[..|fs|] == fs;
  }

  // ----- One call per index, in order of first appearance -----

  ghost predicate FirstAt(fs: seq<Fragment>, index: int, p: nat) {
    p < |fs| && fs[p].index == index && forall q :: 0 <= q < p ==> fs[q].index != index
  }

  ghost predicate NoDuplicates(xs: seq<int>) {
    forall i, j :: 0 <= i < j < |xs| ==> xs[i] != xs[j]
  }

  /** Each index that occurs has exactly one call, and calls are ordered by where their index first occurs. */
  lemma {:induction false} OrderIsFirstAppearance(fs: seq<Fragment>)
    ensures NoDuplicates(Order(fs))
    ensures forall i :: i in Order(fs) <==> exists p: nat :: FirstAt(fs, i, p)
    ensures forall j, k, p: nat, q: nat ::
              0 <= j < k < |Order(fs)| && FirstAt(fs, Order(fs)[j], p) && FirstAt(fs, Order(fs)[k], q) ==> p < q
  {
    if fs != [] {
      var n := |fs| - 1;
      var init := fs[..n];
      OrderIsFirstAppearance(init);
      forall i, p: nat
        ensures FirstAt(fs, i, p) <==> FirstAt(init, i, p) || (p == n && i == fs[n].index && i !in Order(init))
      {
        FirstAtExtends(init, fs[n], i, p);
        assert init + [fs[n]] == fs;
      }
      forall i ensures i in Order(fs) <==> exists p: nat :: FirstAt(fs, i, p) {
        if i in Order(init) {
          var p: nat :| FirstAt(init, i, p);
          assert FirstAt(fs, i, p);
        } else if i == fs[n].index {
          assert FirstAt(fs, i, n);
        }
      }
    }
  }

  lemma FirstAtExtends(init: seq<Fragment>, f: Fragment, i: int, p: nat)
    requires i in Order(init) <==> exists q: nat :: FirstAt(init, i, q)
    ensures FirstAt(init + [f], i, p) <==> FirstAt(init, i, p) || (p == |init| && i == f.index && i !in Order(init))
  {
    hide Order;
    var fs := init + [f];
    assert forall q :: 0 <= q < |init| ==> fs[q] == init[q];
    if i in Order(init) {
      var q: nat :| FirstAt(init, i, q);
      assert fs[q].index == i;
    } else {
      forall q | 0 <= q < |init| ensures init[q].index != i {
        if init[q].index == i {
          FirstExists(init, i, q);
        }
      }
    }
  }

  lemma {:induction false} FirstExists(fs: seq<Fragment>, i: int, q: nat)
    requires q < |fs| && fs[q].index == i
    ensures exists p: nat :: FirstAt(fs, i, p)
    decreases q
  {
    if r: nat :| r < q && fs[r].index == i {
      FirstExists(fs, i, r);
    } else {
      assert FirstAt(fs, i, q);
    }
  }

  // ----- Fragmenting and putting together again -----

  /** fs is one call cut into pieces: arguments in order, id and name on at least one piece and no other on any. */
  ghost predicate Cuts(fs: seq<Fragment>, c: ToolCall) {
    && fs != [] && c.kind == "function"
    && Arguments(fs) == c.arguments
    && (forall f :: f in fs ==> f.id == "" || f.id == c.id) && (c.id == "" || exists f :: f in fs && f.id == c.id)
    && (forall f :: f in fs ==> f.name == "" || f.name == c.name)
    && (c.name == "" || exists f :: f in fs && f.name == c.name)
  }

  /** The id of a call is the last one that is not empty, and so is its name. */
  lemma {:induction false} LastIsLast(fs: seq<Fragment>, p: nat)
    requires p < |fs|
    ensures fs[p].id != "" && (forall q :: p < q < |fs| ==> fs[q].id == "") ==> LastId(fs) == fs[p].id
    ensures fs[p].name != "" && (forall q :: p < q < |fs| ==> fs[q].name == "") ==> LastName(fs) == fs[p].name
  {
    var n := |fs| - 1;
    if p < n {
      LastIsLast(fs[..n], p);
    }
  }

  /** fs is an interleaving of pieces of calls, call i under index labels[i]; any distinct integers will do. */
  ghost predicate Fragments(fs: seq<Fragment>, calls: seq<ToolCall>, labels: seq<int>) {
    && |labels| == |calls| && NoDuplicates(labels)
    && (forall f :: f in fs ==> f.index in labels)
    && (forall i :: 0 <= i < |calls| ==> Cuts(Mine(fs, labels[i]), calls[i]))
  }

  lemma {:induction false} LastOfPieces(fs: seq<Fragment>, c: ToolCall)
    requires forall f :: f in fs ==> (f.id == "" || f.id == c.id) && (f.name == "" || f.name == c.name)
    ensures LastId(fs) == if exists f :: f in fs && f.id == c.id then c.id else ""
    ensures LastName(fs) == if exists f :: f in fs && f.name == c.name then c.name else ""
  {
    if fs != [] {
      var n := |fs| - 1;
      LastOfPieces(fs[..n], c);
      assert fs == fs[..n] + [fs[n]];
      assert fs[n] in fs;
    }
  }

  lemma {:induction false} MineInOrder(fs: seq<Fragment>, i: int)
    requires Mine(fs, i) != []
    ensures i in Order(fs)
  {
    var n := |fs| - 1;
    if fs[n].index != i {
      MineInOrder(fs[..n], i);
    }
  }

  lemma {:induction false} OrderAmong(fs: seq<Fragment>, labels: seq<int>)
    requires forall f :: f in fs ==> f.index in labels
    ensures forall i :: i in Order(fs) ==> i in labels
  {
    if fs != [] {
      assert fs[|fs| - 1] in fs;
      OrderAmong(fs[..|fs| - 1], labels);
    }
  }

  lemma {:induction false} SameCount(xs: seq<int>, ys: seq<int>)
    requires NoDuplicates(xs) && NoDuplicates(ys) && forall i :: i in xs <==> i in ys
    ensures |xs| == |ys|
    decreases |ys|
  {
    if ys == [] {
      assert |xs| > 0 ==> var x := xs[0]; x in xs && x in ys;
    } else {
      var y, init := ys[|ys| - 1], ys[..|ys| - 1];
      assert y in ys;
      var k :| 0 <= k < |xs| && xs[k] == y;
      var rest := xs[..k] + xs[k + 1..];
      forall i ensures i in rest <==> i in init {
        assert i in ys <==> i in init || i == y;
        if i in xs && i != y {
          var j :| 0 <= j < |xs| && xs[j] == i;
          assert rest[if j < k then j else j - 1] == i;
        }
      }
      SameCount(rest, init);
    }
  }

  /** Streaming any interleaving of the pieces of a list of calls gives those calls back, each exactly once, in the
      order in which their first pieces arrive; in the original order when the first pieces arrive in that order. */
  lemma FragmentsGiveBack(fs: seq<Fragment>, calls: seq<ToolCall>, labels: seq<int>)
    requires Fragments(fs, calls, labels)
    ensures |CallsOf(fs)| == |Order(fs)| == |calls| == |labels| && NoDuplicates(Order(fs))
    ensures forall k :: 0 <= k < |calls| ==> Order(fs)[k] in labels
    ensures forall k, i :: 0 <= k < |calls| && 0 <= i < |calls| && labels[i] == Order(fs)[k] ==>
              CallsOf(fs)[k] == calls[i]
    ensures Order(fs) == labels ==> CallsOf(fs) == calls
  {
    hide Order, Mine, CallOf;
    OrderIsFirstAppearance(fs);
    OrderAmong(fs, labels);
    forall i | 0 <= i < |calls| ensures labels[i] in Order(fs) && CallOf(fs, labels[i]) == calls[i] {
      MineInOrder(fs, labels[i]);
      PiecesMake(fs, labels[i], calls[i]);
    }
    forall i ensures i in Order(fs) <==> i in labels {
    }
    SameCount(Order(fs), labels);
  }

  lemma PiecesMake(fs: seq<Fragment>, index: int, c: ToolCall)
    requires Cuts(Mine(fs, index), c)
    ensures CallOf(fs, index) == c
  {
    LastOfPieces(Mine(fs, index), c);
  }
}
