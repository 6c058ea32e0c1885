/** `SimpleAccumulator`: the parser's `start`/`leaf`/`done` calls, replayed
    on a stack of open frames, build the syntax tree. */
module Accumulator {
  import opened Wrappers
  import opened Tokens
  import opened Diagnostics
  import opened Ast

  /** One accumulator call. */
  datatype Event =
    | StartEvent(nodeType: TreeNodeType)
    | LeafEvent(kind: TokenKind, start: int, end: int, diagnostics: seq<Diagnostic>)
    | DoneEvent(diagnostics: seq<Diagnostic>)

  /** An open node: the `parents` entry and its `children` list. */
  datatype Frame = Frame(nodeType: TreeNodeType, children: seq<AstNode>)

  /** The two deques, top last, and the `result` field (null is `None`). */
  datatype Acc = Acc(frames: seq<Frame>, result: Option<AstNode>)

  /** A fresh accumulator. */
  const Fresh: Acc := Acc([], None)

  /** `start`: push the type and a fresh empty child list. */
  function Start(a: Acc, t: TreeNodeType): (r: Acc)
    ensures |r.frames| == |a.frames| + 1
    ensures r.frames[..|a.frames|] == a.frames
    ensures r.frames[|a.frames|] == Frame(t, [])
    ensures r.result == a.result
  {
    a.(frames := a.frames + [Frame(t, [])])
  }

  /** `node` appended to the child list of the top frame. */
  function AddChild(a: Acc, node: AstNode): (r: Acc)
    requires |a.frames| > 0
    ensures |r.frames| == |a.frames|
    ensures r.frames[..|a.frames| - 1] == a.frames[..|a.frames| - 1]
    ensures Last(r.frames).nodeType == Last(a.frames).nodeType
    ensures Last(r.frames).children == Last(a.frames).children + [node]
    ensures r.result == a.result
  {
    var top := Last(a.frames);
    a.(frames := a.frames[..|a.frames| - 1] + [top.(children := top.children + [node])])
  }

  function Last<T>(s: seq<T>): T
    requires |s| > 0
  {
    s[|s| - 1]
  }

  /** `leaf`: a `LeafNode` appended to the top frame; with no open frame,
      `getCurrentChildren` throws. */
  function Leaf(a: Acc, kind: TokenKind, start: int, end: int, ds: seq<Diagnostic>): (r: Outcome<Acc>)
    ensures r.Failure? <==> |a.frames| == 0
    ensures r.Failure? ==> r.fault == IllegalState("currentChildren is null")
    ensures r.Success? ==> r.value == AddChild(a, LeafNode(ds, kind, start, end))
  {
    if |a.frames| == 0 then Failure(IllegalState("currentChildren is null"))
    else Success(AddChild(a, LeafNode(ds, kind, start, end)))
  }

  /** `done`: pop the top frame into a `TreeNode` carrying exactly `ds`; it
      becomes the result when no frame is left, and the new top frame's
      last child otherwise. Popping an empty deque throws. */
  function Done(a: Acc, ds: seq<Diagnostic>): (r: Outcome<Acc>)
    ensures r.Failure? <==> |a.frames| == 0
    ensures r.Failure? ==> r.fault == NoSuchElement
    ensures |a.frames| == 1 ==>
      r == Success(Acc([], Some(TreeNode(ds, a.frames[0].nodeType, a.frames[0].children))))
    ensures |a.frames| > 1 ==>
      var n := |a.frames|;
      && r.Success?
      && |r.value.frames| == n - 1
      && r.value.frames[..n - 2] == a.frames[..n - 2]
      && Last(r.value.frames).nodeType == a.frames[n - 2].nodeType
      && Last(r.value.frames).children
         == a.frames[n - 2].children + [TreeNode(ds, a.frames[n - 1].nodeType, a.frames[n - 1].children)]
      && r.value.result == a.result
  {
    if |a.frames| == 0 then Failure(NoSuchElement)
    else
      var top := Last(a.frames);
      var node := TreeNode(ds, top.nodeType, top.children);
      var rest := a.frames[..|a.frames| - 1];
      if |rest| == 0 then Success(Acc([], Some(node)))
      else Success(AddChild(Acc(rest, a.result), node))
  }

  /** `getResult`: throws until an outermost `done` has happened. */
  function GetResult(a: Acc): (r: Outcome<AstNode>)
    ensures r.Success? <==> a.result.Some?
    ensures r.Success? ==> r.value == a.result.value
    ensures r.Failure? ==> r.fault == IllegalState("not done accumulating AST yet")
  {
    if a.result.None? then Failure(IllegalState("not done accumulating AST yet"))
    else Success(a.result.value)
  }

  /** One call. */
  function Apply(a: Acc, e: Event): Outcome<Acc>
  {
    match e
    case StartEvent(t) => Success(Start(a, t))
    case LeafEvent(k, s, en, ds) => Leaf(a, k, s, en, ds)
    case DoneEvent(ds) => Done(a, ds)
  }

  /** A sequence of calls; the first exception ends the run. */
  function Run(a: Acc, es: seq<Event>): Outcome<Acc>
    decreases |es|
  {
    if |es| == 0 then Success(a)
    else
      match Apply(a, es[0])
      case Failure(f) => Failure(f)
      case Success(b) => Run(b, es[1..])
  }

  /** The calls a producer makes for a subtree: `start`, the children's
      calls in order, `done` with the node's diagnostics; a leaf is one
      `leaf` call. */
  function EventsOf(n: AstNode): seq<Event>
    decreases n
  {
    match n
    case LeafNode(ds, k, s, e) => [LeafEvent(k, s, e, ds)]
    case TreeNode(ds, t, cs) => [StartEvent(t)] + EventsOfSeq(cs) + [DoneEvent(ds)]
  }

  function EventsOfSeq(cs: seq<AstNode>): seq<Event>
    decreases cs
  {
    if |cs| == 0 then [] else EventsOf(cs[0]) + EventsOfSeq(cs[1..])
  }

  /** The calls of two child lists are the calls of each, in order. */
  lemma {:induction false} EventsOfSeqAppend(xs: seq<AstNode>, ys: seq<AstNode>)
    ensures EventsOfSeq(xs + ys) == EventsOfSeq(xs) + EventsOfSeq(ys)
    decreases |xs|
  {
    if |xs| == 0 {
      assert xs + ys == ys;
    } else {
      assert (xs + ys)[0] == xs[0];
      assert (xs + ys)[1..] == xs[1..] + ys;
      EventsOfSeqAppend(xs[1..], ys);
    }
  }

  /** Running two batches is running the first and then the second. */
  lemma {:induction false} RunAppend(a: Acc, xs: seq<Event>, ys: seq<Event>)
    ensures Run(a, xs + ys) ==
      match Run(a, xs)
      case Failure(f) => Failure(f)
      case Success(b) => Run(b, ys)
    decreases |xs|
  {
    if |xs| == 0 {
      assert xs + ys == ys;
    } else {
      assert (xs + ys)[0] == xs[0];
      assert (xs + ys)[1..] == xs[1..] + ys;
      match Apply(a, xs[0])
      case Failure(f) =>
      case Success(b) => RunAppend(b, xs[1..], ys);
    }
  }

  /** With a frame open, replaying a subtree's calls appends exactly that
      subtree to the open frame and leaves the frames below it alone. */
  lemma {:induction false} RunEventsOf(a: Acc, n: AstNode)
    requires |a.frames| > 0
    ensures Run(a, EventsOf(n)) == Success(AddChild(a, n))
    decreases n, 1
  {
    match n
    case LeafNode(ds, k, s, e) =>
    case TreeNode(ds, t, cs) =>
      RunOpenChildrenDone(a, t, cs, ds);
  }

  /** Replaying a child list's calls appends those children in order. */
  lemma {:induction false} RunEventsOfSeq(a: Acc, cs: seq<AstNode>)
    requires |a.frames| > 0
    ensures Run(a, EventsOfSeq(cs)) ==
      Success(a.(frames := a.frames[..|a.frames| - 1]
                 + [Last(a.frames).(children := Last(a.frames).children + cs)]))
    decreases cs, 0
  {
    var top := Last(a.frames);
    if |cs| == 0 {
      assert top.children + cs == top.children;
      assert a.frames[..|a.frames| - 1] + [top] == a.frames;
    } else {
      RunAppend(a, EventsOf(cs[0]), EventsOfSeq(cs[1..]));
      RunEventsOf(a, cs[0]);
      var b := AddChild(a, cs[0]);
      RunEventsOfSeq(b, cs[1..]);
      assert top.children + [cs[0]] + cs[1..] == top.children + cs;
    }
  }

  /** Round trip: a fresh accumulator fed the calls of a tree rebuilds
      exactly that tree as its result and has no frame left open. */
  lemma RebuildsTree(t: TreeNodeType, ds: seq<Diagnostic>, cs: seq<AstNode>)
    ensures Run(Fresh, EventsOf(TreeNode(ds, t, cs))) == Success(Acc([], Some(TreeNode(ds, t, cs))))
    ensures GetResult(Run(Fresh, EventsOf(TreeNode(ds, t, cs))).value) == Success(TreeNode(ds, t, cs))
  {
    RunOpenChildrenDone(Fresh, t, cs, ds);
  }

  /** The calls of one tree node, replayed on any accumulator: `start`
      opens a frame, the children fill it, `done` closes it. */
  lemma {:induction false} RunOpenChildrenDone(a: Acc, t: TreeNodeType, cs: seq<AstNode>, ds: seq<Diagnostic>)
    ensures Run(a, EventsOf(TreeNode(ds, t, cs))) ==
      if |a.frames| == 0 then Success(Acc([], Some(TreeNode(ds, t, cs))))
      else Success(AddChild(a, TreeNode(ds, t, cs)))
    decreases cs, 2
  {
    var b := Start(a, t);
    assert Run(a, [StartEvent(t)]) == Success(b);
    RunAppend(a, [StartEvent(t)], EventsOfSeq(cs) + [DoneEvent(ds)]);
    assert [StartEvent(t)] + EventsOfSeq(cs) + [DoneEvent(ds)]
        == [StartEvent(t)] + (EventsOfSeq(cs) + [DoneEvent(ds)]);
    RunAppend(b, EventsOfSeq(cs), [DoneEvent(ds)]);
    RunEventsOfSeq(b, cs);
    assert b.frames[..|b.frames| - 1] == a.frames;
    assert [] + cs == cs;
    var c := Acc(a.frames + [Frame(t, cs)], a.result);
    assert Run(b, EventsOfSeq(cs)) == Success(c);
    assert c.frames[..|c.frames| - 1] == a.frames;
    assert Run(c, [DoneEvent(ds)]) == Done(c, ds);
  }

  /** Before the outermost `done` there is no result: after the root's
      `start` and all its children's calls, `getResult` still throws. */
  lemma NoResultBeforeOutermostDone(t: TreeNodeType, cs: seq<AstNode>)
    ensures Run(Fresh, [StartEvent(t)] + EventsOfSeq(cs)).Success?
    ensures GetResult(Run(Fresh, [StartEvent(t)] + EventsOfSeq(cs)).value).Failure?
  {
    RunAppend(Fresh, [StartEvent(t)], EventsOfSeq(cs));
    RunEventsOfSeq(Start(Fresh, t), cs);
  }

  /** A leaf call, or a `done`, with no open frame throws. */
  lemma UnopenedCallsFail(kind: TokenKind, start: int, end: int, ds: seq<Diagnostic>)
    ensures Run(Fresh, [LeafEvent(kind, start, end, ds)]) == Failure(IllegalState("currentChildren is null"))
    ensures Run(Fresh, [DoneEvent(ds)]) == Failure(NoSuchElement)
  {
  }
}
