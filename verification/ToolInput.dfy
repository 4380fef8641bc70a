/** The iterative check that a tool's input is JSON (packages/client/src/agent_runtime_client/wire.py:114-174):
    a walk over a finite object graph, cyclic or shared, that keeps the open containers of its path
    and no set of visited ones. */
module ToolInput {

  const MAX_TOOL_INPUT_DEPTH: nat := 128

  type Ref = nat

  type Points = seq<int>

  datatype Key = TextKey(points: Points) | OtherKey

  datatype Child =
    | Container(ref: Ref)
    | NoneValue | BoolValue(b: bool) | IntValue(n: int) | FloatValue(finite: bool) | TextValue(points: Points)
    | OtherValue

  /** A dict with its keys and values, or a list, which has no keys. */
  datatype Node = Node(keys: seq<Key>, children: seq<Child>)

  type Graph = map<Ref, Node>

  /** Every container a container holds is in the graph. */
  predicate Closed(g: Graph) {
    forall r, i :: r in g && 0 <= i < |g[r].children| && g[r].children[i].Container? ==> g[r].children[i].ref in g
  }

  predicate LoneSurrogate(point: int) {
    0xD800 <= point <= 0xDFFF
  }

  predicate Unicode(points: Points) {
    forall i :: 0 <= i < |points| ==> !LoneSurrogate(points[i])
  }

  predicate KeyFits(k: Key) {
    k.TextKey? && Unicode(k.points)
  }

  predicate ScalarFits(c: Child) {
    match c
    case NoneValue | BoolValue(_) | IntValue(_) => true
    case FloatValue(finite) => finite
    case TextValue(points) => Unicode(points)
    case Container(_) | OtherValue => false
  }

  predicate KeysFit(keys: seq<Key>) {
    forall i :: 0 <= i < |keys| ==> KeyFits(keys[i])
  }

  // ---------------------------------------------------------------- the recursive definition

  /** The container, followed without end, is a tree at most `depth` containers deep, with valid keys
      and scalars. A container that holds itself is no such tree at any depth. */
  ghost predicate Fits(g: Graph, ref: Ref, depth: nat)
    requires Closed(g) && ref in g
    decreases depth, 0
  {
    depth > 0 && KeysFit(g[ref].keys) && AllFit(g, g[ref].children, depth - 1)
  }

  ghost predicate AllFit(g: Graph, children: seq<Child>, depth: nat)
    requires Closed(g) && Inside(g, children)
    decreases depth, 2
  {
    forall i :: 0 <= i < |children| ==> ChildFits(g, children[i], depth)
  }

  ghost predicate ChildFits(g: Graph, c: Child, depth: nat)
    requires Closed(g) && (c.Container? ==> c.ref in g)
    decreases depth, 1
  {
    if c.Container? then Fits(g, c.ref, depth) else ScalarFits(c)
  }

  predicate Inside(g: Graph, children: seq<Child>) {
    forall i :: 0 <= i < |children| && children[i].Container? ==> children[i].ref in g
  }

  lemma {:induction false} DeeperStillFits(g: Graph, ref: Ref, depth: nat, deeper: nat)
    requires Closed(g) && ref in g && depth <= deeper && Fits(g, ref, depth)
    ensures Fits(g, ref, deeper)
    decreases depth
  {
    var children := g[ref].children;
    forall i | 0 <= i < |children| ensures ChildFits(g, children[i], deeper - 1) {
      assert ChildFits(g, children[i], depth - 1);
      if children[i].Container? {
        DeeperStillFits(g, children[i].ref, depth - 1, deeper - 1);
      }
    }
  }

  // ---------------------------------------------------------------- the walk

  datatype Reason = ContainsItself | TooDeep | NotAKey | NotAScalar

  datatype Verdict = Accepted | Refused(reason: Reason)

  /** An open container of the path, and the child its iterator gives next. */
  datatype Frame = Frame(ref: Ref, next: nat)

  /** The steps a walk over `children` takes when it may go `depth` containers deeper. */
  ghost function Steps(g: Graph, children: seq<Child>, depth: nat): (n: nat)
    requires Closed(g) && Inside(g, children)
    ensures n > 0
    decreases depth, |children|
  {
    if children == [] then 1
    else
      var below := if children[0].Container? && depth > 0 then Steps(g, g[children[0].ref].children, depth - 1) else 0;
      1 + below + Steps(g, children[1..], depth)
  }

  /** The depth left below the frame at `k` of the path. */
  function Below(k: nat): (depth: nat)
    requires k < MAX_TOOL_INPUT_DEPTH
  {
    MAX_TOOL_INPUT_DEPTH - 1 - k
  }

  predicate FrameInside(g: Graph, f: Frame) {
    f.ref in g && f.next <= |g[f.ref].children|
  }

  function Remaining(g: Graph, f: Frame): (children: seq<Child>)
    requires Closed(g) && FrameInside(g, f)
    ensures Inside(g, children)
  {
    g[f.ref].children[f.next..]
  }

  /** Each open container but the last one holds the next one, as the child its iterator gave last. */
  predicate Holds(g: Graph, f: Frame, ref: Ref) {
    FrameInside(g, f) && f.next > 0 && g[f.ref].children[f.next - 1] == Container(ref)
  }

  ghost predicate IsPath(g: Graph, path: seq<Frame>) {
    && Closed(g) && |path| <= MAX_TOOL_INPUT_DEPTH
    && (forall k :: 0 <= k < |path| ==> FrameInside(g, path[k]))
    && (forall k :: 0 <= k < |path| - 1 ==> Holds(g, path[k], path[k + 1].ref))
  }

  /** What is left to look at fits. */
  ghost predicate LeftFits(g: Graph, path: seq<Frame>)
    requires IsPath(g, path)
  {
    forall k :: 0 <= k < |path| ==> AllFit(g, Remaining(g, path[k]), Below(k))
  }

  ghost function StepsLeft(g: Graph, path: seq<Frame>): nat
    requires IsPath(g, path)
    decreases |path|
  {
    if path == [] then 0
    else StepsLeft(g, path[..|path| - 1]) + Steps(g, Remaining(g, path[|path| - 1]), Below(|path| - 1))
  }

  function Refs(path: seq<Frame>): set<Ref> {
    set k | 0 <= k < |path| :: path[k].ref
  }

  lemma {:induction false} HolderNeverFits(g: Graph, f: Frame, ref: Ref, depth: nat)
    requires Closed(g) && ref in g && Holds(g, f, ref)
    requires depth > 0 ==> !Fits(g, ref, depth - 1)
    ensures !Fits(g, f.ref, depth)
  {
    var children := g[f.ref].children;
    assert children[f.next - 1] == Container(ref);
    assert depth > 0 && AllFit(g, children, depth - 1) ==> ChildFits(g, children[f.next - 1], depth - 1);
  }

  /** A container that holds an open one through the path fits at no depth. */
  lemma {:induction false} CyclesNeverFit(g: Graph, path: seq<Frame>, j: nat, k: nat, depth: nat)
    requires IsPath(g, path) && j <= k < |path| && Holds(g, path[|path| - 1], path[j].ref)
    ensures !Fits(g, path[k].ref, depth)
    decreases depth, |path| - k
  {
    if depth > 0 {
      var next := if k + 1 < |path| then path[k + 1].ref else path[j].ref;
      CyclesNeverFit(g, path, j, if k + 1 < |path| then k + 1 else j, depth - 1);
      HolderNeverFits(g, path[k], next, depth);
    }
  }

  /** Nor does any container above it. */
  lemma {:induction false} AboveACycleNeverFits(g: Graph, path: seq<Frame>, j: nat, k: nat, depth: nat)
    requires IsPath(g, path) && j < |path| && k < |path| && Holds(g, path[|path| - 1], path[j].ref)
    ensures !Fits(g, path[k].ref, depth)
    decreases |path| - k
  {
    if k >= j {
      CyclesNeverFit(g, path, j, k, depth);
    } else {
      if depth > 0 {
        AboveACycleNeverFits(g, path, j, k + 1, depth - 1);
      }
      HolderNeverFits(g, path[k], path[k + 1].ref, depth);
    }
  }

  // ---------------------------------------------------------------- one step of the walk

  function Advanced(path: seq<Frame>): seq<Frame>
    requires path != []
  {
    var last := path[|path| - 1];
    path[..|path| - 1] + [Frame(last.ref, last.next + 1)]
  }

  lemma AdvancingKeepsThePath(g: Graph, path: seq<Frame>)
    requires path != [] && IsPath(g, path)
    requires path[|path| - 1].next < |g[path[|path| - 1].ref].children|
    ensures IsPath(g, Advanced(path)) && Refs(Advanced(path)) == Refs(path)
    ensures var last := path[|path| - 1];
            var child := g[last.ref].children[last.next];
            child.Container? ==> Holds(g, Advanced(path)[|path| - 1], child.ref)
  {
    var t := Advanced(path);
    assert forall k :: 0 <= k < |path| - 1 ==> t[k] == path[k];
    assert forall k :: 0 <= k < |path| ==> t[k].ref == path[k].ref;
  }

  lemma AdvancingPasses(g: Graph, path: seq<Frame>)
    requires path != [] && IsPath(g, path) && IsPath(g, Advanced(path))
    requires path[|path| - 1].next < |g[path[|path| - 1].ref].children|
    ensures var last := path[|path| - 1];
            var child := g[last.ref].children[last.next];
            LeftFits(g, path) <==> ChildFits(g, child, Below(|path| - 1)) && LeftFits(g, Advanced(path))
  {
    var last := path[|path| - 1];
    var rest := Remaining(g, last);
    var t := Advanced(path);
    assert forall k :: 0 <= k < |path| - 1 ==> t[k] == path[k];
    assert Remaining(g, t[|path| - 1]) == rest[1..];
    AllFitSplits(g, rest, Below(|path| - 1));
    hide AllFit, ChildFits, Remaining;
    if LeftFits(g, path) {
      assert AllFit(g, Remaining(g, path[|path| - 1]), Below(|path| - 1));
    }
    if LeftFits(g, t) && AllFit(g, rest, Below(|path| - 1)) {
      forall k | 0 <= k < |path| ensures AllFit(g, Remaining(g, path[k]), Below(k)) {
        assert k < |path| - 1 ==> AllFit(g, Remaining(g, t[k]), Below(k));
      }
    }
    if LeftFits(g, t) {
      assert AllFit(g, Remaining(g, t[|path| - 1]), Below(|path| - 1));
    }
  }

  lemma AdvancingTakesAStep(g: Graph, path: seq<Frame>)
    requires path != [] && IsPath(g, path) && IsPath(g, Advanced(path))
    requires path[|path| - 1].next < |g[path[|path| - 1].ref].children|
    ensures var last := path[|path| - 1];
            var child := g[last.ref].children[last.next];
            StepsLeft(g, path) == StepsLeft(g, Advanced(path)) + 1
            + if child.Container? && |path| < MAX_TOOL_INPUT_DEPTH
              then Steps(g, g[child.ref].children, Below(|path| - 1) - 1) else 0
  {
    var last := path[|path| - 1];
    var t := Advanced(path);
    assert t[..|path| - 1] == path[..|path| - 1];
    assert Remaining(g, t[|path| - 1]) == Remaining(g, last)[1..];
  }

  lemma AllFitSplits(g: Graph, children: seq<Child>, depth: nat)
    requires Closed(g) && Inside(g, children) && children != []
    ensures Inside(g, children[1..])
    ensures AllFit(g, children, depth) <==> ChildFits(g, children[0], depth) && AllFit(g, children[1..], depth)
  {
    if ChildFits(g, children[0], depth) && AllFit(g, children[1..], depth) {
      forall i | 0 <= i < |children| ensures ChildFits(g, children[i], depth) {
        if i > 0 {
          assert ChildFits(g, children[1..][i - 1], depth);
        }
      }
    }
  }

  predicate Distinct(path: seq<Frame>) {
    forall j, k :: 0 <= j < k < |path| ==> path[j].ref != path[k].ref
  }

  lemma {:induction false} OneRefAFrame(path: seq<Frame>)
    requires Distinct(path)
    ensures |Refs(path)| == |path|
    decreases |path|
  {
    if path != [] {
      var t, last := path[..|path| - 1], path[|path| - 1];
      OneRefAFrame(t);
      assert Refs(path) == Refs(t) + {last.ref};
    }
  }

  lemma RefsOfLonger(path: seq<Frame>, f: Frame)
    ensures Refs(path + [f]) == Refs(path) + {f.ref}
  {
    var t := path + [f];
    forall r ensures r in Refs(t) <==> r in Refs(path) || r == f.ref {
      if r in Refs(path) {
        var k :| 0 <= k < |path| && path[k].ref == r;
        assert t[k].ref == r;
      }
      if r == f.ref {
        assert t[|path|].ref == r;
      }
      if r in Refs(t) {
        var k :| 0 <= k < |t| && t[k].ref == r;
        assert k < |path| ==> path[k].ref == r;
      }
    }
  }

  lemma EnteringKeepsThePath(g: Graph, path: seq<Frame>, ref: Ref)
    requires IsPath(g, path) && |path| < MAX_TOOL_INPUT_DEPTH && ref in g && ref !in Refs(path) && Distinct(path)
    requires path != [] ==> Holds(g, path[|path| - 1], ref)
    ensures var t := path + [Frame(ref, 0)]; IsPath(g, t) && Refs(t) == Refs(path) + {ref} && Distinct(t)
  {
    var t := path + [Frame(ref, 0)];
    assert forall k :: 0 <= k < |path| ==> t[k] == path[k];
    assert forall k :: 0 <= k < |path| ==> path[k].ref in Refs(path);
    RefsOfLonger(path, Frame(ref, 0));
    hide Holds, Refs;
  }

  lemma LeftFitsOfLonger(g: Graph, path: seq<Frame>, f: Frame)
    requires IsPath(g, path) && IsPath(g, path + [f]) && FrameInside(g, f)
    ensures LeftFits(g, path + [f]) <==> LeftFits(g, path) && AllFit(g, Remaining(g, f), Below(|path|))
  {
    var t := path + [f];
    hide AllFit, Remaining, Holds;
    assert t[|path|] == f;
    if LeftFits(g, t) {
      forall k | 0 <= k < |path| ensures AllFit(g, Remaining(g, path[k]), Below(k)) {
        assert t[k] == path[k];
      }
    }
    if LeftFits(g, path) && AllFit(g, Remaining(g, f), Below(|path|)) {
      forall k | 0 <= k < |t| ensures AllFit(g, Remaining(g, t[k]), Below(k)) {
        assert k < |path| ==> t[k] == path[k];
      }
    }
  }

  lemma StepsOfLonger(g: Graph, path: seq<Frame>, f: Frame)
    requires IsPath(g, path) && IsPath(g, path + [f]) && FrameInside(g, f)
    ensures StepsLeft(g, path + [f]) == StepsLeft(g, path) + Steps(g, Remaining(g, f), Below(|path|))
  {
    assert (path + [f])[..|path|] == path;
    hide Remaining, Steps;
  }

  lemma LeavingKeeps(g: Graph, path: seq<Frame>)
    requires path != [] && IsPath(g, path) && Distinct(path)
    requires path[|path| - 1].next == |g[path[|path| - 1].ref].children|
    ensures var t := path[..|path| - 1];
            && IsPath(g, t) && Distinct(t) && Refs(t) == Refs(path) - {path[|path| - 1].ref}
            && (LeftFits(g, t) <==> LeftFits(g, path)) && StepsLeft(g, t) < StepsLeft(g, path)
  {
    var t, last := path[..|path| - 1], path[|path| - 1];
    assert path == t + [last];
    assert Remaining(g, last) == [];
    LeftFitsOfLonger(g, t, last);
    StepsOfLonger(g, t, last);
    RefsOfLonger(t, last);
    hide LeftFits, StepsLeft, Holds;
  }

  /** The walk stands at `path`: the object fits exactly when what is left of it does. */
  ghost predicate Walking(g: Graph, root: Ref, path: seq<Frame>, open: set<Ref>) {
    && IsPath(g, path) && Distinct(path) && open == Refs(path)
    && root in g && (path != [] ==> path[0].ref == root)
    && (Fits(g, root, MAX_TOOL_INPUT_DEPTH) <==> LeftFits(g, path))
  }

  /** Enters a container, unless it is open already, one too many, or has a key that is none. */
  method EnterContainer(g: Graph, path: seq<Frame>, open: set<Ref>, ref: Ref) returns (refusal: Verdict)
    requires IsPath(g, path) && Distinct(path) && open == Refs(path) && ref in g
    ensures refusal == Refused(ContainsItself) <==> ref in open
    ensures refusal == Refused(TooDeep) <==> ref !in open && |path| == MAX_TOOL_INPUT_DEPTH
    ensures refusal == Refused(NotAKey) <==> ref !in open && |path| < MAX_TOOL_INPUT_DEPTH && !KeysFit(g[ref].keys)
    ensures refusal != Refused(NotAScalar)
  {
    if ref in open {
      return Refused(ContainsItself);
    }
    OneRefAFrame(path);
    if |open| == MAX_TOOL_INPUT_DEPTH {
      return Refused(TooDeep);
    }
    for i := 0 to |g[ref].keys|
      invariant forall j :: 0 <= j < i ==> KeyFits(g[ref].keys[j])
    {
      if !KeyFits(g[ref].keys[i]) {
        return Refused(NotAKey);
      }
    }
    refusal := Accepted;
  }

  lemma FirstEntry(g: Graph, root: Ref)
    requires Closed(g) && root in g && KeysFit(g[root].keys)
    ensures Walking(g, root, [Frame(root, 0)], {root})
  {
    var path := [Frame(root, 0)];
    assert Remaining(g, path[0]) == g[root].children;
    assert LeftFits(g, path) <==> AllFit(g, Remaining(g, path[0]), Below(0));
  }

  /** One child is taken from the last open container. */
  lemma NextChild(g: Graph, root: Ref, path: seq<Frame>, open: set<Ref>)
    requires Walking(g, root, path, open) && path != []
    requires path[|path| - 1].next < |g[path[|path| - 1].ref].children|
    ensures var child := g[path[|path| - 1].ref].children[path[|path| - 1].next];
            var t := Advanced(path);
            && IsPath(g, t) && Distinct(t) && Refs(t) == open && t[0].ref == root
            && (child.Container? ==> child.ref in g && Holds(g, t[|path| - 1], child.ref))
            && (Fits(g, root, MAX_TOOL_INPUT_DEPTH) <==> ChildFits(g, child, Below(|path| - 1)) && LeftFits(g, t))
            && StepsLeft(g, t) < StepsLeft(g, path)
  {
    AdvancingKeepsThePath(g, path);
    AdvancingPasses(g, path);
    AdvancingTakesAStep(g, path);
    assert forall k :: 0 <= k < |path| ==> Advanced(path)[k].ref == path[k].ref;
    hide LeftFits, StepsLeft, Fits, ChildFits, Holds;
  }

  /** The child is a container, and it is entered. */
  lemma Entering(g: Graph, root: Ref, before: seq<Frame>, path: seq<Frame>, open: set<Ref>, ref: Ref)
    requires Walking(g, root, before, open) && before != [] && path == Advanced(before)
    requires before[|before| - 1].next < |g[before[|before| - 1].ref].children|
    requires g[before[|before| - 1].ref].children[before[|before| - 1].next] == Container(ref)
    requires ref !in open && |path| < MAX_TOOL_INPUT_DEPTH && ref in g && KeysFit(g[ref].keys)
    ensures var t := path + [Frame(ref, 0)];
            Walking(g, root, t, open + {ref}) && StepsLeft(g, t) < StepsLeft(g, before)
  {
    NextChild(g, root, before, open);
    AdvancingTakesAStep(g, before);
    EnteringKeepsThePath(g, path, ref);
    LeftFitsOfLonger(g, path, Frame(ref, 0));
    StepsOfLonger(g, path, Frame(ref, 0));
    assert Remaining(g, Frame(ref, 0)) == g[ref].children;
    assert ChildFits(g, Container(ref), Below(|path| - 1)) <==> AllFit(g, g[ref].children, Below(|path|));
    hide LeftFits, StepsLeft, Holds, IsPath, AllFit, Fits;
  }

  /** Accepts the object exactly when its unrolling is a tree at most 128 containers deep with valid keys
      and scalars; a container refused for containing itself would be refused at every depth. */
  method RefuseNonJsonObject(g: Graph, root: Ref) returns (verdict: Verdict)
    requires Closed(g) && root in g
    ensures verdict == Accepted <==> Fits(g, root, MAX_TOOL_INPUT_DEPTH)
    ensures verdict == Refused(ContainsItself) ==> forall depth: nat :: !Fits(g, root, depth)
  {
    var open: set<Ref> := {};
    var refusal := EnterContainer(g, [], {}, root);
    if refusal.Refused? {
      assert refusal.reason.NotAKey?;
      return refusal;
    }
    FirstEntry(g, root);
    open := {root};
    var path := [Frame(root, 0)];
    while path != []
      invariant Walking(g, root, path, open)
      decreases StepsLeft(g, path)
    {
      var last := path[|path| - 1];
      if last.next == |g[last.ref].children| {
        LeavingKeeps(g, path);
        open := open - {last.ref};
        path := path[..|path| - 1];
      } else {
        var child := g[last.ref].children[last.next];
        ghost var before := path;
        NextChild(g, root, path, open);
        path := Advanced(path);
        if child.Container? {
          refusal := EnterContainer(g, path, open, child.ref);
          if refusal.Refused? {
            EnteringRefused(g, root, path, open, child.ref, refusal);
            return refusal;
          }
          Entering(g, root, before, path, open, child.ref);
          open := open + {child.ref};
          path := path + [Frame(child.ref, 0)];
        } else if !ScalarFits(child) {
          return Refused(NotAScalar);
        }
      }
    }
    verdict := Accepted;
  }

  /** A refused container fits nowhere on this path, and one that holds itself at no depth at all. */
  lemma EnteringRefused(g: Graph, root: Ref, path: seq<Frame>, open: set<Ref>, ref: Ref, refusal: Verdict)
    requires IsPath(g, path) && path != [] && path[0].ref == root && open == Refs(path)
    requires ref in g && Holds(g, path[|path| - 1], ref)
    requires refusal == Refused(ContainsItself) ==> ref in open
    requires refusal == Refused(TooDeep) ==> |path| == MAX_TOOL_INPUT_DEPTH
    requires refusal == Refused(NotAKey) ==> !KeysFit(g[ref].keys)
    requires refusal.Refused? && refusal.reason != NotAScalar
    ensures !Fits(g, ref, Below(|path| - 1))
    ensures refusal == Refused(ContainsItself) ==> forall depth: nat :: !Fits(g, root, depth)
  {
    if refusal == Refused(ContainsItself) {
      var j :| 0 <= j < |path| && path[j].ref == ref;
      forall depth: nat ensures !Fits(g, root, depth) {
        AboveACycleNeverFits(g, path, j, 0, depth);
      }
      CyclesNeverFit(g, path, j, j, Below(|path| - 1));
    }
  }
}
