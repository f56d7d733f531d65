/** The textual dependency tree: every node is opened once, and every edge is one line. */
module AsciiTree {
  import opened Sequences
  import opened Digraph
  import opened Kahn
  import opened DagBuilder

  /** One line of the tree, before it becomes text. */
  datatype TreeLine = TreeLine(prefix: string, isRoot: bool, isLast: bool, node: nat, starred: bool)

  function Branch(isRoot: bool, isLast: bool): string {
    if isRoot then "" else if isLast then "`-- " else "|-- "
  }

  function ChildPrefix(prefix: string, isRoot: bool, isLast: bool): string {
    prefix + if isRoot then "" else if isLast then "    " else "|   "
  }

  function LineText(ids: seq<string>, line: TreeLine): string
    requires line.node < |ids|
  {
    line.prefix + Branch(line.isRoot, line.isLast) + ids[line.node] + (if line.starred then " *\n" else "\n")
  }

  ghost predicate NodesBelow(lines: seq<TreeLine>, n: nat) {
    forall i :: 0 <= i < |lines| ==> lines[i].node < n
  }

  ghost function Text(ids: seq<string>, lines: seq<TreeLine>): string
    requires NodesBelow(lines, |ids|)
  {
    if lines == [] then "" else LineText(ids, lines[0]) + Text(ids, lines[1..])
  }

  lemma {:induction false} TextAppend(ids: seq<string>, a: seq<TreeLine>, b: seq<TreeLine>)
    requires NodesBelow(a, |ids|) && NodesBelow(b, |ids|)
    ensures NodesBelow(a + b, |ids|) && Text(ids, a + b) == Text(ids, a) + Text(ids, b)
  {
    assert NodesBelow(a + b, |ids|);
    if a == [] {
      assert a + b == b;
      assert "" + Text(ids, b) == Text(ids, b);
    } else {
      assert (a + b)[1..] == a[1..] + b && (a + b)[0] == a[0];
      TextAppend(ids, a[1..], b);
      Associative(LineText(ids, a[0]), Text(ids, a[1..]), Text(ids, b));
    }
  }

  lemma TextOne(ids: seq<string>, line: TreeLine)
    requires line.node < |ids|
    ensures NodesBelow([line], |ids|) && Text(ids, [line]) == LineText(ids, line)
  {
    assert [line][1..] == [];
  }

  // ---- What is rendered ----

  datatype Rendered = Rendered(lines: seq<TreeLine>, expanded: set<nat>)

  ghost predicate AllNodes(succ: Adjacency, nodes: seq<nat>) {
    forall i :: 0 <= i < |nodes| ==> nodes[i] < |succ|
  }

  /** The tree of one node, given the nodes opened before. */
  ghost function Tree(succ: Adjacency, seen: set<nat>, v: nat, prefix: string, isRoot: bool, isLast: bool): (r: Rendered)
    requires InRange(succ) && v < |succ| && seen <= Prefix(|succ|)
    ensures seen <= r.expanded <= Prefix(|succ|) && NodesBelow(r.lines, |succ|)
    decreases Prefix(|succ|) - seen, 0
  {
    var line := TreeLine(prefix, isRoot, isLast, v, v in seen);
    if v in seen then Rendered([line], seen)
    else
      SuccessorsAreNodes(succ, v);
      var below := Trees(succ, seen + {v}, succ[v], ChildPrefix(prefix, isRoot, isLast), false);
      Rendered([line] + below.lines, below.expanded)
  }

  /** The trees of several nodes, one below the other. */
  ghost function Trees(succ: Adjacency, seen: set<nat>, nodes: seq<nat>, prefix: string, asRoots: bool): (r: Rendered)
    requires InRange(succ) && AllNodes(succ, nodes) && seen <= Prefix(|succ|)
    ensures seen <= r.expanded <= Prefix(|succ|) && NodesBelow(r.lines, |succ|)
    decreases Prefix(|succ|) - seen, |nodes| + 1
  {
    if nodes == [] then Rendered([], seen)
    else
      var first := Tree(succ, seen, nodes[0], prefix, asRoots, asRoots || |nodes| == 1);
      var rest := Trees(succ, first.expanded, nodes[1..], prefix, asRoots);
      Rendered(first.lines + rest.lines, rest.expanded)
  }

  lemma SuccessorsAreNodes(succ: Adjacency, v: nat)
    requires InRange(succ) && v < |succ|
    ensures AllNodes(succ, succ[v])
  {
    forall i | 0 <= i < |succ[v]| ensures succ[v][i] < |succ| { assert Edge(succ, v, succ[v][i]); }
  }

  /** A node seen before is one line. */
  lemma TextSeen(ids: seq<string>, succ: Adjacency, seen: set<nat>, v: nat, prefix: string, isRoot: bool, isLast: bool)
    requires InRange(succ) && v < |succ| == |ids| && v in seen && seen <= Prefix(|succ|)
    ensures Text(ids, Tree(succ, seen, v, prefix, isRoot, isLast).lines)
         == LineText(ids, TreeLine(prefix, isRoot, isLast, v, true))
  {
    TextOne(ids, TreeLine(prefix, isRoot, isLast, v, true));
  }

  /** Another node is its line and below it the trees of its successors. */
  lemma TextUnseen(out: string, ids: seq<string>, succ: Adjacency, seen: set<nat>, v: nat, prefix: string, isRoot: bool, isLast: bool)
    requires InRange(succ) && v < |succ| == |ids| && v !in seen && seen <= Prefix(|succ|)
    ensures AllNodes(succ, succ[v])
    ensures out + Text(ids, Tree(succ, seen, v, prefix, isRoot, isLast).lines)
         == out + LineText(ids, TreeLine(prefix, isRoot, isLast, v, false))
            + Text(ids, Trees(succ, seen + {v}, succ[v], ChildPrefix(prefix, isRoot, isLast), false).lines)
  {
    TreeUnseen(succ, seen, v, prefix, isRoot, isLast);
    TextJoin(out, ids, TreeLine(prefix, isRoot, isLast, v, false),
             Trees(succ, seen + {v}, succ[v], ChildPrefix(prefix, isRoot, isLast), false).lines);
  }

  lemma TreeUnseen(succ: Adjacency, seen: set<nat>, v: nat, prefix: string, isRoot: bool, isLast: bool)
    requires InRange(succ) && v < |succ| && v !in seen && seen <= Prefix(|succ|)
    ensures AllNodes(succ, succ[v])
    ensures Tree(succ, seen, v, prefix, isRoot, isLast).lines == [TreeLine(prefix, isRoot, isLast, v, false)]
            + Trees(succ, seen + {v}, succ[v], ChildPrefix(prefix, isRoot, isLast), false).lines
  {
    SuccessorsAreNodes(succ, v);
  }

  lemma TextJoin(out: string, ids: seq<string>, line: TreeLine, below: seq<TreeLine>)
    requires line.node < |ids| && NodesBelow(below, |ids|)
    ensures NodesBelow([line] + below, |ids|)
    ensures out + Text(ids, [line] + below) == out + LineText(ids, line) + Text(ids, below)
  {
    TextOne(ids, line);
    TextAppend(ids, [line], below);
    Associative(out, LineText(ids, line), Text(ids, below));
  }

  /** The trees from the i-th node on begin with the tree of that node. */
  lemma TextTrees(out: string, ids: seq<string>, succ: Adjacency, seen: set<nat>, nodes: seq<nat>, i: nat, prefix: string, asRoots: bool)
    requires InRange(succ) && |succ| == |ids| && AllNodes(succ, nodes) && seen <= Prefix(|succ|) && i < |nodes|
    ensures
      var first := Tree(succ, seen, nodes[i], prefix, asRoots, asRoots || i + 1 == |nodes|);
      var rest := Trees(succ, first.expanded, nodes[i + 1..], prefix, asRoots);
      var both := Trees(succ, seen, nodes[i..], prefix, asRoots);
      both.expanded == rest.expanded && out + Text(ids, both.lines) == out + Text(ids, first.lines) + Text(ids, rest.lines)
  {
    var tail := nodes[i..];
    assert tail[0] == nodes[i] && tail[1..] == nodes[i + 1..];
    var first := Tree(succ, seen, nodes[i], prefix, asRoots, asRoots || i + 1 == |nodes|).lines;
    var rest := Trees(succ, Tree(succ, seen, nodes[i], prefix, asRoots, asRoots || i + 1 == |nodes|).expanded,
                      nodes[i + 1..], prefix, asRoots).lines;
    TextAppend(ids, first, rest);
    Associative(out, Text(ids, first), Text(ids, rest));
  }

  // ---- The renderer ----

  class Renderer {
    const ids: seq<string>
    const succ: Adjacency
    const expanded: array<bool>
    var out: string

    ghost predicate Valid() {
      InRange(succ) && |ids| == |succ| == expanded.Length
    }

    ghost function Marked(): (r: set<nat>)
      requires Valid()
      reads expanded
      ensures r <= Prefix(|succ|)
    {
      set v: nat | v < |succ| && expanded[v]
    }

    constructor (ids: seq<string>, succ: Adjacency)
      requires InRange(succ) && |ids| == |succ|
      ensures Valid() && this.ids == ids && this.succ == succ && out == "" && Marked() == {} && fresh(expanded)
    {
      this.ids, this.succ, out := ids, succ, "";
      expanded := new bool[|succ|](_ => false);
    }

    method PrintLine(v: nat, prefix: string, isRoot: bool, isLast: bool, starred: bool)
      requires v < |ids|
      modifies this`out
      ensures out == old(out) + LineText(ids, TreeLine(prefix, isRoot, isLast, v, starred))
    {
      out := out + prefix;
      if !isRoot {
        out := out + if isLast then "`-- " else "|-- ";
      }
      out := out + ids[v];
      out := out + if starred then " *\n" else "\n";
    }

    method Mark(v: nat)
      requires Valid() && v < |succ|
      modifies expanded
      ensures Marked() == old(Marked()) + {v}
    {
      expanded[v] := true;
    }

    method RenderTree(v: nat, prefix: string, isRoot: bool, isLast: bool)
      requires Valid() && v < |succ|
      modifies expanded, this`out
      ensures Marked() == Tree(succ, old(Marked()), v, prefix, isRoot, isLast).expanded
      ensures out == old(out) + Text(ids, Tree(succ, old(Marked()), v, prefix, isRoot, isLast).lines)
      decreases Prefix(|succ|) - Marked(), 0
    {
      ghost var before := Marked();
      ghost var start := out;
      var starred := expanded[v];
      PrintLine(v, prefix, isRoot, isLast, starred);
      if starred {
        TextSeen(ids, succ, before, v, prefix, isRoot, isLast);
        return;
      }
      TextUnseen(start, ids, succ, before, v, prefix, isRoot, isLast);
      Mark(v);
      RenderTrees(succ[v], ChildPrefix(prefix, isRoot, isLast), false);
    }

    method RenderTrees(nodes: seq<nat>, prefix: string, asRoots: bool)
      requires Valid() && AllNodes(succ, nodes)
      modifies expanded, this`out
      ensures Marked() == Trees(succ, old(Marked()), nodes, prefix, asRoots).expanded
      ensures out == old(out) + Text(ids, Trees(succ, old(Marked()), nodes, prefix, asRoots).lines)
      decreases Prefix(|succ|) - Marked(), |nodes| + 1
    {
      ghost var start := Marked();
      ghost var all := out + Text(ids, Trees(succ, start, nodes, prefix, asRoots).lines);
      assert nodes[0..] == nodes;
      for i := 0 to |nodes|
        invariant start <= Marked()
        invariant Trees(succ, Marked(), nodes[i..], prefix, asRoots).expanded
               == Trees(succ, start, nodes, prefix, asRoots).expanded
        invariant out + Text(ids, Trees(succ, Marked(), nodes[i..], prefix, asRoots).lines) == all
      {
        TextTrees(out, ids, succ, Marked(), nodes, i, prefix, asRoots);
        RenderTree(nodes[i], prefix, asRoots, asRoots || i + 1 == |nodes|);
      }
    }
  }

  // ---- What the lines show ----

  function NodesOf(lines: seq<TreeLine>): (r: seq<nat>)
    ensures |r| == |lines|
  {
    seq(|lines|, i requires 0 <= i < |lines| => lines[i].node)
  }

  lemma NodesAppend(a: seq<TreeLine>, b: seq<TreeLine>)
    ensures NodesOf(a + b) == NodesOf(a) + NodesOf(b)
  {
  }

  /** The nodes opened by the lines: those of the lines without a star. */
  function Opened(lines: seq<TreeLine>): seq<nat> {
    if lines == [] then []
    else Opened(lines[..|lines| - 1]) + if lines[|lines| - 1].starred then [] else [lines[|lines| - 1].node]
  }

  lemma {:induction false} OpenedAppend(a: seq<TreeLine>, b: seq<TreeLine>)
    ensures Opened(a + b) == Opened(a) + Opened(b)
  {
    if b == [] {
      assert a + b == a;
    } else {
      assert (a + b)[..|a + b| - 1] == a + b[..|b| - 1];
      OpenedAppend(a, b[..|b| - 1]);
    }
  }

  /** The successors of some nodes, all together. */
  ghost function Below(succ: Adjacency, nodes: seq<nat>): multiset<nat>
    requires AllNodes(succ, nodes)
  {
    if nodes == [] then multiset{} else Below(succ, nodes[..|nodes| - 1]) + multiset(succ[nodes[|nodes| - 1]])
  }

  lemma {:induction false} BelowAppend(succ: Adjacency, a: seq<nat>, b: seq<nat>)
    requires AllNodes(succ, a) && AllNodes(succ, b)
    ensures AllNodes(succ, a + b) && Below(succ, a + b) == Below(succ, a) + Below(succ, b)
  {
    if b == [] {
      assert a + b == a;
    } else {
      assert (a + b)[..|a + b| - 1] == a + b[..|b| - 1];
      BelowAppend(succ, a, b[..|b| - 1]);
    }
  }

  lemma {:induction false} OpenedAreNodes(succ: Adjacency, lines: seq<TreeLine>)
    requires NodesBelow(lines, |succ|)
    ensures AllNodes(succ, Opened(lines))
  {
    if lines != [] { OpenedAreNodes(succ, lines[..|lines| - 1]); }
  }

  /** A line is starred exactly when its node was seen before. */
  ghost predicate StarredAt(seen: set<nat>, lines: seq<TreeLine>, i: nat)
    requires i < |lines|
  {
    lines[i].starred <==> lines[i].node in seen || lines[i].node in NodesOf(lines[..i])
  }

  ghost predicate Starred(seen: set<nat>, lines: seq<TreeLine>) {
    forall i: nat :: i < |lines| ==> StarredAt(seen, lines, i)
  }

  /** Every successor of the given nodes is among the expanded ones. */
  ghost predicate Closed(succ: Adjacency, nodes: seq<nat>, expanded: set<nat>) {
    forall u: nat, w: nat :: u in nodes && Edge(succ, u, w) ==> w in expanded
  }

  /** What holds of the lines rendered for `given`, when the nodes in `seen` were opened before. */
  ghost predicate Law(succ: Adjacency, seen: set<nat>, given: seq<nat>, r: Rendered) {
    && NodesBelow(r.lines, |succ|) && AllNodes(succ, Opened(r.lines))
    && r.expanded == seen + (set v | v in NodesOf(r.lines))
    && Starred(seen, r.lines)
    && multiset(NodesOf(r.lines)) == multiset(given) + Below(succ, Opened(r.lines))
    && Closed(succ, Opened(r.lines), r.expanded)
  }

  lemma StarredAppend(seen: set<nat>, a: seq<TreeLine>, mid: set<nat>, b: seq<TreeLine>)
    requires Starred(seen, a) && Starred(mid, b) && mid == seen + (set v | v in NodesOf(a))
    ensures Starred(seen, a + b)
  {
    forall i: nat | i < |a + b| ensures StarredAt(seen, a + b, i) {
      if i < |a| {
        assert (a + b)[..i] == a[..i];
        assert StarredAt(seen, a, i);
      } else {
        var j := i - |a|;
        assert (a + b)[..i] == a + b[..j];
        NodesAppend(a, b[..j]);
        assert StarredAt(mid, b, j);
      }
    }
  }

  lemma SetAppend(a: seq<nat>, b: seq<nat>)
    ensures (set v | v in a + b) == (set v | v in a) + (set v | v in b)
  {
  }

  lemma ClosedAppend(succ: Adjacency, a: seq<nat>, mid: set<nat>, b: seq<nat>, expanded: set<nat>)
    requires Closed(succ, a, mid) && Closed(succ, b, expanded) && mid <= expanded
    ensures Closed(succ, a + b, expanded)
  {
    forall u: nat, w: nat | u in a + b && Edge(succ, u, w) ensures w in expanded {
      assert u in a || u in b;
    }
  }

  lemma LawAppend(succ: Adjacency, seen: set<nat>, given: seq<nat>, a: Rendered, more: seq<nat>, b: Rendered)
    requires Law(succ, seen, given, a) && Law(succ, a.expanded, more, b)
    ensures Law(succ, seen, given + more, Rendered(a.lines + b.lines, b.expanded))
  {
    NodesAppend(a.lines, b.lines);
    OpenedAppend(a.lines, b.lines);
    OpenedAreNodes(succ, a.lines);
    OpenedAreNodes(succ, b.lines);
    BelowAppend(succ, Opened(a.lines), Opened(b.lines));
    SetAppend(NodesOf(a.lines), NodesOf(b.lines));
    StarredAppend(seen, a.lines, a.expanded, b.lines);
    ClosedAppend(succ, Opened(a.lines), a.expanded, Opened(b.lines), b.expanded);
  }

  /** A node opened above the trees of its successors. */
  lemma LawOpen(succ: Adjacency, seen: set<nat>, line: TreeLine, below: Rendered)
    requires line.node < |succ| && line.node !in seen && !line.starred
    requires Law(succ, seen + {line.node}, succ[line.node], below)
    ensures Law(succ, seen, [line.node], Rendered([line] + below.lines, below.expanded))
  {
    var v := line.node;
    OneLine(succ, line);
    NodesAppend([line], below.lines);
    OpenedAppend([line], below.lines);
    BelowAppend(succ, [v], Opened(below.lines));
    SetAppend([v], NodesOf(below.lines));
    StarredOne(seen, line);
    assert (set u | u in NodesOf([line])) == {v};
    StarredAppend(seen, [line], seen + {v}, below.lines);
    ClosedOne(succ, v, below);
    ClosedAppend(succ, [v], below.expanded, Opened(below.lines), below.expanded);
  }

  lemma OneLine(succ: Adjacency, line: TreeLine)
    requires line.node < |succ| && !line.starred
    ensures NodesOf([line]) == [line.node] && Opened([line]) == [line.node]
    ensures AllNodes(succ, [line.node]) && Below(succ, [line.node]) == multiset(succ[line.node])
  {
    assert [line][..0] == [] && [line.node][..0] == [];
  }

  lemma ClosedOne(succ: Adjacency, v: nat, below: Rendered)
    requires v < |succ| && AllNodes(succ, Opened(below.lines))
    requires below.expanded >= (set u | u in NodesOf(below.lines))
    requires multiset(NodesOf(below.lines)) == multiset(succ[v]) + Below(succ, Opened(below.lines))
    ensures Closed(succ, [v], below.expanded)
  {
    forall u: nat, w: nat | u in [v] && Edge(succ, u, w) ensures w in below.expanded {
      assert w in multiset(succ[v]);
      assert w in multiset(NodesOf(below.lines));
    }
  }

  lemma StarredOne(seen: set<nat>, line: TreeLine)
    requires line.starred <==> line.node in seen
    ensures Starred(seen, [line])
  {
    assert [line][..0] == [];
  }

  lemma LawSeen(succ: Adjacency, seen: set<nat>, line: TreeLine)
    requires line.node < |succ| && line.node in seen && line.starred
    ensures Law(succ, seen, [line.node], Rendered([line], seen))
  {
    assert NodesOf([line]) == [line.node];
    assert Opened([line]) == [] by { assert [line][..0] == []; }
    StarredOne(seen, line);
  }

  lemma LawNothing(succ: Adjacency, seen: set<nat>)
    ensures Law(succ, seen, [], Rendered([], seen))
  {
    assert NodesOf([]) == [];
  }

  lemma {:induction false} TreeLaw(succ: Adjacency, seen: set<nat>, v: nat, prefix: string, isRoot: bool, isLast: bool)
    requires InRange(succ) && v < |succ| && seen <= Prefix(|succ|)
    ensures Law(succ, seen, [v], Tree(succ, seen, v, prefix, isRoot, isLast))
    decreases Prefix(|succ|) - seen, 0
  {
    var line := TreeLine(prefix, isRoot, isLast, v, v in seen);
    if v in seen {
      LawSeen(succ, seen, line);
    } else {
      SuccessorsAreNodes(succ, v);
      TreesLaw(succ, seen + {v}, succ[v], ChildPrefix(prefix, isRoot, isLast), false);
      LawOpen(succ, seen, line, Trees(succ, seen + {v}, succ[v], ChildPrefix(prefix, isRoot, isLast), false));
    }
  }

  lemma {:induction false} TreesLaw(succ: Adjacency, seen: set<nat>, nodes: seq<nat>, prefix: string, asRoots: bool)
    requires InRange(succ) && AllNodes(succ, nodes) && seen <= Prefix(|succ|)
    ensures Law(succ, seen, nodes, Trees(succ, seen, nodes, prefix, asRoots))
    decreases Prefix(|succ|) - seen, |nodes| + 1
  {
    if nodes != [] {
      var first := Tree(succ, seen, nodes[0], prefix, asRoots, asRoots || |nodes| == 1);
      TreeLaw(succ, seen, nodes[0], prefix, asRoots, asRoots || |nodes| == 1);
      TreesLaw(succ, first.expanded, nodes[1..], prefix, asRoots);
      var rest := Trees(succ, first.expanded, nodes[1..], prefix, asRoots);
      LawAppend(succ, seen, [nodes[0]], first, nodes[1..], rest);
      HeadAndTail(nodes);
      assert Trees(succ, seen, nodes, prefix, asRoots) == Rendered(first.lines + rest.lines, rest.expanded);
    } else {
      LawNothing(succ, seen);
    }
  }

  // ---- The whole tree of a built graph ----

  lemma {:induction false} OpenedOnce(lines: seq<TreeLine>)
    requires Starred({}, lines)
    ensures Distinct(Opened(lines))
    ensures forall v :: v in Opened(lines) <==> v in NodesOf(lines)
  {
    if lines != [] {
      var n := |lines| - 1;
      var init := lines[..n];
      forall i: nat | i < n ensures StarredAt({}, init, i) {
        assert StarredAt({}, lines, i) && init[..i] == lines[..i];
      }
      OpenedOnce(init);
      assert StarredAt({}, lines, n);
      assert lines == init + [lines[n]];
      NodesAppend(init, [lines[n]]);
      assert NodesOf([lines[n]]) == [lines[n].node];
    }
  }

  ghost function Sources(succ: Adjacency, nodes: seq<nat>, w: nat): set<nat>
    requires AllNodes(succ, nodes)
  {
    set u | u in nodes && w in succ[u]
  }

  lemma SourcesMore(succ: Adjacency, nodes: seq<nat>, u: nat, w: nat)
    requires u < |succ| && AllNodes(succ, nodes) && u !in nodes
    ensures AllNodes(succ, nodes + [u])
    ensures |Sources(succ, nodes + [u], w)| == |Sources(succ, nodes, w)| + if w in succ[u] then 1 else 0
  {
    assert Sources(succ, nodes + [u], w) == Sources(succ, nodes, w) + if w in succ[u] then {u} else {};
  }

  lemma {:induction false} BelowCount(succ: Adjacency, nodes: seq<nat>, w: nat)
    requires AllNodes(succ, nodes) && Distinct(nodes) && forall u: nat :: u < |succ| ==> Distinct(succ[u])
    ensures Below(succ, nodes)[w] == |Sources(succ, nodes, w)|
  {
    if nodes == [] {
      assert Sources(succ, nodes, w) == {};
    } else {
      var n := |nodes| - 1;
      var init, u := nodes[..n], nodes[n];
      BelowCount(succ, init, w);
      DistinctMultiplicity(succ[u], w);
      assert nodes == init + [u];
      SourcesMore(succ, init, u, w);
    }
  }

  ghost function EdgesFrom(succ: Adjacency, nodes: seq<nat>): set<(nat, nat)>
    requires AllNodes(succ, nodes)
  {
    set u, v | u in nodes && v in succ[u] :: (u, v)
  }

  ghost function EdgeSet(succ: Adjacency): set<(nat, nat)> {
    set u: nat, v: nat | u < |succ| && v in succ[u] :: (u, v)
  }

  lemma {:induction false} BelowSize(succ: Adjacency, nodes: seq<nat>)
    requires AllNodes(succ, nodes) && Distinct(nodes) && forall u: nat :: u < |succ| ==> Distinct(succ[u])
    ensures |Below(succ, nodes)| == |EdgesFrom(succ, nodes)|
  {
    if nodes == [] {
      assert EdgesFrom(succ, nodes) == {};
    } else {
      var n := |nodes| - 1;
      var init, u := nodes[..n], nodes[n];
      BelowSize(succ, init);
      assert nodes == init + [u];
      EdgesMore(succ, init, u);
    }
  }

  lemma EdgesMore(succ: Adjacency, nodes: seq<nat>, u: nat)
    requires u < |succ| && AllNodes(succ, nodes) && u !in nodes && Distinct(succ[u])
    ensures AllNodes(succ, nodes + [u])
    ensures |EdgesFrom(succ, nodes + [u])| == |EdgesFrom(succ, nodes)| + |succ[u]|
  {
    FanSize(succ, u);
    assert EdgesFrom(succ, nodes + [u]) == EdgesFrom(succ, nodes) + Fan(succ, u);
    assert EdgesFrom(succ, nodes) !! Fan(succ, u);
  }

  ghost function Fan(succ: Adjacency, u: nat): set<(nat, nat)>
    requires u < |succ|
  {
    set v | v in succ[u] :: (u, v)
  }

  lemma FanSize(succ: Adjacency, u: nat)
    requires u < |succ| && Distinct(succ[u])
    ensures |Fan(succ, u)| == |succ[u]|
  {
    var pairs := seq(|succ[u]|, i requires 0 <= i < |succ[u]| => (u, succ[u][i]));
    DistinctCard(pairs);
    forall v | v in succ[u] ensures (u, v) in pairs {
      var i :| 0 <= i < |succ[u]| && succ[u][i] == v;
      assert pairs[i] == (u, v);
    }
    assert Fan(succ, u) == set x | x in pairs;
  }

  lemma RootsAreNodes(dag: Dag)
    requires ValidDag(dag)
    ensures InRange(dag.succ) && AllNodes(dag.succ, dag.roots)
  {
    MirroredInRange(dag.succ, dag.pred);
    forall i | 0 <= i < |dag.roots| ensures dag.roots[i] < |dag.succ| { assert dag.roots[i] in dag.roots; }
  }

  /** The tree drawn for a built graph. */
  ghost function Drawn(dag: Dag): Rendered
    requires ValidDag(dag)
  {
    RootsAreNodes(dag);
    Trees(dag.succ, {}, dag.roots, "", true)
  }

  lemma {:induction false} Reached(dag: Dag, rank: seq<nat>, v: nat)
    requires ValidDag(dag) && Ranking(dag.succ, rank) && v < |dag.succ|
    requires Law(dag.succ, {}, dag.roots, Drawn(dag))
    ensures v in NodesOf(Drawn(dag).lines)
    decreases rank[v]
  {
    var r := Drawn(dag);
    if dag.pred[v] == [] {
      assert v in multiset(dag.roots);
      assert v in multiset(NodesOf(r.lines));
    } else {
      var u := dag.pred[v][0];
      assert Edge(dag.pred, v, u) && Edge(dag.succ, u, v);
      Reached(dag, rank, u);
      OpenedOnce(r.lines);
      assert v in r.expanded;
    }
  }

  /** Every node is opened, exactly once, at the first line that shows it. */
  lemma EveryNodeOpenedOnce(dag: Dag)
    requires ValidDag(dag)
    ensures Starred({}, Drawn(dag).lines)
    ensures Distinct(Opened(Drawn(dag).lines))
    ensures forall v: nat :: v in Opened(Drawn(dag).lines) <==> v < |dag.succ|
  {
    RootsAreNodes(dag);
    TreesLaw(dag.succ, {}, dag.roots, "", true);
    var lines := Drawn(dag).lines;
    OpenedOnce(lines);
    var rank := KahnOrderRanks(dag.succ, dag.topo);
    forall v: nat | v < |dag.succ| ensures v in Opened(lines) { Reached(dag, rank, v); }
  }

  lemma DrawnLaw(dag: Dag)
    requires ValidDag(dag)
    ensures AllNodes(dag.succ, Opened(Drawn(dag).lines))
    ensures multiset(NodesOf(Drawn(dag).lines)) == multiset(dag.roots) + Below(dag.succ, Opened(Drawn(dag).lines))
  {
    RootsAreNodes(dag);
    TreesLaw(dag.succ, {}, dag.roots, "", true);
  }

  lemma BelowAll(dag: Dag, all: seq<nat>, w: nat)
    requires ValidDag(dag) && w < |dag.succ| && AllNodes(dag.succ, all) && Distinct(all)
    requires forall v: nat :: v in all <==> v < |dag.succ|
    ensures Below(dag.succ, all)[w] == |dag.pred[w]|
  {
    BelowCount(dag.succ, all, w);
    DistinctCard(dag.pred[w]);
    forall u: nat ensures u in all && w in dag.succ[u] <==> u in dag.pred[w] {
      assert Edge(dag.succ, u, w) <==> Edge(dag.pred, w, u);
    }
    assert Sources(dag.succ, all, w) == set u: nat | u in dag.pred[w];
  }

  lemma RootCount(dag: Dag, w: nat)
    requires ValidDag(dag) && w < |dag.succ|
    ensures multiset(dag.roots)[w] == if dag.pred[w] == [] then 1 else 0
  {
    DistinctMultiplicity(dag.roots, w);
  }

  /** A root has one line, any other node one line for each of its dependencies. */
  lemma OneLinePerDependency(dag: Dag, w: nat)
    requires ValidDag(dag) && w < |dag.succ|
    ensures multiset(NodesOf(Drawn(dag).lines))[w] == if dag.pred[w] == [] then 1 else |dag.pred[w]|
  {
    DrawnLaw(dag);
    EveryNodeOpenedOnce(dag);
    BelowAll(dag, Opened(Drawn(dag).lines), w);
    RootCount(dag, w);
  }

  lemma EdgesOfAll(succ: Adjacency, all: seq<nat>)
    requires AllNodes(succ, all) && Distinct(all) && forall u: nat :: u < |succ| ==> Distinct(succ[u])
    requires forall v: nat :: v in all <==> v < |succ|
    ensures |Below(succ, all)| == |EdgeSet(succ)|
  {
    BelowSize(succ, all);
    assert EdgesFrom(succ, all) == EdgeSet(succ);
  }

  /** The tree has one line for every root and one for every edge. */
  lemma RootsPlusEdges(dag: Dag)
    requires ValidDag(dag)
    ensures |Drawn(dag).lines| == |dag.roots| + |EdgeSet(dag.succ)|
  {
    DrawnLaw(dag);
    EveryNodeOpenedOnce(dag);
    EdgesOfAll(dag.succ, Opened(Drawn(dag).lines));
    assert |multiset(NodesOf(Drawn(dag).lines))| == |Drawn(dag).lines|;
  }

  /** The tree as text. */
  method RenderDependencyTree(dag: Dag) returns (text: string)
    requires ValidDag(dag)
    ensures NodesBelow(Drawn(dag).lines, |dag.nodes|) && text == Text(dag.nodes, Drawn(dag).lines)
  {
    RootsAreNodes(dag);
    var renderer := new Renderer(dag.nodes, dag.succ);
    renderer.RenderTrees(dag.roots, "", true);
    text := renderer.out;
    assert "" + Text(dag.nodes, Drawn(dag).lines) == Text(dag.nodes, Drawn(dag).lines);
  }

  // ---- Levels ----

  /** k is the number of edges of a longest path that ends in v. */
  ghost predicate LongestPath(succ: Adjacency, v: nat, k: nat) {
    && (k == 0 || exists u, via :: Path(succ, u, via, v) && |via| + 1 == k)
    && forall u, via :: Path(succ, u, via, v) ==> |via| + 1 <= k
  }

  ghost predicate Lower(succ: Adjacency, level: seq<nat>, done: set<nat>, u: nat, v: nat)
    requires |level| == |succ|
  {
    u in done && Edge(succ, u, v) ==> v < |succ| && level[u] + 1 <= level[v]
  }

  ghost predicate Attained(succ: Adjacency, level: seq<nat>, done: set<nat>, v: nat)
    requires |level| == |succ| && v < |succ|
  {
    level[v] == 0 || exists u :: u in done && Edge(succ, u, v) && level[v] == level[u] + 1
  }

  /** Every level is one more than the greatest level among the finished dependencies. */
  ghost predicate Levelled(succ: Adjacency, level: seq<nat>, done: set<nat>) {
    && |level| == |succ|
    && (forall u: nat, v: nat :: u < |succ| ==> Lower(succ, level, done, u, v))
    && (forall v: nat :: v < |succ| ==> Attained(succ, level, done, v))
  }

  lemma LevelledMore(succ: Adjacency, level: seq<nat>, raised: seq<nat>, done: set<nat>, u: nat)
    requires InRange(succ) && u < |succ| && Levelled(succ, level, done) && Raised(succ, level, raised, u)
    requires forall v: nat :: Edge(succ, u, v) ==> v != u && v !in done
    ensures Levelled(succ, raised, done + {u})
  {
    forall x: nat, v: nat | x < |succ| ensures Lower(succ, raised, done + {u}, x, v) {
      if x in done + {u} && Edge(succ, x, v) {
        assert v < |succ|;
        assert RaisedAt(succ, level, raised, u, x) && RaisedAt(succ, level, raised, u, v);
        assert Lower(succ, level, done, x, v);
      }
    }
    forall v: nat | v < |succ| ensures Attained(succ, raised, done + {u}, v) {
      AttainedMore(succ, level, raised, done, u, v);
    }
  }

  lemma AttainedMore(succ: Adjacency, level: seq<nat>, raised: seq<nat>, done: set<nat>, u: nat, v: nat)
    requires InRange(succ) && u < |succ| && v < |succ| && Levelled(succ, level, done) && Raised(succ, level, raised, u)
    requires forall v: nat :: Edge(succ, u, v) ==> v != u && v !in done
    ensures Attained(succ, raised, done + {u}, v)
  {
    assert Attained(succ, level, done, v) && RaisedAt(succ, level, raised, u, v);
    if raised[v] != level[v] {
      assert RaisedAt(succ, level, raised, u, u);
    } else if level[v] != 0 {
      var x :| x in done && Edge(succ, x, v) && level[v] == level[x] + 1;
      assert RaisedAt(succ, level, raised, u, x);
    }
  }

  ghost predicate RaisedAt(succ: Adjacency, level: seq<nat>, raised: seq<nat>, u: nat, v: nat)
    requires |raised| == |level| == |succ| && u < |succ| && v < |succ|
  {
    raised[v] == if Edge(succ, u, v) && level[v] < level[u] + 1 then level[u] + 1 else level[v]
  }

  /** The dependents of u are lifted above u. */
  ghost predicate Raised(succ: Adjacency, level: seq<nat>, raised: seq<nat>, u: nat)
    requires u < |succ|
  {
    |raised| == |level| == |succ| && forall v: nat :: v < |succ| ==> RaisedAt(succ, level, raised, u, v)
  }

  method RaiseDependents(succ: Adjacency, level: seq<nat>, u: nat) returns (raised: seq<nat>)
    requires InRange(succ) && |level| == |succ| && u < |succ| && u !in succ[u]
    ensures Raised(succ, level, raised, u)
  {
    raised := level;
    SuccessorsAreNodes(succ, u);
    for j := 0 to |succ[u]|
      invariant |raised| == |succ| && raised[u] == level[u]
      invariant forall v: nat :: v < |succ| ==>
        raised[v] == if v in succ[u][..j] && level[v] < level[u] + 1 then level[u] + 1 else level[v]
    {
      var v := succ[u][j];
      assert succ[u][..j + 1] == succ[u][..j] + [v];
      if raised[v] < raised[u] + 1 {
        raised := raised[v := raised[u] + 1];
      }
    }
    assert succ[u][..|succ[u]|] == succ[u];
  }

  /** When a node's turn comes, its dependents still wait. */
  lemma DependentsWait(succ: Adjacency, order: seq<nat>, i: nat, v: nat)
    requires KahnOrder(succ, order) && i < |order| && Edge(succ, order[i], v)
    ensures v !in order[..i] && v != order[i]
  {
    GreedyIsDistinct(succ, order);
    assert LeastAvailable(succ, order[..i], order[i]);
    forall k | 0 <= k < i ensures order[k] != v {
      assert LeastAvailable(succ, order[..k], order[k]);
      assert order[i] !in order[..k];
    }
  }

  ghost function Elems(s: seq<nat>): set<nat> {
    set v | v in s
  }

  method ComputeLevels(dag: Dag) returns (level: seq<nat>)
    requires ValidDag(dag)
    ensures |level| == |dag.nodes|
    ensures forall v: nat :: v < |dag.nodes| ==> LongestPath(dag.succ, v, level[v])
  {
    MirroredInRange(dag.succ, dag.pred);
    GreedyIsDistinct(dag.succ, dag.topo);
    level := seq(|dag.succ|, _ => 0);
    for i := 0 to |dag.topo|
      invariant Levelled(dag.succ, level, Elems(dag.topo[..i]))
    {
      var u := dag.topo[i];
      forall v: nat | Edge(dag.succ, u, v) ensures v != u && v !in Elems(dag.topo[..i]) {
        DependentsWait(dag.succ, dag.topo, i, v);
      }
      assert !Edge(dag.succ, u, u);
      var raised := RaiseDependents(dag.succ, level, u);
      LevelledMore(dag.succ, level, raised, Elems(dag.topo[..i]), u);
      assert Elems(dag.topo[..i + 1]) == Elems(dag.topo[..i]) + {u};
      level := raised;
    }
    KahnOrderCovers(dag.succ, dag.topo);
    forall v: nat | v < |dag.nodes| ensures LongestPath(dag.succ, v, level[v]) {
      assert dag.topo[..|dag.topo|] == dag.topo;
      LevelIsLongest(dag.succ, level, Elems(dag.topo), v);
    }
  }

  lemma {:induction false} PathBound(succ: Adjacency, level: seq<nat>, done: set<nat>, u: nat, via: seq<nat>, v: nat)
    requires InRange(succ) && Levelled(succ, level, done) && Path(succ, u, via, v)
    requires forall x: nat :: x < |succ| ==> x in done
    ensures u < |succ| && v < |succ| && level[u] + |via| + 1 <= level[v]
    decreases |via|
  {
    if via == [] {
      assert Lower(succ, level, done, u, v);
    } else {
      assert Lower(succ, level, done, u, via[0]);
      PathBound(succ, level, done, via[0], via[1..], v);
    }
  }

  lemma {:induction false} PathOfLevel(succ: Adjacency, level: seq<nat>, done: set<nat>, v: nat) returns (u: nat, via: seq<nat>)
    requires Levelled(succ, level, done) && v < |succ| && level[v] > 0
    ensures Path(succ, u, via, v) && |via| + 1 == level[v]
    decreases level[v]
  {
    assert Attained(succ, level, done, v);
    var x :| x in done && Edge(succ, x, v) && level[v] == level[x] + 1;
    if level[x] == 0 {
      u, via := x, [];
    } else {
      u, via := PathOfLevel(succ, level, done, x);
      PathSnoc(succ, u, via, x, v);
      via := via + [x];
    }
  }

  lemma LevelIsLongest(succ: Adjacency, level: seq<nat>, done: set<nat>, v: nat)
    requires InRange(succ) && Levelled(succ, level, done) && v < |succ|
    requires forall x: nat :: x < |succ| ==> x in done
    ensures LongestPath(succ, v, level[v])
  {
    if level[v] > 0 {
      var u, via := PathOfLevel(succ, level, done, v);
    }
    forall u: nat, via | Path(succ, u, via, v) ensures |via| + 1 <= level[v] {
      PathBound(succ, level, done, u, via, v);
    }
  }
}
