/** Building the flame-graph tree: what every node of it stands for, in Python and in TypeScript. */
module FlameTree {
  import opened Wrappers
  import opened FlameText
  import opened FlameArena

  const ROOT: string := "root"

  function EmptyTree(): (a: Arena)
    ensures Shape(a)
  {
    Arena([Node(ROOT, 0, [])], [[]])
  }

  /** One accepted line: walk down, then add the count to the node reached. */
  function Inserted(a: Arena, s: Sample): (r: Arena)
    requires Shape(a)
    ensures Shape(r)
  {
    var (b, j) := Descend(a, 0, s.frames);
    BumpShape(b, j, s.count);
    b.(nodes := Bump(b.nodes, j, s.count))
  }

  function Build(samples: seq<Sample>): (a: Arena)
    ensures Shape(a)
  {
    if samples == [] then EmptyTree() else Inserted(Build(samples[..|samples| - 1]), samples[|samples| - 1])
  }

  // ----- What the values mean -----

  /** Samples whose stack starts with `path`, respectively is `path`. */
  function PrefixTotal(samples: seq<Sample>, path: seq<string>): nat {
    if samples == [] then 0
    else
      var s := samples[|samples| - 1];
      PrefixTotal(samples[..|samples| - 1], path) + if path <= s.frames then s.count else 0
  }

  function ExactTotal(samples: seq<Sample>, path: seq<string>): nat {
    if samples == [] then 0
    else
      var s := samples[|samples| - 1];
      ExactTotal(samples[..|samples| - 1], path) + if path == s.frames then s.count else 0
  }

  /** Every node's own value, and its total with everything below, come from the samples. */
  ghost predicate Summed(a: Arena, samples: seq<Sample>) {
    && Shape(a) && Forward(a.nodes)
    && (forall i :: 0 <= i < |a.nodes| ==> NodeSummed(a, samples, i))
  }

  ghost predicate NodeSummed(a: Arena, samples: seq<Sample>, i: nat)
    requires Forward(a.nodes) && i < |a.nodes| == |a.paths|
  {
    && Subtotal(a.nodes, i) == PrefixTotal(samples, a.paths[i])
    && a.nodes[i].value == ExactTotal(samples, a.paths[i])
  }

  /** Every sample has a node, and every node but the root lies on some sample's stack. */
  ghost predicate Covers(a: Arena, samples: seq<Sample>) {
    && (forall n :: 0 <= n < |samples| ==> samples[n].frames in a.paths)
    && (forall i :: 0 < i < |a.paths| ==> OnSome(samples, a.paths[i]))
  }

  predicate OnSome(samples: seq<Sample>, path: seq<string>) {
    exists n :: 0 <= n < |samples| && path <= samples[n].frames
  }

  lemma KnownPrefix(a: Arena, frames: seq<string>, path: seq<string>)
    requires Shape(a) && frames in a.paths && path <= frames
    ensures path in a.paths
  {
    var j :| 0 <= j < |a.paths| && a.paths[j] == frames;
    var i := PrefixNode(a, j, |path|);
    assert a.paths[i] == path;
  }

  /** A path no node has is the start of no sample. */
  lemma {:induction false} UnknownPath(a: Arena, samples: seq<Sample>, path: seq<string>)
    requires Shape(a) && path !in a.paths && forall n :: 0 <= n < |samples| ==> samples[n].frames in a.paths
    ensures PrefixTotal(samples, path) == 0 && ExactTotal(samples, path) == 0
  {
    if samples != [] {
      var init, s := samples[..|samples| - 1], samples[|samples| - 1];
      forall n | 0 <= n < |init| ensures init[n].frames in a.paths {
        assert init[n] == samples[n];
      }
      UnknownPath(a, init, path);
      if path <= s.frames { KnownPrefix(a, s.frames, path); }
    }
  }

  lemma InsertNode(a: Arena, samples: seq<Sample>, s: Sample, b: Arena, j: nat, i: nat)
    requires Summed(a, samples) && Covers(a, samples) && Grown(a, b)
    requires j < |b.nodes| && b.paths[j] == s.frames && i < |b.nodes|
    requires Forward(Bump(b.nodes, j, s.count))
    ensures Shape(b) && NodeSummed(b.(nodes := Bump(b.nodes, j, s.count)), samples + [s], i)
  {
    SubtotalBump(b, j, s.count, i);
    assert (samples + [s])[..|samples|] == samples;
    assert b.paths[i] == b.paths[j] <==> i == j;
    if i < |a.nodes| {
      assert b.paths[i] == a.paths[i];
      assert NodeSummed(a, samples, i);
    } else {
      assert forall k :: 0 <= k < |a.paths| ==> a.paths[k] == b.paths[k] != b.paths[i];
      UnknownPath(a, samples, b.paths[i]);
    }
  }

  lemma InsertSummed(a: Arena, samples: seq<Sample>, s: Sample)
    requires Summed(a, samples) && Covers(a, samples)
    ensures Summed(Inserted(a, s), samples + [s])
  {
    hide Covers, NodeSummed, Descend, Grown;
    DescendMeaning(a, 0, s.frames);
    var (b, j) := Descend(a, 0, s.frames);
    assert a.paths[0] + s.frames == s.frames;
    var c := Inserted(a, s);
    ShapeForward(c);
    forall i | 0 <= i < |c.nodes| ensures NodeSummed(c, samples + [s], i) {
      InsertNode(a, samples, s, b, j, i);
    }
  }

  /** New nodes lie on the way to the frames walked down. */
  lemma {:induction false} DescendOnWay(a: Arena, at: nat, frames: seq<string>, i: nat)
    requires Shape(a) && at < |a.nodes|
    requires |a.nodes| <= i < |Descend(a, at, frames).0.nodes|
    ensures Descend(a, at, frames).0.paths[i] <= a.paths[at] + frames
    decreases |frames|
  {
    hide ChildrenOk, HasParent, Grown;
    if frames != [] {
      var (b, c) := StepDown(a, at, frames[0]);
      assert b.paths[c] + frames[1..] == a.paths[at] + frames;
      DescendMeaning(b, c, frames[1..]);
      if i < |b.nodes| {
        assert GrownPaths(b, Descend(b, c, frames[1..]).0) by { PathsOfGrown(b, Descend(b, c, frames[1..]).0); }
        assert b.paths[i] == a.paths[at] + [frames[0]];
      } else {
        DescendOnWay(b, c, frames[1..], i);
      }
    }
  }

  predicate GrownPaths(a: Arena, b: Arena) {
    a.paths <= b.paths
  }

  lemma PathsOfGrown(a: Arena, b: Arena)
    requires Grown(a, b)
    ensures GrownPaths(a, b)
  {
  }

  lemma InsertCovers(a: Arena, samples: seq<Sample>, s: Sample)
    requires Shape(a) && Covers(a, samples)
    ensures Covers(Inserted(a, s), samples + [s])
  {
    hide ChildrenOk, HasParent, Grown;
    DescendMeaning(a, 0, s.frames);
    var (b, j) := Descend(a, 0, s.frames);
    PathsOfGrown(a, b);
    assert a.paths[0] + s.frames == s.frames;
    var all := samples + [s];
    forall n | 0 <= n < |all| ensures all[n].frames in b.paths {
      if n < |samples| {
        var k :| 0 <= k < |a.paths| && a.paths[k] == samples[n].frames;
        assert b.paths[k] == all[n].frames;
      } else {
        assert b.paths[j] == s.frames;
      }
    }
    forall i | 0 < i < |b.paths| ensures OnSome(all, b.paths[i]) {
      if i < |a.paths| {
        assert OnSome(samples, a.paths[i]);
        OnSomeMore(samples, s, a.paths[i]);
      } else {
        DescendOnWay(a, 0, s.frames, i);
        OnLast(samples, s, b.paths[i]);
      }
    }
  }

  lemma OnSomeMore(samples: seq<Sample>, s: Sample, path: seq<string>)
    requires OnSome(samples, path)
    ensures OnSome(samples + [s], path)
  {
    var n :| 0 <= n < |samples| && path <= samples[n].frames;
    assert path <= (samples + [s])[n].frames;
  }

  lemma OnLast(samples: seq<Sample>, s: Sample, path: seq<string>)
    requires path <= s.frames
    ensures OnSome(samples + [s], path)
  {
    assert path <= (samples + [s])[|samples|].frames;
  }

  /**
   Trie correctness before propagation: for every list of accepted lines, a node's own value
   counts the stacks equal to its path, its total counts the stacks starting with its path,
   every stack has a node and every node is on some stack.
   */
  lemma {:induction false} BuildMeaning(samples: seq<Sample>)
    ensures Summed(Build(samples), samples) && Covers(Build(samples), samples)
  {
    hide Summed, Covers, Inserted;
    if samples == [] {
      EmptyMeaning();
    } else {
      var init, s := samples[..|samples| - 1], samples[|samples| - 1];
      BuildMeaning(init);
      InsertSummed(Build(init), init, s);
      InsertCovers(Build(init), init, s);
      assert init + [s] == samples;
    }
  }

  lemma EmptyMeaning()
    ensures Summed(EmptyTree(), []) && Covers(EmptyTree(), [])
  {
  }

  // ----- Propagation -----

  /** The nodes with every value replaced by the total below. */
  function Propagated(nodes: seq<Node>): (r: seq<Node>)
    requires Forward(nodes)
    ensures |r| == |nodes|
    ensures forall i :: 0 <= i < |r| ==> r[i] == nodes[i].(value := Subtotal(nodes, i))
  {
    seq(|nodes|, i requires 0 <= i < |nodes| => nodes[i].(value := Subtotal(nodes, i)))
  }

  function ValueSum(nodes: seq<Node>, children: seq<nat>, k: nat): int
    requires k <= |children| && forall x :: 0 <= x < |children| ==> children[x] < |nodes|
  {
    if k == 0 then 0 else ValueSum(nodes, children, k - 1) + nodes[children[k - 1]].value
  }

  lemma {:induction false} ValueSumOfPropagated(nodes: seq<Node>, i: nat, k: nat)
    requires Forward(nodes) && i < |nodes| && k <= |nodes[i].children|
    ensures forall x :: 0 <= x < |nodes[i].children| ==> nodes[i].children[x] < |nodes|
    ensures ValueSum(Propagated(nodes), nodes[i].children, k) == ChildSum(nodes, i, k)
  {
    if k > 0 { ValueSumOfPropagated(nodes, i, k - 1); }
  }

  /** What a node's value exceeds its children's values by. */
  function SelfValue(nodes: seq<Node>, i: nat): int
    requires Forward(nodes) && i < |nodes|
  {
    nodes[i].value - ValueSum(nodes, nodes[i].children, |nodes[i].children|)
  }

  lemma PropagatedForward(nodes: seq<Node>)
    requires Forward(nodes)
    ensures Forward(Propagated(nodes))
  {
  }

  /** Subtracting the children undoes propagation. */
  lemma SelfOfPropagated(nodes: seq<Node>, i: nat)
    requires Forward(nodes) && i < |nodes|
    ensures Forward(Propagated(nodes)) && SelfValue(Propagated(nodes), i) == nodes[i].value
  {
    PropagatedForward(nodes);
    ValueSumOfPropagated(nodes, i, |nodes[i].children|);
  }

  // ----- The builder, with nodes updated in place -----

  /** `round` is the arithmetic of the host: exact in Python, exact up to 2^53 in TypeScript. */
  ghost predicate ExactUpTo(round: int -> int, limit: int) {
    forall n :: 0 <= n <= limit ==> round(n) == n
  }

  /** Values between 0 and `most`. */
  predicate Within(nodes: seq<Node>, most: int) {
    most >= 0 && forall i :: 0 <= i < |nodes| ==> 0 <= nodes[i].value <= most
  }

  lemma {:induction false} SubtotalNonNegative(nodes: seq<Node>, i: nat)
    requires Forward(nodes) && i < |nodes| && forall j :: 0 <= j < |nodes| ==> nodes[j].value >= 0
    ensures nodes[i].value <= Subtotal(nodes, i)
    decreases |nodes| - i, |nodes[i].children| + 1
  {
    ChildSumMonotone(nodes, i, 0, |nodes[i].children|);
  }

  lemma {:induction false} ChildSumMonotone(nodes: seq<Node>, i: nat, k: nat, m: nat)
    requires Forward(nodes) && i < |nodes| && forall j :: 0 <= j < |nodes| ==> nodes[j].value >= 0
    requires k <= m <= |nodes[i].children|
    ensures 0 <= ChildSum(nodes, i, k) <= ChildSum(nodes, i, m)
    decreases |nodes| - i, m
  {
    if k < m {
      ChildSumMonotone(nodes, i, k, m - 1);
      SubtotalNonNegative(nodes, nodes[i].children[m - 1]);
    } else if k > 0 {
      ChildSumMonotone(nodes, i, k - 1, k - 1);
      SubtotalNonNegative(nodes, nodes[i].children[k - 1]);
    }
  }

  // ----- Trees that differ in values only -----

  /** The same names and the same children in the same order. */
  predicate Alike(a: seq<Node>, b: seq<Node>) {
    |a| == |b| && forall i :: 0 <= i < |a| ==> a[i].name == b[i].name && a[i].children == b[i].children
  }

  predicate AlikeArenas(a: Arena, b: Arena) {
    Alike(a.nodes, b.nodes) && a.paths == b.paths
  }

  lemma AlikeShape(a: Arena, b: Arena)
    requires Shape(a) && AlikeArenas(a, b)
    ensures Shape(b)
  {
    forall i | 0 <= i < |b.nodes| ensures ChildrenOk(b, i) {
      assert ChildrenOk(a, i);
    }
    forall j | 0 < j < |b.nodes| ensures HasParent(b, j) {
      assert HasParent(a, j);
      var p :| 0 <= p < |a.nodes| && IsParent(a, p, j);
      assert IsParent(b, p, j);
    }
  }

  lemma {:induction false} FindAlike(a: seq<Node>, b: seq<Node>, children: seq<nat>, name: string)
    requires Alike(a, b) && forall x :: 0 <= x < |children| ==> children[x] < |a|
    ensures FindChild(a, children, name) == FindChild(b, children, name)
  {
    if children != [] { FindAlike(a, b, children[1..], name); }
  }

  lemma StepDownAlike(a: Arena, b: Arena, at: nat, name: string)
    requires Shape(a) && Shape(b) && AlikeArenas(a, b) && at < |a.nodes|
    ensures var (a', x) := StepDown(a, at, name); var (b', y) := StepDown(b, at, name); AlikeArenas(a', b') && x == y
  {
    assert ChildrenOk(a, at);
    FindAlike(a.nodes, b.nodes, a.nodes[at].children, name);
  }

  lemma {:induction false} DescendAlike(a: Arena, b: Arena, at: nat, frames: seq<string>)
    requires Shape(a) && Shape(b) && AlikeArenas(a, b) && at < |a.nodes|
    ensures var (a', x) := Descend(a, at, frames); var (b', y) := Descend(b, at, frames); AlikeArenas(a', b') && x == y
    decreases |frames|
  {
    hide StepDown, Shape, AlikeArenas;
    if frames != [] {
      AlikeLength(a, b);
      StepDownAlike(a, b, at, frames[0]);
      DescendAlike(StepDown(a, at, frames[0]).0, StepDown(b, at, frames[0]).0, StepDown(a, at, frames[0]).1, frames[1..]);
    }
  }

  lemma AlikeLength(a: Arena, b: Arena)
    requires AlikeArenas(a, b)
    ensures |a.nodes| == |b.nodes|
  {
  }

  /** Which nodes a line adds does not depend on the values. */
  lemma InsertedAlike(a: Arena, b: Arena, s: Sample)
    requires Shape(a) && Shape(b) && AlikeArenas(a, b)
    ensures AlikeArenas(Inserted(a, s), Inserted(b, s))
  {
    hide Descend, Shape;
    RootExists(a);
    DescendAlike(a, b, 0, s.frames);
  }

  lemma RootExists(a: Arena)
    requires Shape(a)
    ensures 0 < |a.nodes|
  {
  }

  class TreeBuilder {
    var nodes: seq<Node>
    ghost var paths: seq<seq<string>>

    ghost function Contents(): Arena
      reads this
    {
      Arena(nodes, paths)
    }

    constructor ()
      ensures Contents() == EmptyTree()
    {
      nodes, paths := [Node(ROOT, 0, [])], [[]];
    }

    /** The child of `node` with the given name, appended if it is missing. */
    method Enter(node: nat, name: string) returns (child: nat)
      requires Shape(Contents()) && node < |nodes|
      modifies this
      ensures Shape(old(Contents())) && (Contents(), child) == StepDown(old(Contents()), node, name)
      ensures forall i :: 0 <= i < |nodes| ==> nodes[i].value == if i < |old(nodes)| then old(nodes)[i].value else 0
    {
      hide HasParent;
      assert ChildrenOk(Contents(), node);
      var found := Find(node, name);
      if found.Some? { return found.value; }
      child := |nodes|;
      nodes := nodes[node := nodes[node].(children := nodes[node].children + [child])] + [Node(name, 0, [])];
      paths := paths + [paths[node] + [name]];
    }

    /**
     The loop over the frames of one line, and the addition at the node it ends at: the tree of the
     specification, with its values if the addition is exact.
     */
    method Insert(frames: seq<string>, count: nat, round: int -> int, ghost limit: int)
      requires Shape(Contents())
      modifies this
      ensures Shape(old(Contents())) && AlikeArenas(Contents(), Inserted(old(Contents()), Sample(frames, count)))
      ensures ExactUpTo(round, limit) && Within(old(nodes), limit - count)
          ==> Contents() == Inserted(old(Contents()), Sample(frames, count))
    {
      hide Shape, StepDown;
      var node: nat := 0;
      RootExists(Contents());
      for n := 0 to |frames|
        invariant Shape(Contents()) && node < |nodes|
        invariant Shape(old(Contents())) && 0 < |old(nodes)|
        invariant Descend(old(Contents()), 0, frames) == Descend(Contents(), node, frames[n..])
        invariant Within(old(nodes), limit - count) ==> Within(nodes, limit - count)
      {
        assert frames[n..][0] == frames[n] && frames[n..][1..] == frames[n + 1..];
        node := Enter(node, frames[n]);
      }
      assert frames[|frames|..] == [];
      nodes := nodes[node := nodes[node].(value := round(nodes[node].value + count))];
    }

    /** The search among a node's children. */
    method Find(node: nat, name: string) returns (r: Option<nat>)
      requires node < |nodes| && forall x :: 0 <= x < |nodes[node].children| ==> nodes[node].children[x] < |nodes|
      ensures r == FindChild(nodes, nodes[node].children, name)
    {
      var children := nodes[node].children;
      for x := 0 to |children|
        invariant FindChild(nodes, children, name) == FindChild(nodes, children[x..], name)
      {
        assert children[x..][1..] == children[x + 1..];
        if nodes[children[x]].name == name { return Some(children[x]); }
      }
      return None;
    }

    /**
     `_propagate` from node `i` of the tree `a`: only values change, and if additions are exact, those of
     `i` and everything below it become their totals.
     */
    method Propagate(i: nat, round: int -> int, ghost limit: int, ghost a: Arena) returns (total: int)
      requires Shape(a) && Forward(a.nodes) && i < |nodes| && Alike(nodes, a.nodes)
      modifies this`nodes
      ensures Alike(nodes, a.nodes)
      ensures Propagable(a, old(nodes), i, round, limit) ==>
                && total == Subtotal(a.nodes, i)
                && forall j :: 0 <= j < |nodes| ==> nodes[j] == if a.paths[i] <= a.paths[j] then Final(a, j) else old(nodes)[j]
      decreases |a.nodes| - i
    {
      hide Shape, Subtotal, Leads;
      ghost var exact := Propagable(a, nodes, i, round, limit);
      if exact { NodeFacts(a, i); }
      var children := nodes[i].children;
      if children == [] { return nodes[i].value; }
      var sum := 0;
      for x := 0 to |children|
        invariant Alike(nodes, a.nodes)
        invariant exact ==> sum == ChildSum(a.nodes, i, x)
        invariant exact ==> forall j :: 0 <= j < |nodes| ==>
                    nodes[j] == if Leads(a, i, x, a.paths[j]) then Final(a, j) else old(nodes)[j]
      {
        if exact { ChildFacts(a, nodes, old(nodes), i, x); }
        var value := Propagate(children[x], round, limit, a);
        sum := round(sum + value);
      }
      nodes := nodes[i := nodes[i].(value := round(nodes[i].value + sum))];
      total := nodes[i].value;
    }
  }

  /** Nothing below `i` is overwritten yet, and adding up what is below stays within what `round` keeps. */
  ghost predicate Propagable(a: Arena, nodes: seq<Node>, i: nat, round: int -> int, limit: int)
    requires Shape(a) && Forward(a.nodes) && i < |a.nodes| == |nodes|
  {
    && Untouched(a, nodes, i) && ExactUpTo(round, limit) && Subtotal(a.nodes, i) <= limit
    && forall j :: 0 <= j < |a.nodes| ==> a.nodes[j].value >= 0
  }

  function Final(a: Arena, j: nat): Node
    requires Forward(a.nodes) && j < |a.nodes|
  {
    a.nodes[j].(value := Subtotal(a.nodes, j))
  }

  /** Nothing below `i` has been overwritten yet. */
  ghost predicate Untouched(a: Arena, nodes: seq<Node>, i: nat)
    requires i < |a.nodes| == |nodes| && Shape(a)
  {
    forall j :: 0 <= j < |nodes| && a.paths[i] <= a.paths[j] ==> nodes[j] == a.nodes[j]
  }

  /** What `_propagate` needs to know about a node. */
  lemma NodeFacts(a: Arena, i: nat)
    requires Shape(a) && Forward(a.nodes) && i < |a.nodes|
    requires forall j :: 0 <= j < |a.nodes| ==> a.nodes[j].value >= 0
    ensures |a.paths| == |a.nodes|
    ensures var k := |a.nodes[i].children|;
            && Subtotal(a.nodes, i) == a.nodes[i].value + ChildSum(a.nodes, i, k)
            && ChildSum(a.nodes, i, 0) == 0 <= ChildSum(a.nodes, i, k)
            && (forall j :: 0 <= j < |a.nodes| ==> !Leads(a, i, 0, a.paths[j]))
            && (forall j :: 0 <= j < |a.nodes| ==> (a.paths[i] <= a.paths[j] <==> j == i || Leads(a, i, k, a.paths[j])))
            && !Leads(a, i, k, a.paths[i])
  {
    var k := |a.nodes[i].children|;
    ChildSumMonotone(a.nodes, i, 0, k);
    forall j | 0 <= j < |a.nodes|
      ensures a.paths[i] <= a.paths[j] <==> j == i || Leads(a, i, k, a.paths[j])
      ensures Leads(a, i, k, a.paths[j]) ==> a.paths[i] < a.paths[j]
    {
      if Leads(a, i, k, a.paths[j]) {
        var x :| 0 <= x < k && ChildOn(a, i, x, a.paths[j]);
        OneChildOn(a, i, x, x, a.paths[j]);
      } else if a.paths[i] < a.paths[j] {
        var x := ChildTowards(a, i, j);
        assert ChildOn(a, i, x, a.paths[j]);
      }
    }
  }

  lemma ChildFacts(a: Arena, nodes: seq<Node>, before: seq<Node>, i: nat, x: nat)
    requires Shape(a) && Forward(a.nodes) && i < |a.nodes| == |nodes| == |before| && x < |a.nodes[i].children|
    requires Untouched(a, before, i)
    requires forall j :: 0 <= j < |nodes| ==> nodes[j] == if Leads(a, i, x, a.paths[j]) then Final(a, j) else before[j]
    requires forall j :: 0 <= j < |a.nodes| ==> a.nodes[j].value >= 0
    ensures |a.paths| == |a.nodes|
    ensures var c := a.nodes[i].children[x];
            && i < c < |nodes| && Untouched(a, nodes, c)
            && ChildSum(a.nodes, i, x + 1) == ChildSum(a.nodes, i, x) + Subtotal(a.nodes, c)
            && 0 <= Subtotal(a.nodes, c) && 0 <= ChildSum(a.nodes, i, x)
            && ChildSum(a.nodes, i, x + 1) <= Subtotal(a.nodes, i)
            && (forall j :: 0 <= j < |nodes| ==>
                  (Leads(a, i, x + 1, a.paths[j]) <==> Leads(a, i, x, a.paths[j]) || a.paths[c] <= a.paths[j]))
  {
    hide Shape, Leads;
    var c, k := a.nodes[i].children[x], |a.nodes[i].children|;
    forall j | 0 <= j < |nodes|
      ensures |a.paths| == |a.nodes|
      ensures Leads(a, i, x + 1, a.paths[j]) <==> Leads(a, i, x, a.paths[j]) || a.paths[c] <= a.paths[j]
      ensures a.paths[c] <= a.paths[j] ==> nodes[j] == a.nodes[j]
    {
      LeadsNext(a, i, x, j);
    }
    SubtotalNonNegative(a.nodes, c);
    ChildSumMonotone(a.nodes, i, x, x + 1);
    ChildSumMonotone(a.nodes, i, x + 1, k);
  }

  lemma LeadsNext(a: Arena, i: nat, x: nat, j: nat)
    requires Shape(a) && i < |a.nodes| && x < |a.nodes[i].children| && j < |a.nodes|
    ensures |a.paths| == |a.nodes|
    ensures var c := a.nodes[i].children[x];
            && c < |a.nodes|
            && (Leads(a, i, x + 1, a.paths[j]) <==> Leads(a, i, x, a.paths[j]) || a.paths[c] <= a.paths[j])
            && (a.paths[c] <= a.paths[j] ==> !Leads(a, i, x, a.paths[j]) && a.paths[i] < a.paths[j])
  {
    assert ChildrenOk(a, i);
    LeadsStep(a, i, x + 1, a.paths[j]);
  }
}
