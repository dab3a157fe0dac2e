/**
 The flame-graph tree.  Nodes live in a list and refer to their children by index, as the
 Python and TypeScript objects refer to theirs; `paths` names each node by the frames leading
 to it and is used for specification only.
 */
module FlameArena {
  import opened Wrappers

  datatype Node = Node(name: string, value: int, children: seq<nat>)

  datatype Arena = Arena(nodes: seq<Node>, paths: seq<seq<string>>)

  // ----- Shape -----

  /** Children come later than their parent and are named once each by parent path and name. */
  predicate ChildrenOk(a: Arena, i: nat)
    requires i < |a.nodes| == |a.paths|
  {
    var cs := a.nodes[i].children;
    && (forall x :: 0 <= x < |cs| ==> i < cs[x] < |a.nodes| && a.paths[cs[x]] == a.paths[i] + [a.nodes[cs[x]].name])
    && (forall x, y :: 0 <= x < y < |cs| ==> cs[x] != cs[y])
  }

  predicate IsParent(a: Arena, i: nat, j: nat)
    requires i < |a.nodes| == |a.paths| && j < |a.nodes|
  {
    j in a.nodes[i].children && a.paths[j] == a.paths[i] + [a.nodes[j].name]
  }

  predicate HasParent(a: Arena, j: nat)
    requires j < |a.nodes| == |a.paths|
  {
    exists i :: 0 <= i < |a.nodes| && IsParent(a, i, j)
  }

  ghost predicate Shape(a: Arena) {
    && |a.nodes| == |a.paths| > 0
    && a.paths[0] == []
    && (forall i :: 0 <= i < |a.nodes| ==> ChildrenOk(a, i))
    && (forall j :: 0 < j < |a.nodes| ==> HasParent(a, j))
    && (forall i, j :: 0 <= i < j < |a.nodes| ==> a.paths[i] != a.paths[j])
  }

  /** Siblings have distinct names. */
  lemma SiblingsDiffer(a: Arena, i: nat, x: nat, y: nat)
    requires Shape(a) && i < |a.nodes| && x < y < |a.nodes[i].children|
    ensures a.nodes[i].children[x] < |a.nodes| && a.nodes[i].children[y] < |a.nodes|
    ensures a.nodes[a.nodes[i].children[x]].name != a.nodes[a.nodes[i].children[y]].name
  {
    assert ChildrenOk(a, i);
    var c, d := a.nodes[i].children[x], a.nodes[i].children[y];
    assert c != d;
    assert a.paths[c] != a.paths[d];
  }

  /** On the way from a node to a deeper one below it lies one of its children. */
  lemma {:induction false} ChildTowards(a: Arena, i: nat, j: nat) returns (x: nat)
    requires Shape(a) && i < |a.nodes| && j < |a.nodes| && a.paths[i] < a.paths[j]
    ensures x < |a.nodes[i].children| && a.nodes[i].children[x] < |a.nodes|
    ensures a.paths[a.nodes[i].children[x]] <= a.paths[j]
    decreases |a.paths[j]|
  {
    assert j > 0;
    assert HasParent(a, j);
    var p :| 0 <= p < |a.nodes| && IsParent(a, p, j);
    if |a.paths[p]| == |a.paths[i]| {
      assert a.paths[p] == a.paths[i];
      x :| 0 <= x < |a.nodes[p].children| && a.nodes[p].children[x] == j;
    } else {
      assert a.paths[i] < a.paths[p];
      x := ChildTowards(a, i, p);
    }
  }

  /** Every prefix of a node's path is a node's path. */
  lemma {:induction false} PrefixNode(a: Arena, j: nat, n: nat) returns (i: nat)
    requires Shape(a) && j < |a.nodes| && n <= |a.paths[j]|
    ensures i < |a.nodes| && a.paths[i] == a.paths[j][..n]
    decreases |a.paths[j]|
  {
    if n == |a.paths[j]| {
      i := j;
    } else {
      assert HasParent(a, j);
      var p :| 0 <= p < |a.nodes| && IsParent(a, p, j);
      i := PrefixNode(a, p, n);
    }
  }

  // ----- Totals below a node -----

  /** Children point forward: enough for the recursion of `_propagate` to end. */
  predicate Forward(nodes: seq<Node>) {
    forall i, x :: 0 <= i < |nodes| && 0 <= x < |nodes[i].children| ==> i < nodes[i].children[x] < |nodes|
  }

  lemma ShapeForward(a: Arena)
    requires Shape(a)
    ensures Forward(a.nodes)
  {
    forall i, x | 0 <= i < |a.nodes| && 0 <= x < |a.nodes[i].children|
      ensures i < a.nodes[i].children[x] < |a.nodes|
    {
      assert ChildrenOk(a, i);
    }
  }

  function Subtotal(nodes: seq<Node>, i: nat): int
    requires Forward(nodes) && i < |nodes|
    decreases |nodes| - i, |nodes[i].children| + 1
  {
    nodes[i].value + ChildSum(nodes, i, |nodes[i].children|)
  }

  function ChildSum(nodes: seq<Node>, i: nat, k: nat): int
    requires Forward(nodes) && i < |nodes| && k <= |nodes[i].children|
    decreases |nodes| - i, k
  {
    if k == 0 then 0 else ChildSum(nodes, i, k - 1) + Subtotal(nodes, nodes[i].children[k - 1])
  }

  // ----- Adding to one node -----

  function Bump(nodes: seq<Node>, j: nat, n: int): seq<Node>
    requires j < |nodes|
  {
    nodes[j := nodes[j].(value := nodes[j].value + n)]
  }

  /** Some of the first `k` children of `i` lies on the way to `path`. */
  predicate Leads(a: Arena, i: nat, k: nat, path: seq<string>)
    requires Shape(a) && i < |a.nodes| && k <= |a.nodes[i].children|
  {
    exists x :: 0 <= x < k && ChildOn(a, i, x, path)
  }

  predicate ChildOn(a: Arena, i: nat, x: nat, path: seq<string>)
    requires Shape(a) && i < |a.nodes| && x < |a.nodes[i].children|
  {
    a.nodes[i].children[x] < |a.nodes| && a.paths[a.nodes[i].children[x]] <= path
  }

  /** At most one child lies on the way to a path, and then the node itself does. */
  lemma OneChildOn(a: Arena, i: nat, x: nat, y: nat, path: seq<string>)
    requires Shape(a) && i < |a.nodes| && x < |a.nodes[i].children| && y < |a.nodes[i].children|
    requires ChildOn(a, i, x, path)
    ensures a.paths[i] < path
    ensures ChildOn(a, i, y, path) ==> x == y
  {
    assert ChildrenOk(a, i);
    var c, d := a.nodes[i].children[x], a.nodes[i].children[y];
    if a.paths[d] <= path {
      assert a.paths[c] == path[..|a.paths[c]|] == a.paths[d];
    }
  }

  lemma {:induction false} SubtotalBump(a: Arena, j: nat, n: int, i: nat)
    requires Shape(a) && j < |a.nodes| && i < |a.nodes| && Forward(a.nodes) && Forward(Bump(a.nodes, j, n))
    ensures Subtotal(Bump(a.nodes, j, n), i) == Subtotal(a.nodes, i) + if a.paths[i] <= a.paths[j] then n else 0
    decreases |a.nodes| - i, |a.nodes[i].children| + 1
  {
    var k := |a.nodes[i].children|;
    ChildSumBump(a, j, n, i, k);
    if a.paths[i] < a.paths[j] {
      var x := ChildTowards(a, i, j);
      assert ChildOn(a, i, x, a.paths[j]);
    } else if Leads(a, i, k, a.paths[j]) {
      var x :| 0 <= x < k && ChildOn(a, i, x, a.paths[j]);
      OneChildOn(a, i, x, x, a.paths[j]);
    }
    assert i != j ==> a.paths[i] != a.paths[j];
  }

  lemma {:induction false} ChildSumBump(a: Arena, j: nat, n: int, i: nat, k: nat)
    requires Shape(a) && j < |a.nodes| && i < |a.nodes| && Forward(a.nodes) && Forward(Bump(a.nodes, j, n))
    requires k <= |a.nodes[i].children|
    ensures Bump(a.nodes, j, n)[i].children == a.nodes[i].children
    ensures ChildSum(Bump(a.nodes, j, n), i, k)
         == ChildSum(a.nodes, i, k) + if Leads(a, i, k, a.paths[j]) then n else 0
    decreases |a.nodes| - i, k
  {
    if k > 0 {
      assert ChildrenOk(a, i);
      ChildSumBump(a, j, n, i, k - 1);
      SubtotalBump(a, j, n, a.nodes[i].children[k - 1]);
      LeadsStep(a, i, k, a.paths[j]);
    }
  }

  lemma LeadsStep(a: Arena, i: nat, k: nat, path: seq<string>)
    requires Shape(a) && i < |a.nodes| && 0 < k <= |a.nodes[i].children|
    ensures Leads(a, i, k, path) <==> Leads(a, i, k - 1, path) || ChildOn(a, i, k - 1, path)
    ensures !(Leads(a, i, k - 1, path) && ChildOn(a, i, k - 1, path))
  {
    if Leads(a, i, k - 1, path) {
      var x :| 0 <= x < k - 1 && ChildOn(a, i, x, path);
      OneChildOn(a, i, x, k - 1, path);
    }
  }

  lemma BumpShape(a: Arena, j: nat, n: int)
    requires Shape(a) && j < |a.nodes|
    ensures Shape(a.(nodes := Bump(a.nodes, j, n)))
  {
    var b := a.(nodes := Bump(a.nodes, j, n));
    forall i | 0 <= i < |b.nodes| ensures ChildrenOk(b, i) {
      assert ChildrenOk(a, i);
    }
    forall i | 0 < i < |b.nodes| ensures HasParent(b, i) {
      assert HasParent(a, i);
      var p :| 0 <= p < |a.nodes| && IsParent(a, p, i);
      assert IsParent(b, p, i);
    }
  }

  // ----- Walking down -----

  /** First child with the given name. */
  function FindChild(nodes: seq<Node>, children: seq<nat>, name: string): (r: Option<nat>)
    requires forall x :: 0 <= x < |children| ==> children[x] < |nodes|
    ensures r.Some? ==> r.value in children && nodes[r.value].name == name
    ensures r.None? ==> forall x :: 0 <= x < |children| ==> nodes[children[x]].name != name
  {
    if children == [] then None
    else if nodes[children[0]].name == name then Some(children[0])
    else FindChild(nodes, children[1..], name)
  }

  /** A new child, with value 0 and no children, at the end of its parent's list. */
  function AddChild(a: Arena, at: nat, name: string): Arena
    requires at < |a.nodes| == |a.paths|
  {
    Arena(a.nodes[at := a.nodes[at].(children := a.nodes[at].children + [|a.nodes|])] + [Node(name, 0, [])],
          a.paths + [a.paths[at] + [name]])
  }

  /** A node one step below `at` is a child of it. */
  lemma NamedChild(a: Arena, at: nat, j: nat, name: string) returns (x: nat)
    requires Shape(a) && at < |a.nodes| && j < |a.nodes| && a.paths[j] == a.paths[at] + [name]
    ensures x < |a.nodes[at].children| && a.nodes[at].children[x] < |a.nodes|
    ensures a.nodes[a.nodes[at].children[x]].name == name
  {
    x := ChildTowards(a, at, j);
    assert ChildrenOk(a, at);
    var c, n := a.nodes[at].children[x], |a.paths[at]|;
    assert a.paths[c][n] == a.nodes[c].name && a.paths[j][n] == name;
  }

  lemma AddChildNew(a: Arena, at: nat, name: string)
    requires Shape(a) && at < |a.nodes|
    requires forall x :: 0 <= x < |a.nodes[at].children| ==>
               a.nodes[at].children[x] < |a.nodes| && a.nodes[a.nodes[at].children[x]].name != name
    ensures a.paths[at] + [name] !in a.paths
  {
    if a.paths[at] + [name] in a.paths {
      var j :| 0 <= j < |a.paths| && a.paths[j] == a.paths[at] + [name];
      var x := NamedChild(a, at, j, name);
    }
  }

  lemma AddChildShape(a: Arena, at: nat, name: string)
    requires Shape(a) && at < |a.nodes| && a.paths[at] + [name] !in a.paths
    ensures Shape(AddChild(a, at, name))
  {
    hide ChildrenOk, HasParent;
    var b := AddChild(a, at, name);
    forall i | 0 <= i < |b.nodes| ensures ChildrenOk(b, i) {
      AddChildChildren(a, at, name, i);
    }
    forall j | 0 < j < |b.nodes| ensures HasParent(b, j) {
      AddChildParent(a, at, name, j);
    }
  }

  lemma AddChildChildren(a: Arena, at: nat, name: string, i: nat)
    requires Shape(a) && at < |a.nodes| && i <= |a.nodes|
    ensures ChildrenOk(AddChild(a, at, name), i)
  {
    hide HasParent;
    if i < |a.nodes| { assert ChildrenOk(a, i); }
  }

  lemma AddChildParent(a: Arena, at: nat, name: string, j: nat)
    requires Shape(a) && at < |a.nodes| && 0 < j <= |a.nodes|
    ensures HasParent(AddChild(a, at, name), j)
  {
    hide ChildrenOk;
    var b := AddChild(a, at, name);
    if j < |a.nodes| {
      assert HasParent(a, j);
      var p :| 0 <= p < |a.nodes| && IsParent(a, p, j);
      assert IsParent(b, p, j);
    } else {
      assert b.nodes[at].children[|a.nodes[at].children|] == j;
      assert IsParent(b, at, j);
    }
  }

  lemma {:induction false} SubtotalAdd(a: Arena, b: Arena, at: nat, name: string, i: nat)
    requires at < |a.nodes| == |a.paths| && b == AddChild(a, at, name)
    requires Forward(a.nodes) && Forward(b.nodes) && i < |a.nodes|
    ensures Subtotal(b.nodes, i) == Subtotal(a.nodes, i)
    decreases |a.nodes| - i, |a.nodes[i].children| + 1
  {
    ChildSumAdd(a, b, at, name, i, |a.nodes[i].children|);
    assert Subtotal(b.nodes, |a.nodes|) == 0;
  }

  lemma {:induction false} ChildSumAdd(a: Arena, b: Arena, at: nat, name: string, i: nat, k: nat)
    requires at < |a.nodes| == |a.paths| && b == AddChild(a, at, name)
    requires Forward(a.nodes) && Forward(b.nodes) && i < |a.nodes| && k <= |a.nodes[i].children|
    ensures k <= |b.nodes[i].children| && ChildSum(b.nodes, i, k) == ChildSum(a.nodes, i, k)
    decreases |a.nodes| - i, k
  {
    if k > 0 {
      ChildSumAdd(a, b, at, name, i, k - 1);
      SubtotalAdd(a, b, at, name, a.nodes[i].children[k - 1]);
    }
  }

  /** What walking down a stack from `at` keeps: old nodes, their values and totals; new nodes are empty. */
  ghost predicate Grown(a: Arena, b: Arena) {
    && Shape(a) && Shape(b) && Forward(a.nodes) && Forward(b.nodes)
    && a.paths <= b.paths
    && (forall i :: 0 <= i < |a.nodes| ==>
          b.nodes[i].name == a.nodes[i].name && b.nodes[i].value == a.nodes[i].value
          && Subtotal(b.nodes, i) == Subtotal(a.nodes, i))
    && (forall i :: |a.nodes| <= i < |b.nodes| ==> b.nodes[i].value == 0 && Subtotal(b.nodes, i) == 0)
  }

  lemma AddChildGrown(a: Arena, at: nat, name: string)
    requires Shape(a) && at < |a.nodes| && a.paths[at] + [name] !in a.paths
    ensures Grown(a, AddChild(a, at, name))
  {
    var b := AddChild(a, at, name);
    AddChildShape(a, at, name);
    ShapeForward(a);
    ShapeForward(b);
    forall i | 0 <= i < |a.nodes| ensures Subtotal(b.nodes, i) == Subtotal(a.nodes, i) {
      SubtotalAdd(a, b, at, name, i);
    }
  }

  lemma GrownRefl(a: Arena)
    requires Shape(a)
    ensures Grown(a, a)
  {
    ShapeForward(a);
  }

  lemma GrownTrans(a: Arena, b: Arena, c: Arena)
    requires Grown(a, b) && Grown(b, c)
    ensures Grown(a, c)
  {
  }

  /** One step down, creating the child if it is missing. */
  function StepDown(a: Arena, at: nat, name: string): (r: (Arena, nat))
    requires Shape(a) && at < |a.nodes|
    ensures Shape(r.0) && r.1 < |r.0.nodes| && r.0.paths[r.1] == a.paths[at] + [name]
  {
    assert ChildrenOk(a, at);
    match FindChild(a.nodes, a.nodes[at].children, name)
    case Some(c) => (a, c)
    case None => AddChildNew(a, at, name); AddChildShape(a, at, name); (AddChild(a, at, name), |a.nodes|)
  }

  /** The node of `frames` below `at`, and the arena once it exists. */
  function Descend(a: Arena, at: nat, frames: seq<string>): (r: (Arena, nat))
    requires Shape(a) && at < |a.nodes|
    ensures Shape(r.0) && r.1 < |r.0.nodes|
    decreases |frames|
  {
    if frames == [] then (a, at)
    else
      var (b, c) := StepDown(a, at, frames[0]);
      Descend(b, c, frames[1..])
  }

  lemma StepDownGrown(a: Arena, at: nat, name: string)
    requires Shape(a) && at < |a.nodes|
    ensures Grown(a, StepDown(a, at, name).0)
  {
    hide Grown;
    assert ChildrenOk(a, at);
    if FindChild(a.nodes, a.nodes[at].children, name).Some? {
      GrownRefl(a);
    } else {
      AddChildNew(a, at, name);
      AddChildGrown(a, at, name);
    }
  }

  /** Walking down ends at the node of the frames and disturbs no other node. */
  lemma {:induction false} DescendMeaning(a: Arena, at: nat, frames: seq<string>)
    requires Shape(a) && at < |a.nodes|
    ensures var (b, j) := Descend(a, at, frames); Grown(a, b) && b.paths[j] == a.paths[at] + frames
    decreases |frames|
  {
    hide Grown, ChildrenOk, HasParent, StepDown;
    if frames == [] {
      GrownRefl(a);
      assert a.paths[at] + frames == a.paths[at];
    } else {
      var (b, c) := StepDown(a, at, frames[0]);
      StepDownGrown(a, at, frames[0]);
      DescendMeaning(b, c, frames[1..]);
      GrownTrans(a, b, Descend(b, c, frames[1..]).0);
      assert a.paths[at] + [frames[0]] + frames[1..] == a.paths[at] + frames;
    }
  }
}
