/**
 From lines to flame graphs: `collapsed_to_tree` in Python, `collapsedToTree` in TypeScript, why
 both give the same tree, and how the tree gives the stack counts back.
 */
module FlameGraph {
  import opened Wrappers
  import opened FoldedText
  import opened FlameText
  import opened Separated
  import opened FlameArena
  import opened FlameTree

  /** Largest integer up to which JavaScript numbers are exact. */
  const EXACT := 0x20_0000_0000_0000

  /** The samples of the lines a reader accepts. */
  function Accepted(lines: seq<string>, read: string -> Option<Sample>): seq<Sample> {
    if lines == [] then []
    else
      var init, s := Accepted(lines[..|lines| - 1], read), read(lines[|lines| - 1]);
      if s.Some? then init + [s.value] else init
  }

  function PyReader(maxDepth: int): string -> Option<Sample> {
    line => PySample(line, maxDepth)
  }

  function JsReader(): string -> Option<Sample> {
    line => JsSample(line)
  }

  /** The tree of a list of samples, values propagated. */
  function Tree(samples: seq<Sample>): seq<Node> {
    ShapeForward(Build(samples));
    Propagated(Build(samples).nodes)
  }

  // ----- The two builders -----

  lemma AcceptedTurn(lines: seq<string>, n: nat, read: string -> Option<Sample>)
    requires n < |lines|
    ensures var before, s := Accepted(lines[..n], read), read(lines[n]);
            Accepted(lines[..n + 1], read) == if s.Some? then before + [s.value] else before
  {
    assert lines[..n + 1][..n] == lines[..n];
  }

  lemma BuildTurn(samples: seq<Sample>, s: Sample)
    ensures Build(samples + [s]) == Inserted(Build(samples), s)
    ensures PrefixTotal(samples + [s], []) == PrefixTotal(samples, []) + s.count
  {
  }

  lemma {:induction false} AcceptedTotal(lines: seq<string>, n: nat, read: string -> Option<Sample>)
    requires n <= |lines|
    ensures PrefixTotal(Accepted(lines[..n], read), []) <= PrefixTotal(Accepted(lines, read), [])
  {
    if n == |lines| {
      assert lines[..n] == lines;
    } else {
      var m := |lines| - 1;
      AcceptedTotal(lines[..m], n, read);
      assert lines[..m][..n] == lines[..n];
      if read(lines[m]).Some? { BuildTurn(Accepted(lines[..m], read), read(lines[m]).value); }
    }
  }

  lemma {:induction false} ExactWithinTotal(samples: seq<Sample>, path: seq<string>)
    ensures ExactTotal(samples, path) <= PrefixTotal(samples, path) <= PrefixTotal(samples, [])
  {
    if samples != [] { ExactWithinTotal(samples[..|samples| - 1], path); }
  }

  lemma BuildValues(samples: seq<Sample>)
    ensures var nodes := Build(samples).nodes;
            && Forward(nodes) && nodes != [] && Subtotal(nodes, 0) == PrefixTotal(samples, [])
            && forall i :: 0 <= i < |nodes| ==> 0 <= nodes[i].value <= PrefixTotal(samples, [])
  {
    hide Build, Covers;
    BuildMeaning(samples);
    var a := Build(samples);
    assert NodeSummed(a, samples, 0);
    forall i | 0 <= i < |a.nodes| ensures 0 <= a.nodes[i].value <= PrefixTotal(samples, []) {
      assert NodeSummed(a, samples, i);
      ExactWithinTotal(samples, a.paths[i]);
    }
  }

  /** The line loop and the final propagation; both sources have this shape. */
  method BuildTree(lines: seq<string>, read: string -> Option<Sample>, round: int -> int, ghost limit: int)
    returns (nodes: seq<Node>)
    ensures Alike(nodes, Tree(Accepted(lines, read)))
    ensures ExactUpTo(round, limit) && PrefixTotal(Accepted(lines, read), []) <= limit ==> nodes == Tree(Accepted(lines, read))
  {
    hide Build, Inserted, Shape, Accepted, Subtotal, PrefixTotal, AlikeArenas, Alike, Within;
    ghost var exact := ExactUpTo(round, limit) && PrefixTotal(Accepted(lines, read), []) <= limit;
    var b := new TreeBuilder();
    BuildNothing(lines, read);
    AlikeRefl(EmptyTree());
    for n := 0 to |lines|
      invariant fresh(b) && Shape(b.Contents()) && AlikeArenas(b.Contents(), Build(Accepted(lines[..n], read)))
      invariant exact ==> b.Contents() == Build(Accepted(lines[..n], read))
    {
      AcceptedTurn(lines, n, read);
      ghost var before := Accepted(lines[..n], read);
      match read(lines[n])
      case None =>
      case Some(s) =>
        BuildTurn(before, s);
        if exact {
          BuildWithin(before, s.count, limit) by { AcceptedTotal(lines, n + 1, read); }
        }
        ghost var was := b.Contents();
        b.Insert(s.frames, s.count, round, limit);
        InsertedAlike(was, Build(before), s);
        AlikeTrans(b.Contents(), Inserted(was, s), Inserted(Build(before), s));
    }
    ghost var samples := Accepted(lines, read);
    assert lines[..|lines|] == lines;
    BuildValues(samples);
    ReadyToPropagate(Build(samples), b.nodes, b.paths);
    var total := b.Propagate(0, round, limit, Build(samples));
    nodes := b.nodes;
    AlikePropagated(nodes, Build(samples));
  }

  lemma BuildWithin(samples: seq<Sample>, count: nat, limit: int)
    requires PrefixTotal(samples, []) + count <= limit
    ensures Within(Build(samples).nodes, limit - count)
  {
    BuildValues(samples);
  }

  lemma AlikeRefl(a: Arena)
    ensures AlikeArenas(a, a)
  {
  }

  lemma AlikeTrans(a: Arena, b: Arena, c: Arena)
    requires AlikeArenas(a, b) && AlikeArenas(b, c) && Shape(c)
    ensures AlikeArenas(a, c) && Shape(a)
  {
    AlikeShape(c, a);
  }

  lemma ReadyToPropagate(a: Arena, nodes: seq<Node>, paths: seq<seq<string>>)
    requires Shape(a) && AlikeArenas(Arena(nodes, paths), a)
    ensures 0 < |a.nodes| == |a.paths| == |nodes| && Alike(nodes, a.nodes) && Forward(a.nodes)
    ensures nodes == a.nodes ==> Untouched(a, nodes, 0)
    ensures forall j :: 0 <= j < |a.nodes| ==> a.paths[0] <= a.paths[j]
  {
    ShapeForward(a);
  }

  lemma AlikePropagated(nodes: seq<Node>, a: Arena)
    requires Forward(a.nodes) && Alike(nodes, a.nodes)
    ensures Alike(nodes, Propagated(a.nodes))
  {
  }

  lemma BuildNothing(lines: seq<string>, read: string -> Option<Sample>)
    ensures Build(Accepted(lines[..0], read)) == EmptyTree()
  {
  }

  /** Python: integers are exact. */
  method CollapsedToTree(lines: seq<string>, maxDepth: int) returns (nodes: seq<Node>)
    ensures nodes == Tree(Accepted(lines, PyReader(maxDepth)))
  {
    nodes := BuildTree(lines, PyReader(maxDepth), n => n, PrefixTotal(Accepted(lines, PyReader(maxDepth)), []));
  }

  /**
   TypeScript: `round` is whatever addition does beyond 2^53.  Names, children and their order are those
   of the specified tree in any case, the values for totals up to 2^53.
   */
  method CollapsedToTreeTs(lines: seq<string>, round: int -> int) returns (nodes: seq<Node>)
    ensures Alike(nodes, Tree(Accepted(lines, JsReader())))
    ensures ExactUpTo(round, EXACT) && PrefixTotal(Accepted(lines, JsReader()), []) <= EXACT
        ==> nodes == Tree(Accepted(lines, JsReader()))
  {
    nodes := BuildTree(lines, JsReader(), round, EXACT);
  }

  // ----- What the tree says -----

  /** The nodes form a trie over the samples' stacks, `paths` naming each node by its frames. */
  ghost predicate IsTrie(nodes: seq<Node>, paths: seq<seq<string>>, samples: seq<Sample>) {
    && |nodes| == |paths| > 0 && paths[0] == [] && nodes[0].name == ROOT
    && (forall i, j :: 0 <= i < j < |nodes| ==> paths[i] != paths[j])
    && (forall i :: 0 <= i < |nodes| ==> NodeOfTrie(nodes, paths, samples, i))
    && (forall n :: 0 <= n < |samples| ==> samples[n].frames in paths)
  }

  /** A node is the child of the node one frame up, its children have distinct names, its value is the prefix sum. */
  ghost predicate NodeOfTrie(nodes: seq<Node>, paths: seq<seq<string>>, samples: seq<Sample>, i: nat)
    requires i < |nodes| == |paths|
  {
    && nodes[i].value == PrefixTotal(samples, paths[i])
    && (forall x :: 0 <= x < |nodes[i].children| ==>
          i < nodes[i].children[x] < |nodes| && paths[nodes[i].children[x]] == paths[i] + [nodes[nodes[i].children[x]].name])
    && (forall x, y :: 0 <= x < y < |nodes[i].children| ==>
          nodes[nodes[i].children[x]].name != nodes[nodes[i].children[y]].name)
    && (i > 0 ==> OnSome(samples, paths[i]) && ChildOfSome(nodes, i))
  }

  predicate ChildOfSome(nodes: seq<Node>, j: nat) {
    exists i :: 0 <= i < |nodes| && j in nodes[i].children
  }

  lemma {:induction false} RootName(samples: seq<Sample>)
    ensures Build(samples).nodes[0].name == ROOT
  {
    if samples != [] {
      var init, s := samples[..|samples| - 1], samples[|samples| - 1];
      RootName(init);
      DescendMeaning(Build(init), 0, s.frames);
    }
  }

  lemma TrieNode(samples: seq<Sample>, i: nat)
    requires i < |Tree(samples)|
    ensures NodeOfTrie(Tree(samples), Build(samples).paths, samples, i)
  {
    hide Build, Subtotal, Tree, HasParent, ChildOfSome, OnSome;
    BuildMeaning(samples);
    var a, nodes := Build(samples), Tree(samples);
    TreeAt(samples);
    assert NodeSummed(a, samples, i) && ChildrenOk(a, i);
    forall x, y | 0 <= x < y < |nodes[i].children|
      ensures nodes[nodes[i].children[x]].name != nodes[nodes[i].children[y]].name
    {
      SiblingsDiffer(a, i, x, y);
    }
    if i > 0 { TreeParent(samples, i); }
  }

  lemma TreeAt(samples: seq<Sample>)
    ensures var a, nodes := Build(samples), Tree(samples);
            |nodes| == |a.nodes| && Forward(a.nodes)
            && forall i :: 0 <= i < |nodes| ==> nodes[i] == a.nodes[i].(value := Subtotal(a.nodes, i))
  {
    hide Build, Subtotal;
    BuildMeaning(samples);
  }

  lemma TreeParent(samples: seq<Sample>, i: nat)
    requires 0 < i < |Tree(samples)|
    ensures ChildOfSome(Tree(samples), i)
  {
    hide Build, Subtotal, Tree, ChildrenOk;
    BuildMeaning(samples);
    TreeAt(samples);
    var a := Build(samples);
    assert HasParent(a, i);
    var p :| 0 <= p < |a.nodes| && IsParent(a, p, i);
    assert i in Tree(samples)[p].children;
  }

  /**
   Trie correctness: for every list of samples, each node's value is the number of samples whose
   stack starts with the node's path, siblings have distinct names, every stack has a node and
   every node below the root is needed by some stack.
   */
  lemma TrieCorrectness(samples: seq<Sample>)
    ensures IsTrie(Tree(samples), Build(samples).paths, samples)
  {
    hide NodeOfTrie;
    RootName(samples);
    BuildMeaning(samples);
    forall i | 0 <= i < |Tree(samples)| ensures NodeOfTrie(Tree(samples), Build(samples).paths, samples, i) {
      TrieNode(samples, i);
    }
  }

  // ----- Python and TypeScript agree -----

  /** Positive counts, stacks no reader trims, within the depth limit. */
  predicate Plain(e: Entry, maxDepth: int) {
    Canonical(e.stack) && 0 < e.count < U64 && |Frames(e.stack)| <= maxDepth
  }

  predicate AllPlain(es: seq<Entry>, maxDepth: int) {
    forall i :: 0 <= i < |es| ==> Plain(es[i], maxDepth)
  }

  function SamplesOf(es: seq<Entry>): (r: seq<Sample>)
    ensures |r| == |es| && forall n :: 0 <= n < |es| ==> r[n] == Sample(Frames(es[n].stack), es[n].count)
  {
    if es == [] then [] else SamplesOf(es[..|es| - 1]) + [Sample(Frames(es[|es| - 1].stack), es[|es| - 1].count)]
  }

  lemma {:induction false} AcceptedPlain(es: seq<Entry>, maxDepth: int)
    requires AllPlain(es, maxDepth)
    ensures Accepted(Printed(es), PyReader(maxDepth)) == SamplesOf(es)
    ensures Accepted(Printed(es), JsReader()) == SamplesOf(es)
  {
    hide Line, PySample, JsSample, Frames;
    if es != [] {
      var init, last := es[..|es| - 1], es[|es| - 1];
      AcceptedPlain(init, maxDepth);
      assert Printed(es)[..|es| - 1] == Printed(init);
      assert Plain(last, maxDepth);
      ReadersAgree(last, maxDepth);
    }
  }

  /** Both builders give the same nodes in the same order, sibling order included. */
  lemma SameTree(es: seq<Entry>, maxDepth: int)
    requires AllPlain(es, maxDepth)
    ensures Tree(Accepted(Printed(es), PyReader(maxDepth))) == Tree(Accepted(Printed(es), JsReader()))
  {
    AcceptedPlain(es, maxDepth);
  }

  // ----- Reading the counts back -----

  lemma TreeSelf(samples: seq<Sample>, i: nat)
    requires i < |Tree(samples)|
    ensures Forward(Tree(samples)) && SelfValue(Tree(samples), i) == ExactTotal(samples, Build(samples).paths[i])
  {
    hide Build, Subtotal;
    BuildMeaning(samples);
    SelfOfPropagated(Build(samples).nodes, i);
    assert NodeSummed(Build(samples), samples, i);
  }

  lemma {:induction false} ExactOfEntries(es: seq<Entry>, k: string)
    ensures ExactTotal(SamplesOf(es), Frames(k)) == Total(es, k)
    ensures ExactTotal(SamplesOf(es), []) == 0
  {
    hide Frames;
    if es != [] {
      var init, last := es[..|es| - 1], es[|es| - 1];
      ExactOfEntries(init, k);
      FramesInjective(last.stack, k);
      assert SamplesOf(es)[..|es| - 1] == SamplesOf(init);
    }
  }

  /** Paths below the root are the frames of the stack they join to. */
  lemma PathIsStack(es: seq<Entry>, i: nat)
    requires 0 < i < |Tree(SamplesOf(es))|
    ensures var path := Build(SamplesOf(es)).paths[i]; path != [] && Frames(Stack(path)) == path
  {
    hide Build, Frames;
    var samples := SamplesOf(es);
    BuildMeaning(samples);
    var a := Build(samples);
    assert a.paths[i] != a.paths[0];
    assert OnSome(samples, a.paths[i]);
    var n :| 0 <= n < |samples| && a.paths[i] <= samples[n].frames;
    forall x | 0 <= x < |a.paths[i]| ensures Without(a.paths[i][x], ';') {
      assert a.paths[i][x] == Frames(es[n].stack)[x];
    }
    FramesOfStack(a.paths[i]);
  }

  /**
   Reading back: a node's value less its children's values is the merged count of the stack its
   path joins to, the root keeps nothing, and every merged stack is some node's.
   */
  lemma ReadBack(es: seq<Entry>, i: nat)
    requires i < |Tree(SamplesOf(es))| && forall k :: Total(es, k) < U64
    ensures Forward(Tree(SamplesOf(es)))
    ensures SelfValue(Tree(SamplesOf(es)), i)
         == if i == 0 then 0 else Get(AddAll(map[], es), Stack(Build(SamplesOf(es)).paths[i]))
  {
    hide Build, Frames, Stack, SamplesOf;
    var a := Build(SamplesOf(es));
    TreeSelf(SamplesOf(es), i);
    ExactOfEntries(es, Stack(a.paths[i]));
    AddAllMeaning(map[], es, Stack(a.paths[i]));
    if i > 0 { PathIsStack(es, i); }
  }

  lemma StackHasNode(es: seq<Entry>, k: string) returns (i: nat)
    requires k in AddAll(map[], es)
    ensures 0 < i < |Tree(SamplesOf(es))| && Stack(Build(SamplesOf(es)).paths[i]) == k
  {
    hide Build, Frames, Stack, SamplesOf;
    AddAllMeaning(map[], es, k);
    var n :| 0 <= n < |es| && es[n].stack == k;
    assert SamplesOf(es)[n].frames == Frames(k);
    BuildMeaning(SamplesOf(es));
    i :| 0 <= i < |Tree(SamplesOf(es))| && Build(SamplesOf(es)).paths[i] == Frames(k);
    StackOfFrames(k);
  }
}
