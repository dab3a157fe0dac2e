/** `parse_topn`: the hottest functions by self count, and their relation to the flame-graph tree. */
module TopN {
  import opened Separated
  import opened Sequences
  import opened Percentages
  import opened FoldedText
  import opened FlameText
  import opened FlameArena
  import opened FlameTree
  import opened FlameGraph
  import opened Sorting

  type Pair = (string, int)

  /** A row of the result; the percentage before it is rounded to two decimals. */
  datatype Hot = Hot(func: string, self: int, inclusive: int, percentage: real)

  /** The lines that read as a stack and an integer; here negative integers and zero count too. */
  function Pairs(lines: seq<string>): seq<Pair> {
    if lines == [] then []
    else
      var init, p := Pairs(lines[..|lines| - 1]), PyPair(lines[|lines| - 1]);
      if p.Some? then init + [p.value] else init
  }

  function FirstFrame(stack: string): string {
    Frames(stack)[0]
  }

  function LastFrame(stack: string): string {
    var frames := Frames(stack);
    frames[|frames| - 1]
  }

  function Sum(pairs: seq<Pair>): int {
    if pairs == [] then 0 else Sum(pairs[..|pairs| - 1]) + pairs[|pairs| - 1].1
  }

  /** Counts of the stacks that end, respectively start, with a function. */
  function SelfTotal(pairs: seq<Pair>, f: string): int {
    if pairs == [] then 0
    else
      var p := pairs[|pairs| - 1];
      SelfTotal(pairs[..|pairs| - 1], f) + if LastFrame(p.0) == f then p.1 else 0
  }

  function FirstTotal(pairs: seq<Pair>, f: string): int {
    if pairs == [] then 0
    else
      var p := pairs[|pairs| - 1];
      FirstTotal(pairs[..|pairs| - 1], f) + if FirstFrame(p.0) == f then p.1 else 0
  }

  /** The functions stacks end with, in order of first appearance: the order of the dictionary. */
  function Funcs(pairs: seq<Pair>): (r: seq<string>)
    ensures forall i, j :: 0 <= i < j < |r| ==> r[i] != r[j]
  {
    if pairs == [] then []
    else
      var init, f := Funcs(pairs[..|pairs| - 1]), LastFrame(pairs[|pairs| - 1].0);
      if f in init then init else init + [f]
  }

  function Starters(pairs: seq<Pair>): set<string> {
    if pairs == [] then {} else Starters(pairs[..|pairs| - 1]) + {FirstFrame(pairs[|pairs| - 1].0)}
  }

  function Weight(item: Pair): int {
    item.1
  }

  function Items(pairs: seq<Pair>): (r: seq<Pair>)
    ensures |r| == |Funcs(pairs)|
    ensures forall i :: 0 <= i < |r| ==> r[i] == (Funcs(pairs)[i], SelfTotal(pairs, Funcs(pairs)[i]))
  {
    var funcs := Funcs(pairs);
    seq(|funcs|, i requires 0 <= i < |funcs| => (funcs[i], SelfTotal(pairs, funcs[i])))
  }

  function Ranking(pairs: seq<Pair>): seq<Pair> {
    StableSort(Items(pairs), Weight)
  }

  function HotOf(pairs: seq<Pair>, item: Pair): Hot
    requires Sum(pairs) != 0
  {
    Hot(item.0, item.1, Inclusive(pairs, item.0, item.1), Percentage(item.1, Sum(pairs)))
  }

  /** The `inclusive` column: the stacks starting with the function, or its self count if there are none. */
  function Inclusive(pairs: seq<Pair>, f: string, self: int): int {
    if f in Starters(pairs) then FirstTotal(pairs, f) else self
  }

  // ----- The loop -----

  ghost predicate SelfTallied(pairs: seq<Pair>, keys: seq<string>, self: map<string, int>) {
    && keys == Funcs(pairs)
    && (forall f :: f in self <==> f in keys)
    && (forall f :: f in self ==> self[f] == SelfTotal(pairs, f))
  }

  ghost predicate FirstTallied(pairs: seq<Pair>, first: map<string, int>) {
    first.Keys == Starters(pairs) && forall f :: f in first ==> first[f] == FirstTotal(pairs, f)
  }

  lemma {:induction false} NotYet(pairs: seq<Pair>, f: string)
    ensures f !in Funcs(pairs) ==> SelfTotal(pairs, f) == 0
    ensures f !in Starters(pairs) ==> FirstTotal(pairs, f) == 0
  {
    if pairs != [] {
      NotYet(pairs[..|pairs| - 1], f);
      if f !in Funcs(pairs) {
        var init, g := Funcs(pairs[..|pairs| - 1]), LastFrame(pairs[|pairs| - 1].0);
        assert g !in init ==> (init + [g])[|init|] == g;
      }
    }
  }

  lemma SelfTurn(pairs: seq<Pair>, p: Pair, keys: seq<string>, self: map<string, int>)
    requires SelfTallied(pairs, keys, self)
    ensures var f := LastFrame(p.0);
            SelfTallied(pairs + [p], if f in self then keys else keys + [f], self[f := (if f in self then self[f] else 0) + p.1])
    ensures Sum(pairs + [p]) == Sum(pairs) + p.1
  {
    hide LastFrame;
    assert (pairs + [p])[..|pairs|] == pairs;
    NotYet(pairs, LastFrame(p.0));
  }

  lemma FirstTurn(pairs: seq<Pair>, p: Pair, first: map<string, int>)
    requires FirstTallied(pairs, first)
    ensures var g := FirstFrame(p.0); FirstTallied(pairs + [p], first[g := (if g in first then first[g] else 0) + p.1])
  {
    hide FirstFrame;
    assert (pairs + [p])[..|pairs|] == pairs;
    NotYet(pairs, FirstFrame(p.0));
  }

  lemma PairsTurn(lines: seq<string>, n: nat)
    requires n < |lines|
    ensures var before, p := Pairs(lines[..n]), PyPair(lines[n]);
            Pairs(lines[..n + 1]) == if p.Some? then before + [p.value] else before
  {
    assert lines[..n + 1][..n] == lines[..n];
  }

  lemma TallyNothing(lines: seq<string>)
    ensures Pairs(lines[..0]) == [] && SelfTallied([], [], map[]) && FirstTallied([], map[]) && Sum([]) == 0
  {
  }

  method ParseTopN(lines: seq<string>, topN: int) returns (rows: seq<Hot>)
    ensures Sum(Pairs(lines)) == 0 ==> rows == []
    ensures Sum(Pairs(lines)) != 0 ==>
              var top := Slice(Ranking(Pairs(lines)), topN);
              |rows| == |top| && forall i :: 0 <= i < |rows| ==> rows[i] == HotOf(Pairs(lines), top[i])
  {
    hide Pairs, SelfTallied, FirstTallied, PyPair, Frames, StableSort, Sum, Percentage;
    var keys: seq<string>, self: map<string, int>, first: map<string, int>, total := [], map[], map[], 0;
    TallyNothing(lines);
    for n := 0 to |lines|
      invariant SelfTallied(Pairs(lines[..n]), keys, self) && FirstTallied(Pairs(lines[..n]), first)
      invariant total == Sum(Pairs(lines[..n]))
    {
      PairsTurn(lines, n);
      match PyPair(lines[n])
      case None =>
      case Some(p) =>
        SelfTurn(Pairs(lines[..n]), p, keys, self);
        FirstTurn(Pairs(lines[..n]), p, first);
        total := total + p.1;
        var frames := Frames(p.0);
        var f, g := frames[|frames| - 1], frames[0];
        keys := if f in self then keys else keys + [f];
        self := self[f := (if f in self then self[f] else 0) + p.1];
        first := first[g := (if g in first then first[g] else 0) + p.1];
    }
    assert lines[..|lines|] == lines;
    ghost var pairs := Pairs(lines);
    rows := [];
    if total == 0 { return; }
    TalliedItems(pairs, keys, self, first);
    var items := seq(|keys|, i requires 0 <= i < |keys| && keys[i] in self => (keys[i], self[keys[i]]));
    assert items == Items(pairs);
    var top := Slice(StableSort(items, Weight), topN);
    for i := 0 to |top|
      invariant |rows| == i && forall j :: 0 <= j < i ==> rows[j] == HotOf(pairs, top[j])
    {
      var func, selfVal := top[i].0, top[i].1;
      var inclusive := if func in first then first[func] else selfVal;
      rows := rows + [Hot(func, selfVal, inclusive, Percentage(selfVal, total))];
    }
  }

  lemma TalliedItems(pairs: seq<Pair>, keys: seq<string>, self: map<string, int>, first: map<string, int>)
    requires SelfTallied(pairs, keys, self) && FirstTallied(pairs, first)
    ensures keys == Funcs(pairs)
    ensures forall i :: 0 <= i < |keys| ==> keys[i] in self && self[keys[i]] == SelfTotal(pairs, keys[i])
    ensures first.Keys == Starters(pairs) && forall f :: f in first ==> first[f] == FirstTotal(pairs, f)
  {
  }

  // ----- What the ranking promises -----

  /** Every function stacks end with is ranked once, by its self count, ties in order of first appearance. */
  lemma RankingMeaning(pairs: seq<Pair>, v: int)
    ensures Descending(Ranking(pairs), Weight)
    ensures multiset(Ranking(pairs)) == multiset(Items(pairs))
    ensures OfKey(Ranking(pairs), Weight, v) == OfKey(Items(pairs), Weight, v)
    ensures forall i :: 0 <= i < |Ranking(pairs)| ==>
              Ranking(pairs)[i].0 in Funcs(pairs) && Ranking(pairs)[i].1 == SelfTotal(pairs, Ranking(pairs)[i].0)
  {
    var r, items := Ranking(pairs), Items(pairs);
    StableSortMeaning(items, Weight, v);
    forall i | 0 <= i < |r| ensures r[i].0 in Funcs(pairs) && r[i].1 == SelfTotal(pairs, r[i].0) {
      assert r[i] in multiset(r);
      assert r[i] in items;
    }
  }

  /** No omitted function outweighs a listed one. */
  lemma OmittedWeighLess(pairs: seq<Pair>, n: nat, i: nat, f: string)
    requires i < n <= |Ranking(pairs)| && f in Funcs(pairs)
    requires forall j :: 0 <= j < n ==> Ranking(pairs)[j].0 != f
    ensures SelfTotal(pairs, f) <= Ranking(pairs)[i].1
  {
    RankingMeaning(pairs, 0);
    var k :| 0 <= k < |Funcs(pairs)| && Funcs(pairs)[k] == f;
    assert Items(pairs)[k] == (f, SelfTotal(pairs, f));
    CutOff(Items(pairs), Ranking(pairs), Weight, n, i, (f, SelfTotal(pairs, f)));
  }

  // ----- The inclusive column -----

  predicate Contains(stack: string, f: string) {
    f in Frames(stack)
  }

  /** The inclusive count of a function: all stacks it is on. */
  function OnStackTotal(pairs: seq<Pair>, f: string): int {
    if pairs == [] then 0
    else
      var p := pairs[|pairs| - 1];
      OnStackTotal(pairs[..|pairs| - 1], f) + if Contains(p.0, f) then p.1 else 0
  }

  predicate Positive(pairs: seq<Pair>) {
    forall i :: 0 <= i < |pairs| ==> pairs[i].1 > 0
  }

  predicate OnlyFirst(pairs: seq<Pair>, f: string) {
    forall i :: 0 <= i < |pairs| && Contains(pairs[i].0, f) ==> FirstFrame(pairs[i].0) == f
  }

  predicate OnlyLast(pairs: seq<Pair>, f: string) {
    forall i :: 0 <= i < |pairs| && Contains(pairs[i].0, f) ==> LastFrame(pairs[i].0) == f
  }

  lemma EndsAreOnStack(stack: string, f: string)
    ensures FirstFrame(stack) == f || LastFrame(stack) == f ==> Contains(stack, f)
  {
    hide Frames;
  }

  lemma {:induction false} InclusiveBounds(pairs: seq<Pair>, f: string)
    requires Positive(pairs)
    ensures FirstTotal(pairs, f) <= OnStackTotal(pairs, f) && SelfTotal(pairs, f) <= OnStackTotal(pairs, f)
    ensures FirstTotal(pairs, f) == OnStackTotal(pairs, f) <==> OnlyFirst(pairs, f)
    ensures SelfTotal(pairs, f) == OnStackTotal(pairs, f) <==> OnlyLast(pairs, f)
  {
    hide Contains, FirstFrame, LastFrame;
    if pairs != [] {
      var init, p := pairs[..|pairs| - 1], pairs[|pairs| - 1];
      InclusiveBounds(init, f);
      EndsAreOnStack(p.0, f);
      assert pairs == init + [p];
      OnlyMore(init, p, f);
    }
  }

  lemma OnlyMore(init: seq<Pair>, p: Pair, f: string)
    ensures OnlyFirst(init + [p], f) <==> OnlyFirst(init, f) && (Contains(p.0, f) ==> FirstFrame(p.0) == f)
    ensures OnlyLast(init + [p], f) <==> OnlyLast(init, f) && (Contains(p.0, f) ==> LastFrame(p.0) == f)
  {
    hide Contains, FirstFrame, LastFrame;
    var all := init + [p];
    assert all[|init|] == p && forall i :: 0 <= i < |init| ==> all[i] == init[i];
  }

  /**
   For positive counts the column never exceeds the inclusive count.  It is the inclusive count if and
   only if every stack the function is on starts with it, or, when none starts with it, ends with it.
   */
  lemma InclusiveExact(pairs: seq<Pair>, f: string)
    requires Positive(pairs)
    ensures var column := Inclusive(pairs, f, SelfTotal(pairs, f));
            && column <= OnStackTotal(pairs, f)
            && (column == OnStackTotal(pairs, f) <==> if f in Starters(pairs) then OnlyFirst(pairs, f) else OnlyLast(pairs, f))
  {
    InclusiveBounds(pairs, f);
  }

  /** It is not always: on the stacks `f;g` and `g;f` the function is counted once. */
  lemma InclusiveDiffers(f: string, g: string)
    requires f != g && Without(f, ';') && Without(g, ';')
    ensures var pairs := [(Stack([f, g]), 1), (Stack([g, f]), 1)];
            Inclusive(pairs, f, SelfTotal(pairs, f)) == 1 && OnStackTotal(pairs, f) == 2
  {
    hide Frames, Stack;
    var p: Pair, q: Pair := (Stack([f, g]), 1), (Stack([g, f]), 1);
    var one: seq<Pair> := [p];
    FramesOfStack([f, g]);
    FramesOfStack([g, f]);
    assert [p, q][..1] == one && one[..0] == [];
    assert FirstTotal(one, f) == 1 && OnStackTotal(one, f) == 1 && Starters(one) == {f};
  }

  // ----- Percentages -----

  function FuncsTotal(pairs: seq<Pair>, funcs: seq<string>): int {
    if funcs == [] then 0 else FuncsTotal(pairs, funcs[..|funcs| - 1]) + SelfTotal(pairs, funcs[|funcs| - 1])
  }

  lemma {:induction false} FuncsTotalStep(pairs: seq<Pair>, p: Pair, funcs: seq<string>)
    requires NoRepeats(funcs)
    ensures FuncsTotal(pairs + [p], funcs) == FuncsTotal(pairs, funcs) + if LastFrame(p.0) in funcs then p.1 else 0
  {
    hide LastFrame;
    if funcs != [] {
      var init, f := funcs[..|funcs| - 1], funcs[|funcs| - 1];
      FuncsTotalStep(pairs, p, init);
      assert (pairs + [p])[..|pairs|] == pairs && funcs == init + [f];
    }
  }

  lemma {:induction false} FuncsTotalNothing(funcs: seq<string>)
    ensures FuncsTotal([], funcs) == 0
  {
    if funcs != [] { FuncsTotalNothing(funcs[..|funcs| - 1]); }
  }

  lemma {:induction false} FuncsTotalMeaning(pairs: seq<Pair>, funcs: seq<string>)
    requires NoRepeats(funcs) && forall i :: 0 <= i < |pairs| ==> LastFrame(pairs[i].0) in funcs
    ensures FuncsTotal(pairs, funcs) == Sum(pairs)
  {
    hide LastFrame;
    if pairs == [] {
      FuncsTotalNothing(funcs);
    } else {
      var init, p := pairs[..|pairs| - 1], pairs[|pairs| - 1];
      FuncsTotalMeaning(init, funcs);
      FuncsTotalStep(init, p, funcs);
      assert pairs == init + [p];
    }
  }

  lemma {:induction false} FuncListed(pairs: seq<Pair>, i: nat)
    requires i < |pairs|
    ensures LastFrame(pairs[i].0) in Funcs(pairs)
  {
    hide LastFrame;
    var init, f := Funcs(pairs[..|pairs| - 1]), LastFrame(pairs[|pairs| - 1].0);
    if i < |pairs| - 1 { FuncListed(pairs[..|pairs| - 1], i); }
    assert (init + [f])[|init|] == f;
  }

  function PercentageSum(pairs: seq<Pair>, funcs: seq<string>): real
    requires Sum(pairs) != 0
  {
    if funcs == [] then 0.0
    else PercentageSum(pairs, funcs[..|funcs| - 1]) + Percentage(SelfTotal(pairs, funcs[|funcs| - 1]), Sum(pairs))
  }

  lemma {:induction false} PercentageOfTotal(pairs: seq<Pair>, funcs: seq<string>)
    requires Sum(pairs) != 0
    ensures PercentageSum(pairs, funcs) == Percentage(FuncsTotal(pairs, funcs), Sum(pairs))
  {
    hide Percentage;
    if funcs == [] {
      PercentageEnds(Sum(pairs));
    } else {
      PercentageOfTotal(pairs, funcs[..|funcs| - 1]);
      PercentageAdd(FuncsTotal(pairs, funcs[..|funcs| - 1]), SelfTotal(pairs, funcs[|funcs| - 1]), Sum(pairs));
    }
  }

  /** Before rounding, the percentages of all functions sum to 100, negative counts included. */
  lemma PercentagesSumTo100(pairs: seq<Pair>)
    requires Sum(pairs) != 0
    ensures PercentageSum(pairs, Funcs(pairs)) == 100.0
  {
    forall i | 0 <= i < |pairs| ensures LastFrame(pairs[i].0) in Funcs(pairs) {
      FuncListed(pairs, i);
    }
    hide Percentage, PercentageSum, LastFrame;
    FuncsTotalMeaning(pairs, Funcs(pairs));
    PercentageOfTotal(pairs, Funcs(pairs));
    PercentageEnds(Sum(pairs));
  }

  // ----- Top-N and the tree -----

  /** Counts of the samples ending with a frame. */
  function LastTotal(samples: seq<Sample>, f: string): int {
    if samples == [] then 0
    else
      var s := samples[|samples| - 1];
      LastTotal(samples[..|samples| - 1], f) + if EndsWith(s.frames, f) then s.count else 0
  }

  predicate EndsWith(path: seq<string>, f: string) {
    path != [] && path[|path| - 1] == f
  }

  lemma {:induction false} PairsPlain(es: seq<Entry>, maxDepth: int, f: string)
    requires AllPlain(es, maxDepth)
    ensures |Pairs(Printed(es))| == |es| && SelfTotal(Pairs(Printed(es)), f) == LastTotal(SamplesOf(es), f)
  {
    hide PyPair, Frames, Line;
    if es != [] {
      var init, last := es[..|es| - 1], es[|es| - 1];
      PairsPlain(init, maxDepth, f);
      assert Printed(es)[..|es| - 1] == Printed(init);
      assert Plain(last, maxDepth);
      ReadersAgree(last, maxDepth);
      assert Pairs(Printed(es)) == Pairs(Printed(init)) + [(last.stack, last.count as int)];
      assert Pairs(Printed(es))[..|es| - 1] == Pairs(Printed(init));
      assert SamplesOf(es)[..|es| - 1] == SamplesOf(init);
    }
  }

  /** Exact counts summed over the first `n` paths ending with a frame. */
  function PathsTotal(paths: seq<seq<string>>, samples: seq<Sample>, f: string, n: nat): int
    requires n <= |paths|
  {
    if n == 0 then 0
    else PathsTotal(paths, samples, f, n - 1) + if EndsWith(paths[n - 1], f) then ExactTotal(samples, paths[n - 1]) else 0
  }

  lemma {:induction false} PathsTotalStep(paths: seq<seq<string>>, samples: seq<Sample>, s: Sample, f: string, n: nat)
    requires n <= |paths| && forall i, j :: 0 <= i < j < |paths| ==> paths[i] != paths[j]
    ensures PathsTotal(paths, samples + [s], f, n)
         == PathsTotal(paths, samples, f, n) + if s.frames in paths[..n] && EndsWith(s.frames, f) then s.count else 0
  {
    if n > 0 {
      PathsTotalStep(paths, samples, s, f, n - 1);
      assert (samples + [s])[..|samples|] == samples;
      assert paths[..n] == paths[..n - 1] + [paths[n - 1]];
    }
  }

  lemma {:induction false} PathsTotalNothing(paths: seq<seq<string>>, f: string, n: nat)
    requires n <= |paths|
    ensures PathsTotal(paths, [], f, n) == 0
  {
    if n > 0 { PathsTotalNothing(paths, f, n - 1); }
  }

  lemma {:induction false} PathsTotalMeaning(paths: seq<seq<string>>, samples: seq<Sample>, f: string)
    requires forall i, j :: 0 <= i < j < |paths| ==> paths[i] != paths[j]
    requires forall n :: 0 <= n < |samples| ==> samples[n].frames in paths
    ensures PathsTotal(paths, samples, f, |paths|) == LastTotal(samples, f)
  {
    if samples == [] {
      PathsTotalNothing(paths, f, |paths|);
    } else {
      var init, s := samples[..|samples| - 1], samples[|samples| - 1];
      PathsTotalMeaning(paths, init, f);
      PathsTotalStep(paths, init, s, f, |paths|);
      assert init + [s] == samples && paths[..|paths|] == paths;
    }
  }

  /** Self values, node value less its children's, summed over the first `n` nodes named `f`; the root is no function. */
  function SelfOf(nodes: seq<Node>, f: string, n: nat): int
    requires Forward(nodes) && n <= |nodes|
  {
    if n == 0 then 0 else SelfOf(nodes, f, n - 1) + if n > 1 && nodes[n - 1].name == f then SelfValue(nodes, n - 1) else 0
  }

  lemma {:induction false} SelfOfPaths(samples: seq<Sample>, f: string, n: nat)
    requires n <= |Tree(samples)|
    ensures Forward(Tree(samples)) && |Build(samples).paths| == |Tree(samples)|
    ensures SelfOf(Tree(samples), f, n) == PathsTotal(Build(samples).paths, samples, f, n)
  {
    hide Build, SelfValue;
    ShapeForward(Build(samples));
    PropagatedForward(Build(samples).nodes);
    if n > 0 {
      SelfOfPaths(samples, f, n - 1);
      TreeSelf(samples, n - 1);
      NodeName(samples, n - 1);
    }
  }

  lemma NodeName(samples: seq<Sample>, i: nat)
    requires i < |Tree(samples)| == |Build(samples).paths|
    ensures if i == 0 then Build(samples).paths[i] == [] else EndsWith(Build(samples).paths[i], Tree(samples)[i].name)
  {
    hide Build;
    var a := Build(samples);
    if i > 0 {
      assert HasParent(a, i);
      var p :| 0 <= p < |a.nodes| && IsParent(a, p, i);
    }
  }

  /** Top-N and tree agree: a function's self count is the sum of the self values of its nodes. */
  lemma SelfCountIsSelfValue(es: seq<Entry>, maxDepth: int, f: string)
    requires AllPlain(es, maxDepth)
    ensures Forward(Tree(SamplesOf(es)))
    ensures SelfTotal(Pairs(Printed(es)), f) == SelfOf(Tree(SamplesOf(es)), f, |Tree(SamplesOf(es))|)
  {
    hide Build, SamplesOf, Pairs, SelfOf, SelfTotal, AllPlain;
    var samples := SamplesOf(es);
    PairsPlain(es, maxDepth, f);
    SelfOfPaths(samples, f, |Tree(samples)|);
    BuildMeaning(samples);
    PathsTotalMeaning(Build(samples).paths, samples, f);
  }
}
