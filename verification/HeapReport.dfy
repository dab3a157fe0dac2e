/** The report of the heap analyzer: classes ranked by size, and the big objects. */
module HeapReport {
  import opened Percentages
  import opened Sequences
  import opened HprofFormat
  import opened HeapSummary
  import opened Sorting

  /** A class in the report. */
  datatype Suspect = Suspect(name: Bytes, count: nat, size: nat, percent: real)

  datatype Report = Report(totalSize: nat, totalObjects: nat, classCount: nat, top: seq<Suspect>, big: seq<HeapObject>)

  const MIB := 1024 * 1024

  function SuspectSize(s: Suspect): int {
    s.size
  }

  function ObjectSize(o: HeapObject): int {
    o.size
  }

  /** Weight 1 for an object of at least 1 MiB. */
  function Big(): HeapObject -> nat {
    (o: HeapObject) => if o.size >= MIB then 1 else 0
  }

  function Min(a: nat, b: nat): nat {
    if a < b then a else b
  }

  function SuspectsOf(accums: map<nat, Accum>, total: nat, keys: seq<nat>): (r: seq<Suspect>)
    requires forall i :: 0 <= i < |keys| ==> keys[i] in accums
    ensures |r| == |keys|
    ensures forall i :: 0 <= i < |r| ==> r[i] == SuspectOf(accums[keys[i]], total)
  {
    if keys == [] then [] else SuspectsOf(accums, total, keys[..|keys| - 1]) + [SuspectOf(accums[keys[|keys| - 1]], total)]
  }

  function SuspectOf(acc: Accum, total: nat): Suspect {
    Suspect(acc.name, acc.count, acc.size, if total > 0 then Percentage(acc.size, total) else 0.0)
  }

  ghost predicate ListsKeys(keys: seq<nat>, accums: map<nat, Accum>) {
    NoRepeats(keys) && forall c :: c in keys <==> c in accums
  }

  /** One suspect per class, in the order the map was walked. */
  ghost predicate AllSuspects(suspects: seq<Suspect>, accums: map<nat, Accum>, total: nat) {
    exists keys :: ListsKeys(keys, accums) && suspects == SuspectsOf(accums, total, keys)
  }

  /** All classes, ordered by size. */
  ghost predicate Ranks(ranked: seq<Suspect>, accums: map<nat, Accum>, total: nat) {
    exists all :: AllSuspects(all, accums, total) && Orders(ranked, all)
  }

  predicate Orders(ranked: seq<Suspect>, all: seq<Suspect>) {
    Descending(ranked, SuspectSize) && multiset(ranked) == multiset(all)
  }

  /** The first `limit` of a ranking of all classes. */
  ghost predicate TopClasses(top: seq<Suspect>, accums: map<nat, Accum>, total: nat, limit: nat) {
    exists ranked :: Ranks(ranked, accums, total) && Starts(top, ranked, limit)
  }

  predicate Starts(top: seq<Suspect>, ranked: seq<Suspect>, limit: nat) {
    top == ranked[..Min(limit, |ranked|)]
  }

  lemma SuspectListed(all: seq<Suspect>, accums: map<nat, Accum>, total: nat, c: nat)
    requires AllSuspects(all, accums, total)
    ensures |all| == |accums|
    ensures c in accums ==> SuspectOf(accums[c], total) in all
  {
    var keys :| ListsKeys(keys, accums) && all == SuspectsOf(accums, total, keys);
    ListingLength(keys, accums.Keys);
    if c in accums {
      var k :| 0 <= k < |keys| && keys[k] == c;
      assert all[k] == SuspectOf(accums[c], total);
    }
  }

  /** As many classes are listed as there are or may be, and no omitted class outweighs a listed one. */
  lemma OmittedClassWeighsLess(top: seq<Suspect>, accums: map<nat, Accum>, total: nat, limit: nat, c: nat, i: nat)
    requires TopClasses(top, accums, total, limit)
    ensures |top| == Min(limit, |accums|)
    ensures c in accums && SuspectOf(accums[c], total) !in top && i < |top| ==> accums[c].size <= top[i].size
  {
    hide AllSuspects, Descending, Percentage;
    var ranked :| Ranks(ranked, accums, total) && Starts(top, ranked, limit);
    var all :| AllSuspects(all, accums, total) && Orders(ranked, all);
    SuspectListed(all, accums, total, c);
    assert |multiset(ranked)| == |multiset(all)|;
    if c in accums && SuspectOf(accums[c], total) !in top && i < |top| {
      CutOff(all, ranked, SuspectSize, |top|, i, SuspectOf(accums[c], total));
    }
  }

  lemma {:induction false} BigPrefix(objects: seq<HeapObject>)
    ensures (forall i :: 0 <= i < |objects| ==> objects[i].size >= MIB) ==> SumBy(objects, Big()) == |objects|
    ensures (forall i :: 0 <= i < |objects| ==> objects[i].size < MIB) ==> SumBy(objects, Big()) == 0
  {
    if objects != [] { BigPrefix(objects[..|objects| - 1]); }
  }

  /** In a descending list the big objects come first. */
  lemma BigCount(objects: seq<HeapObject>, n: nat)
    requires Descending(objects, ObjectSize) && n <= |objects|
    requires forall i :: 0 <= i < n ==> objects[i].size >= MIB
    ensures n <= SumBy(objects, Big())
    ensures n == |objects| || objects[n].size < MIB ==> SumBy(objects, Big()) == n
  {
    hide SumBy;
    var a, b := objects[..n], objects[n..];
    assert objects == a + b;
    SumByAppend(a, b, Big());
    BigPrefix(a);
    BigPrefix(b);
    if n < |objects| && objects[n].size < MIB {
      forall i | 0 <= i < |b| ensures b[i].size < MIB {
        assert i > 0 ==> ObjectSize(objects[n]) >= ObjectSize(objects[n + i]);
      }
    }
  }

  lemma TopIsStart(top: seq<Suspect>, sorted: seq<Suspect>, suspects: seq<Suspect>, accums: map<nat, Accum>,
                   total: nat, limit: nat)
    requires AllSuspects(suspects, accums, total) && multiset(sorted) == multiset(suspects)
    requires Descending(sorted, SuspectSize) && top == if |sorted| > limit then sorted[..limit] else sorted
    ensures TopClasses(top, accums, total, limit)
  {
    hide AllSuspects, Descending, Percentage;
    assert Orders(sorted, suspects);
    assert Ranks(sorted, accums, total);
    assert sorted[..|sorted|] == sorted;
    assert Starts(top, sorted, limit);
  }

  // ----- Big objects -----

  /** `big` shows the first of all objects ordered by size, as many as are big and may be shown. */
  ghost predicate Largest(big: seq<HeapObject>, objects: seq<HeapObject>, limit: nat) {
    exists sorted :: Sorts(sorted, objects) && Shows(big, sorted, Min(limit, SumBy(objects, Big())))
  }

  predicate Sorts(sorted: seq<HeapObject>, objects: seq<HeapObject>) {
    Descending(sorted, ObjectSize) && multiset(sorted) == multiset(objects)
  }

  /** The class id is cleared in what is shown. */
  predicate Shows(big: seq<HeapObject>, sorted: seq<HeapObject>, n: nat) {
    |big| == n <= |sorted| && forall i :: 0 <= i < n ==> big[i] == sorted[i].(classId := 0)
  }

  /** An object that is not shown is no larger than any that is. */
  lemma OmittedObjectIsSmaller(big: seq<HeapObject>, objects: seq<HeapObject>, limit: nat, o: HeapObject, i: nat)
    requires Largest(big, objects, limit) && o in objects && o.(classId := 0) !in big && i < |big|
    ensures o.size <= big[i].size
  {
    hide SumBy, Descending;
    var sorted: seq<HeapObject> :| Sorts(sorted, objects) && Shows(big, sorted, Min(limit, SumBy(objects, Big())));
    forall k | 0 <= k < |big| ensures sorted[..|big|][k] != o {
      assert big[k] == sorted[k].(classId := 0);
    }
    CutOff(objects, sorted, ObjectSize, |big|, i, o);
  }

  // ----- Percentages -----

  function PercentSum(suspects: seq<Suspect>): real {
    if suspects == [] then 0.0 else PercentSum(suspects[..|suspects| - 1]) + suspects[|suspects| - 1].percent
  }

  lemma {:induction false} PercentOfSizes(h: Heap, keys: seq<nat>)
    requires h.totalSize > 0 && forall i :: 0 <= i < |keys| ==> keys[i] in h.accums
    ensures PercentSum(SuspectsOf(h.accums, h.totalSize, keys)) == Percentage(AccumSizes(h, keys), h.totalSize)
  {
    hide Percentage;
    if keys == [] {
      PercentageEnds(h.totalSize);
    } else {
      var init, k := keys[..|keys| - 1], keys[|keys| - 1];
      PercentOfSizes(h, init);
      PercentageAdd(AccumSizes(h, init), h.accums[k].size, h.totalSize);
      assert SuspectsOf(h.accums, h.totalSize, keys)[..|init|] == SuspectsOf(h.accums, h.totalSize, init);
    }
  }

  /** Over all classes the percentages sum to 100. */
  lemma ClassPercentagesSumTo100(h: Heap, keys: seq<nat>)
    requires Accounted(h) && h.totalSize > 0 && ListsKeys(keys, h.accums)
    ensures PercentSum(SuspectsOf(h.accums, h.totalSize, keys)) == 100.0
  {
    hide Percentage, Accounted, PercentSum;
    ClassesSumToTotals(h, keys);
    PercentOfSizes(h, keys);
    PercentageEnds(h.totalSize);
  }
}
