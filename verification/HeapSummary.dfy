/** What the heap analyzer accumulates while it parses, and the accounting that stays true of it. */
module HeapSummary {
  import opened Sequences
  import opened Wrappers
  import opened HprofFormat

  datatype Kind = InstanceKind | ObjArrayKind | PrimArrayKind

  datatype HeapObject = HeapObject(id: nat, classId: nat, size: nat, kind: Kind)

  datatype ClassInfo = ClassInfo(serial: nat, id: nat, name: Bytes)

  datatype Accum = Accum(name: Bytes, count: nat, size: nat)

  datatype Heap = Heap(strings: map<nat, Bytes>, classes: map<nat, ClassInfo>, objects: seq<HeapObject>,
                       accums: map<nat, Accum>, totalSize: nat, totalObj: nat)

  /** "unknown", the name of a class no record has loaded. */
  const UNKNOWN: Bytes := [117, 110, 107, 110, 111, 119, 110]

  const EMPTY: Heap := Heap(map[], map[], [], map[], 0, 0)

  /** The object a sub-record adds; array sizes are 32-bit products. */
  function ObjectOf(sub: Sub, idSize: nat): Option<HeapObject> {
    match sub
    case Block(_, _) => None
    case Instance(id, _, classId, fields) => Some(HeapObject(id, classId, |fields|, InstanceKind))
    case ObjArray(id, _, count, classId, _) => Some(HeapObject(id, classId, count * idSize % U32, ObjArrayKind))
    case PrimArray(id, _, count, t, _) => Some(HeapObject(id, 0, count * PrimSize(t) % U32, PrimArrayKind))
  }

  function ClassName(h: Heap, c: nat): Bytes {
    if c in h.classes then h.classes[c].name else UNKNOWN
  }

  /** `addObject`: a class keeps the name it had when its first object was added. */
  function AddObject(h: Heap, o: HeapObject): Heap {
    var acc := if o.classId in h.accums then h.accums[o.classId] else Accum(ClassName(h, o.classId), 0, 0);
    h.(objects := h.objects + [o], totalSize := h.totalSize + o.size, totalObj := h.totalObj + 1,
       accums := h.accums[o.classId := acc.(count := acc.count + 1, size := acc.size + o.size)])
  }

  function ApplySub(h: Heap, sub: Sub, idSize: nat): Heap {
    match ObjectOf(sub, idSize)
    case None => h
    case Some(o) => AddObject(h, o)
  }

  // ----- Sums over objects -----

  function SumBy(objects: seq<HeapObject>, w: HeapObject -> nat): nat {
    if objects == [] then 0 else SumBy(objects[..|objects| - 1], w) + w(objects[|objects| - 1])
  }

  function One(): HeapObject -> nat {
    (o: HeapObject) => 1
  }

  function Size(): HeapObject -> nat {
    (o: HeapObject) => o.size
  }

  /** The weight `w`, of objects of class `c` only. */
  function Only(c: nat, w: HeapObject -> nat): HeapObject -> nat {
    (o: HeapObject) => if o.classId == c then w(o) else 0
  }

  lemma {:induction false} SumByAppend(a: seq<HeapObject>, b: seq<HeapObject>, w: HeapObject -> nat)
    ensures SumBy(a + b, w) == SumBy(a, w) + SumBy(b, w)
  {
    if b == [] {
      assert a + b == a;
    } else {
      assert (a + b)[..|a + b| - 1] == a + b[..|b| - 1];
      SumByAppend(a, b[..|b| - 1], w);
    }
  }

  lemma SumByOne(o: HeapObject, w: HeapObject -> nat)
    ensures SumBy([o], w) == w(o)
  {
  }

  lemma WithoutOne(l: seq<HeapObject>, o: HeapObject, r: seq<HeapObject>)
    ensures multiset(l + r) == multiset(l + [o] + r) - multiset{o}
  {
  }

  lemma SumByWithout(l: seq<HeapObject>, o: HeapObject, r: seq<HeapObject>, w: HeapObject -> nat)
    ensures SumBy(l + [o] + r, w) == SumBy(l + r, w) + w(o)
  {
    SumByAppend(l, [o], w);
    SumByAppend(l + [o], r, w);
    SumByAppend(l, r, w);
    SumByOne(o, w);
  }

  lemma {:induction false} SumByPermuted(a: seq<HeapObject>, b: seq<HeapObject>, w: HeapObject -> nat)
    requires multiset(a) == multiset(b)
    ensures SumBy(a, w) == SumBy(b, w)
    decreases |a|
  {
    if a == [] {
      assert |multiset(b)| == 0;
    } else {
      var init, o := a[..|a| - 1], a[|a| - 1];
      assert a == init + [o];
      assert o in multiset(a);
      var l, r := Around(b, o);
      RemovedOne(init, o, l, r);
      SumByPermuted(init, l + r, w);
      SumByWithout(l, o, r, w);
    }
  }

  lemma RemovedOne(init: seq<HeapObject>, o: HeapObject, l: seq<HeapObject>, r: seq<HeapObject>)
    requires multiset(init + [o]) == multiset(l + [o] + r)
    ensures multiset(init) == multiset(l + r)
  {
    WithoutOne(l, o, r);
    WithoutOne(init, o, []);
    assert init + [] == init && init + [o] + [] == init + [o];
  }

  lemma Around(b: seq<HeapObject>, o: HeapObject) returns (l: seq<HeapObject>, r: seq<HeapObject>)
    requires o in b
    ensures b == l + [o] + r
  {
    var j :| 0 <= j < |b| && b[j] == o;
    l, r := b[..j], b[j + 1..];
  }

  // ----- Accounting -----

  /** The accumulator of class `c` counts and measures exactly the objects of `c`, and exists only if there are any. */
  ghost predicate ClassAccounted(h: Heap, c: nat) {
    && (c in h.accums <==> SumBy(h.objects, Only(c, One())) > 0)
    && (c in h.accums ==>
          && h.accums[c].count == SumBy(h.objects, Only(c, One()))
          && h.accums[c].size == SumBy(h.objects, Only(c, Size())))
  }

  ghost predicate Accounted(h: Heap) {
    && h.totalObj == |h.objects| && h.totalSize == SumBy(h.objects, Size())
    && forall c :: ClassAccounted(h, c)
  }

  lemma {:induction false} NoObjectsNoSize(objects: seq<HeapObject>, c: nat)
    requires SumBy(objects, Only(c, One())) == 0
    ensures SumBy(objects, Only(c, Size())) == 0
  {
    if objects != [] { NoObjectsNoSize(objects[..|objects| - 1], c); }
  }

  lemma AddObjectAccounted(h: Heap, o: HeapObject)
    requires Accounted(h)
    ensures Accounted(AddObject(h, o))
  {
    var r := AddObject(h, o);
    assert r.objects[..|h.objects|] == h.objects;
    forall c ensures ClassAccounted(r, c) {
      assert ClassAccounted(h, c);
      if c !in h.accums { NoObjectsNoSize(h.objects, c); }
    }
  }

  lemma PermutedAccounted(h: Heap, objects: seq<HeapObject>)
    requires Accounted(h) && multiset(objects) == multiset(h.objects)
    ensures Accounted(h.(objects := objects))
  {
    assert |multiset(objects)| == |multiset(h.objects)|;
    SumByPermuted(objects, h.objects, Size());
    forall c ensures ClassAccounted(h.(objects := objects), c) {
      assert ClassAccounted(h, c);
      SumByPermuted(objects, h.objects, Only(c, One()));
      SumByPermuted(objects, h.objects, Only(c, Size()));
    }
  }

  // ----- Classes sum to the totals -----

  function ClassTotal(objects: seq<HeapObject>, w: HeapObject -> nat, keys: seq<nat>): nat {
    if keys == [] then 0
    else ClassTotal(objects, w, keys[..|keys| - 1]) + SumBy(objects, Only(keys[|keys| - 1], w))
  }

  lemma {:induction false} ClassTotalStep(objects: seq<HeapObject>, o: HeapObject, w: HeapObject -> nat, keys: seq<nat>)
    requires NoRepeats(keys)
    ensures ClassTotal(objects + [o], w, keys) == ClassTotal(objects, w, keys) + if o.classId in keys then w(o) else 0
  {
    if keys != [] {
      var init, k := keys[..|keys| - 1], keys[|keys| - 1];
      ClassTotalStep(objects, o, w, init);
      assert (objects + [o])[..|objects|] == objects;
      assert keys == init + [k];
    }
  }

  lemma {:induction false} ClassTotalNothing(w: HeapObject -> nat, keys: seq<nat>)
    ensures ClassTotal([], w, keys) == 0
  {
    if keys != [] { ClassTotalNothing(w, keys[..|keys| - 1]); }
  }

  lemma {:induction false} ClassTotalMeaning(objects: seq<HeapObject>, w: HeapObject -> nat, keys: seq<nat>)
    requires NoRepeats(keys) && forall i :: 0 <= i < |objects| ==> objects[i].classId in keys
    ensures ClassTotal(objects, w, keys) == SumBy(objects, w)
  {
    if objects == [] {
      ClassTotalNothing(w, keys);
    } else {
      var init, o := objects[..|objects| - 1], objects[|objects| - 1];
      ClassTotalMeaning(init, w, keys);
      ClassTotalStep(init, o, w, keys);
      assert objects == init + [o];
    }
  }

  /** Counts and sizes of the accumulators of the given classes, summed. */
  function AccumCounts(h: Heap, keys: seq<nat>): nat
    requires forall i :: 0 <= i < |keys| ==> keys[i] in h.accums
  {
    if keys == [] then 0 else AccumCounts(h, keys[..|keys| - 1]) + h.accums[keys[|keys| - 1]].count
  }

  function AccumSizes(h: Heap, keys: seq<nat>): nat
    requires forall i :: 0 <= i < |keys| ==> keys[i] in h.accums
  {
    if keys == [] then 0 else AccumSizes(h, keys[..|keys| - 1]) + h.accums[keys[|keys| - 1]].size
  }

  lemma {:induction false} AccumsAreClassTotals(h: Heap, keys: seq<nat>)
    requires Accounted(h) && forall i :: 0 <= i < |keys| ==> keys[i] in h.accums
    ensures AccumCounts(h, keys) == ClassTotal(h.objects, One(), keys)
    ensures AccumSizes(h, keys) == ClassTotal(h.objects, Size(), keys)
  {
    if keys != [] {
      AccumsAreClassTotals(h, keys[..|keys| - 1]);
      assert ClassAccounted(h, keys[|keys| - 1]);
    }
  }

  lemma {:induction false} SumOfOnes(objects: seq<HeapObject>)
    ensures SumBy(objects, One()) == |objects|
  {
    if objects != [] { SumOfOnes(objects[..|objects| - 1]); }
  }

  lemma {:induction false} ObjectCounts(objects: seq<HeapObject>, i: nat)
    requires i < |objects|
    ensures SumBy(objects, Only(objects[i].classId, One())) > 0
  {
    if i < |objects| - 1 { ObjectCounts(objects[..|objects| - 1], i); }
  }

  /** In whatever order the classes are listed, their counts and sizes add up to the totals. */
  lemma ClassesSumToTotals(h: Heap, keys: seq<nat>)
    requires Accounted(h) && NoRepeats(keys) && forall c :: c in keys <==> c in h.accums
    ensures AccumCounts(h, keys) == h.totalObj && AccumSizes(h, keys) == h.totalSize
  {
    forall i | 0 <= i < |h.objects| ensures h.objects[i].classId in keys {
      ObjectCounts(h.objects, i);
      assert ClassAccounted(h, h.objects[i].classId);
    }
    AccumsAreClassTotals(h, keys);
    ClassTotalMeaning(h.objects, One(), keys);
    ClassTotalMeaning(h.objects, Size(), keys);
    SumOfOnes(h.objects);
  }
}
