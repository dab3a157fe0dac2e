/** The heap analyzer itself: a parser that reads a stream and updates its maps, and the report it makes. */
module HprofParser {
  import opened Sequences
  import opened Wrappers
  import opened HprofFormat
  import opened HeapSummary
  import opened HprofRecords
  import opened HeapReport
  import opened Sorting

  class Reader {
    var rest: Bytes

    constructor (data: Bytes)
      ensures rest == data
    {
      rest := data;
    }

    /** `io.ReadFull`: all `n` bytes, or failure with the input used up. */
    method ReadFull(n: nat) returns (r: Option<Bytes>)
      modifies this
      ensures n <= |old(rest)| ==> r == Some(old(rest)[..n]) && rest == old(rest)[n..]
      ensures n > |old(rest)| ==> r == None && rest == []
    {
      if n <= |rest| {
        r := Some(rest[..n]);
        rest := rest[n..];
      } else {
        r, rest := None, [];
      }
    }
  }

  datatype Status = Ok | Error | Panic

  ghost predicate Agrees(status: Status, parsed: Parsed, heap: Heap, rest: Bytes) {
    match parsed
    case Parsed(h, b) => status == Ok && heap == h && rest == b
    case Failed(h) => status == Error && heap == h
    case Panicked => status == Panic
  }

  class Parser {
    var strings: map<nat, Bytes>
    var classes: map<nat, ClassInfo>
    var objects: seq<HeapObject>
    var accums: map<nat, Accum>
    var totalSize: nat
    var totalObj: nat
    var idSize: nat

    ghost function Contents(): Heap
      reads this
    {
      Heap(strings, classes, objects, accums, totalSize, totalObj)
    }

    constructor ()
      ensures Contents() == EMPTY
    {
      strings, classes, objects, accums := map[], map[], [], map[];
      totalSize, totalObj, idSize := 0, 0, 0;
    }

    method AddObject(o: HeapObject)
      modifies this
      ensures idSize == old(idSize) && Contents() == HeapSummary.AddObject(old(Contents()), o)
    {
      objects := objects + [o];
      totalSize := totalSize + o.size;
      totalObj := totalObj + 1;
      var name := UNKNOWN;
      if o.classId in classes { name := classes[o.classId].name; }
      if o.classId !in accums {
        accums := accums[o.classId := Accum(name, 0, 0)];
      }
      var acc := accums[o.classId];
      accums := accums[o.classId := acc.(count := acc.count + 1, size := acc.size + o.size)];
    }

    method ParseInstanceDump(r: Reader) returns (o: Option<HeapObject>, consumed: nat)
      modifies r
      ensures var d := DecodeInstance(old(r.rest), idSize);
              if d.Decoded? then o == ObjectOf(d.value, idSize) && r.rest == d.rest && consumed == |old(r.rest)| - |r.rest|
              else o == None
    {
      hide BigEndian;
      o, consumed := None, 0;
      var read := r.ReadFull(idSize + 4 + idSize + 4);
      if read.None? { return; }
      var header := read.value;
      var objId := BigEndian(header[..idSize]);
      var classObjId := BigEndian(header[idSize + 4..2 * idSize + 4]);
      var numFields := BigEndian(header[2 * idSize + 4..2 * idSize + 8]);
      var data := r.ReadFull(numFields);
      if data.None? { return; }
      o := Some(HeapObject(objId, classObjId, numFields, InstanceKind));
      consumed := |header| + numFields;
    }

    method ParseObjArrayDump(r: Reader) returns (o: Option<HeapObject>, consumed: nat)
      modifies r
      ensures var d := DecodeObjArray(old(r.rest), idSize);
              if d.Decoded? then o == ObjectOf(d.value, idSize) && r.rest == d.rest && consumed == |old(r.rest)| - |r.rest|
              else o == None
    {
      hide BigEndian;
      o, consumed := None, 0;
      var read := r.ReadFull(idSize + 4 + 4 + idSize);
      if read.None? { return; }
      var header := read.value;
      var arrayId := BigEndian(header[..idSize]);
      var numElements := BigEndian(header[idSize + 4..idSize + 8]);
      var elemClassId := BigEndian(header[idSize + 8..2 * idSize + 8]);
      var bytes := numElements * idSize;
      var data := r.ReadFull(bytes);
      if data.None? { return; }
      o := Some(HeapObject(arrayId, elemClassId, bytes % U32, ObjArrayKind));
      consumed := |header| + bytes;
    }

    method ParsePrimArrayDump(r: Reader) returns (o: Option<HeapObject>, consumed: nat)
      modifies r
      ensures var d := DecodePrimArray(old(r.rest), idSize);
              if d.Decoded? then o == ObjectOf(d.value, idSize) && r.rest == d.rest && consumed == |old(r.rest)| - |r.rest|
              else o == None
    {
      hide BigEndian, PrimSize;
      o, consumed := None, 0;
      var read := r.ReadFull(idSize + 4 + 4 + 1);
      if read.None? { return; }
      var header := read.value;
      var arrayId := BigEndian(header[..idSize]);
      var numElements := BigEndian(header[idSize + 4..idSize + 8]);
      var elemSize := PrimSize(header[idSize + 8]);
      var bytes := numElements * elemSize;
      var data := r.ReadFull(bytes);
      if data.None? { return; }
      o := Some(HeapObject(arrayId, 0, bytes % U32, PrimArrayKind));
      consumed := |header| + bytes;
    }

    /** One sub-record, after its tag; `None` on failure. */
    method ParseSub(r: Reader, tag: byte) returns (consumed: Option<nat>)
      modifies this, r
      ensures idSize == old(idSize)
      ensures var d := DecodeSub([tag] + old(r.rest), idSize);
              if d.Decoded? then
                && consumed == Some(|old(r.rest)| - |r.rest|) && r.rest == d.rest
                && Contents() == ApplySub(old(Contents()), d.value, idSize)
              else consumed == None && Contents() == old(Contents())
    {
      hide DecodeInstance, DecodeObjArray, DecodePrimArray, RootSize, ClassDumpSize;
      ghost var b := [tag] + r.rest;
      assert b[1..] == r.rest;
      consumed := None;
      var o: Option<HeapObject>, n: nat := None, 0;
      if IsRoot(tag) || tag == CLASS_DUMP {
        var size := if tag == CLASS_DUMP then ClassDumpSize(idSize) else RootSize(tag, idSize);
        var buf := r.ReadFull(size);
        if buf.Some? { consumed := Some(size); }
        return;
      } else if tag == INSTANCE {
        o, n := ParseInstanceDump(r);
      } else if tag == OBJ_ARRAY {
        o, n := ParseObjArrayDump(r);
      } else if tag == PRIM_ARRAY {
        o, n := ParsePrimArrayDump(r);
      }
      ArraysAddObjects(b[1..], idSize);
      if o.Some? {
        AddObject(o.value);
        consumed := Some(n);
      }
    }

    method ParseHeapDump(r: Reader, length: nat) returns (ok: bool)
      modifies this, r
      ensures idSize == old(idSize)
      ensures match DumpSubs(old(Contents()), old(r.rest), length, idSize)
              case Dumped(h, rest, _) => ok && Contents() == h && r.rest == rest
              case DumpFailed(h) => !ok && Contents() == h
    {
      hide DecodeSub, ApplySub;
      var remaining: int := length;
      while remaining > 0
        invariant idSize == old(idSize)
        invariant DumpSubs(old(Contents()), old(r.rest), length, idSize) == DumpSubs(Contents(), r.rest, remaining, idSize)
      {
        ghost var b := r.rest;
        EmptyIsShort(idSize);
        var subtag := r.ReadFull(1);
        if subtag.None? { return false; }
        remaining := remaining - 1;
        assert b == [subtag.value[0]] + r.rest;
        var consumed := ParseSub(r, subtag.value[0]);
        if consumed.None? { return false; }
        remaining := remaining - consumed.value;
      }
      return true;
    }

    method ParseString(r: Reader, length: nat) returns (status: Status)
      modifies this, r
      ensures idSize == old(idSize)
      ensures Agrees(status, ParseText(old(Contents()), old(r.rest), length, idSize), Contents(), r.rest)
    {
      hide BigEndian;
      var buf := r.ReadFull(length);
      if buf.None? { return Error; }
      if length < idSize { return Panic; }
      var id := BigEndian(buf.value[..idSize]);
      strings := strings[id := buf.value[idSize..]];
      return Ok;
    }

    method ParseLoadClass(r: Reader, length: nat) returns (status: Status)
      modifies this, r
      ensures idSize == old(idSize)
      ensures Agrees(status, ParseLoad(old(Contents()), old(r.rest), length, idSize), Contents(), r.rest)
    {
      hide BigEndian, JavaName;
      var read := r.ReadFull(length);
      if read.None? { return Error; }
      var buf := read.value;
      if length < 2 * idSize + 8 { return Panic; }
      var serial, classObjId := BigEndian(buf[..4]), BigEndian(buf[4..idSize + 4]);
      var nameId := BigEndian(buf[idSize + 8..2 * idSize + 8]);
      var name := JavaName(if nameId in strings then strings[nameId] else []);
      classes := classes[classObjId := ClassInfo(serial, classObjId, name)];
      return Ok;
    }

    /** The part of the record loop after the tag. */
    method ParseTagged(r: Reader, tag: byte) returns (status: Status)
      modifies this, r
      ensures idSize == old(idSize)
      ensures Agrees(status, ParseRecord(old(Contents()), [tag] + old(r.rest), idSize), Contents(), r.rest)
    {
      hide BigEndian, ParseBody;
      ghost var b := [tag] + r.rest;
      assert b[1..] == r.rest;
      var time := r.ReadFull(4);
      if time.None? { return Error; }
      var length := r.ReadFull(4);
      if length.None? { return Error; }
      status := ParseByTag(r, tag, BigEndian(length.value));
    }

    method ParseByTag(r: Reader, tag: byte, recLen: nat) returns (status: Status)
      modifies this, r
      ensures idSize == old(idSize)
      ensures Agrees(status, ParseBody(old(Contents()), tag, old(r.rest), recLen, idSize), Contents(), r.rest)
    {
      hide ParseText, ParseLoad, DumpSubs;
      if tag == TEXT {
        status := ParseString(r, recLen);
      } else if tag == LOAD {
        status := ParseLoadClass(r, recLen);
      } else if IsDump(tag) {
        var ok := ParseHeapDump(r, recLen);
        status := if ok then Ok else Error;
      } else {
        var skipped := r.ReadFull(recLen);
        status := if skipped.Some? then Ok else Error;
      }
    }

    method ParseRecordLoop(r: Reader) returns (status: Status)
      modifies this, r
      ensures Agrees(status, ParseRecords(old(Contents()), old(r.rest), old(idSize)), Contents(), r.rest)
    {
      hide ParseRecord;
      while r.rest != []
        invariant idSize == old(idSize)
        invariant ParseRecords(old(Contents()), old(r.rest), old(idSize)) == ParseRecords(Contents(), r.rest, idSize)
        decreases |r.rest|
      {
        ghost var b := r.rest;
        var tag := r.ReadFull(1);
        assert b == [tag.value[0]] + r.rest;
        status := ParseTagged(r, tag.value[0]);
        if status != Ok { return; }
      }
      return Ok;
    }

    /** The bytes up to the first zero, which is dropped. */
    method ReadHeader(r: Reader) returns (header: Option<Bytes>)
      modifies r
      ensures var n := NullAt(old(r.rest));
              if n.None? then header == None
              else header == Some(old(r.rest)[..n.value]) && r.rest == old(r.rest)[n.value + 1..]
    {
      hide NullAt;
      var buf: Bytes := [];
      while true
        invariant old(r.rest) == buf + r.rest && 0 !in buf
        decreases |r.rest|
      {
        ghost var before := r.rest;
        var b := r.ReadFull(1);
        if b.None? {
          assert buf + before == buf;
          NoNull(buf);
          return None;
        }
        assert before == b.value + r.rest && b.value == [b.value[0]];
        if b.value[0] == 0 {
          assert old(r.rest) == buf + [0] + r.rest;
          NullAfter(buf, r.rest);
          return Some(buf);
        }
        assert buf + before == buf + b.value + r.rest;
        buf := buf + b.value;
      }
    }

    method Parse(r: Reader) returns (status: Status)
      modifies this, r
      ensures Agrees(status, ParseFile(old(Contents()), old(r.rest)), Contents(), r.rest)
    {
      hide NullAt, BigEndian, ParseRecords;
      var header := ReadHeader(r);
      if header.None? || !(MAGIC <= header.value) { return Error; }
      var size := r.ReadFull(4);
      if size.None? { return Error; }
      idSize := BigEndian(size.value);
      if idSize != 4 && idSize != 8 { return Error; }
      var stamp := r.ReadFull(8);
      if stamp.None? { return Error; }
      status := ParseRecordLoop(r);
    }

    method Analyze(topN: int) returns (report: Report)
      modifies this`objects
      ensures multiset(objects) == multiset(old(objects)) && Descending(objects, ObjectSize)
      ensures Accounted(old(Contents())) ==> Accounted(Contents())
      ensures report.totalSize == totalSize && report.totalObjects == totalObj && report.classCount == |classes|
      ensures var limit := if topN <= 0 then 20 else topN;
              TopClasses(report.top, accums, totalSize, limit) && Largest(report.big, old(objects), limit)
    {
      hide SumBy, TopClasses, AllSuspects, Descending, Accounted;
      var limit: nat := if topN <= 0 then 20 else topN;
      var suspects := ListSuspects();
      var sorted := SortSlice(suspects, SuspectSize);
      var top := if |sorted| > limit then sorted[..limit] else sorted;
      TopIsStart(top, sorted, suspects, accums, totalSize, limit);
      objects := SortSlice(objects, ObjectSize);
      assert Sorts(objects, old(objects));
      SumByPermuted(objects, old(objects), Big());
      if Accounted(old(Contents())) { PermutedAccounted(old(Contents()), objects); }
      var big := FirstBig(limit);
      report := Report(totalSize, totalObj, |classes|, top, big);
    }

    /** One suspect per accumulator, in the order the map is walked. */
    method ListSuspects() returns (suspects: seq<Suspect>)
      ensures AllSuspects(suspects, accums, totalSize)
    {
      hide SuspectOf;
      suspects := [];
      ghost var keys: seq<nat> := [];
      var rest := accums.Keys;
      while rest != {}
        invariant rest <= accums.Keys && NoRepeats(keys)
        invariant forall c :: c in keys <==> c in accums && c !in rest
        invariant suspects == SuspectsOf(accums, totalSize, keys)
        decreases |rest|
      {
        var k :| k in rest;
        suspects := suspects + [SuspectOf(accums[k], totalSize)];
        assert (keys + [k])[..|keys|] == keys;
        keys := keys + [k];
        rest := rest - {k};
      }
    }

    /** The walk over the sorted objects, stopped at the first small one or when enough are found. */
    method FirstBig(limit: nat) returns (big: seq<HeapObject>)
      requires Descending(objects, ObjectSize) && limit > 0
      ensures Shows(big, objects, Min(limit, SumBy(objects, Big())))
    {
      hide SumBy;
      big := [];
      var i := 0;
      while i < |objects|
        invariant |big| == i <= |objects| && i < limit
        invariant forall j :: 0 <= j < i ==> objects[j].size >= MIB && big[j] == objects[j].(classId := 0)
      {
        if objects[i].size < MIB { break; }
        big := big + [objects[i].(classId := 0)];
        i := i + 1;
        if |big| >= limit {
          BigCount(objects, i);
          return;
        }
      }
      BigCount(objects, i);
    }
  }

  lemma NoNull(b: Bytes)
    requires 0 !in b
    ensures NullAt(b) == None
  {
  }

  lemma EmptyIsShort(idSize: nat)
    ensures DecodeSub([], idSize) == Short
  {
  }

  /** The three object sub-records, and only they, add an object. */
  lemma ArraysAddObjects(b: Bytes, idSize: nat)
    ensures DecodeInstance(b, idSize).Decoded? ==> ObjectOf(DecodeInstance(b, idSize).value, idSize).Some?
    ensures DecodeObjArray(b, idSize).Decoded? ==> ObjectOf(DecodeObjArray(b, idSize).value, idSize).Some?
    ensures DecodePrimArray(b, idSize).Decoded? ==> ObjectOf(DecodePrimArray(b, idSize).value, idSize).Some?
  {
  }

  /** From a file to the report: what was parsed is accounted for, and the report is about it. */
  method AnalyzeFile(data: Bytes, topN: int) returns (status: Status, report: Report)
    ensures status == Ok <==> ParseFile(EMPTY, data).Parsed?
    ensures status == Ok ==>
              var heap := ParseFile(EMPTY, data).heap;
              && Accounted(heap)
              && report.totalObjects == |heap.objects| && report.totalSize == SumBy(heap.objects, Size())
              && report.classCount == |heap.classes|
              && var limit := if topN <= 0 then 20 else topN;
                 TopClasses(report.top, heap.accums, heap.totalSize, limit) && Largest(report.big, heap.objects, limit)
  {
    hide ParseFile, SumBy, TopClasses, Largest;
    var r := new Reader(data);
    var p := new Parser();
    status := p.Parse(r);
    report := Report(0, 0, 0, [], []);
    if status == Ok {
      FileAccounted(data);
      report := p.Analyze(topN);
    }
  }
}
