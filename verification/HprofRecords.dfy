/**
 HPROF files as sequences of records: what parsing the bytes of any file does to the heap
 summary, and that parsing an encoded file gives exactly the effect of its records.
 */
module HprofRecords {
  import opened Wrappers
  import opened HprofFormat
  import opened HeapSummary

  // ----- The sub-record loop -----

  datatype DumpResult = Dumped(heap: Heap, rest: Bytes, remaining: int) | DumpFailed(heap: Heap)

  function DumpSubs(h: Heap, b: Bytes, remaining: int, idSize: nat): (r: DumpResult)
    ensures r.Dumped? ==> |r.rest| <= |b|
    decreases |b|
  {
    if remaining <= 0 then Dumped(h, b, remaining)
    else
      match DecodeSub(b, idSize)
      case Decoded(sub, rest) => DumpSubs(ApplySub(h, sub, idSize), rest, remaining - (|b| - |rest|), idSize)
      case Short => DumpFailed(h)
      case Unknown => DumpFailed(h)
  }

  function ApplySubs(h: Heap, subs: seq<Sub>, idSize: nat): Heap
    decreases |subs|
  {
    if subs == [] then h else ApplySubs(ApplySub(h, subs[0], idSize), subs[1..], idSize)
  }

  function EncodeSubs(subs: seq<Sub>, idSize: nat): Bytes {
    if subs == [] then [] else EncodeSub(subs[0], idSize) + EncodeSubs(subs[1..], idSize)
  }

  predicate AreSubs(subs: seq<Sub>, idSize: nat) {
    forall i :: 0 <= i < |subs| ==> IsSub(subs[i], idSize)
  }

  /** The sub-records the loop reads. */
  function SubsOf(b: Bytes, remaining: int, idSize: nat): seq<Sub>
    decreases |b|
  {
    if remaining <= 0 then []
    else
      match DecodeSub(b, idSize)
      case Decoded(sub, rest) => [sub] + SubsOf(rest, remaining - (|b| - |rest|), idSize)
      case Short => []
      case Unknown => []
  }

  /** The bytes read are the length less what remains, they are the encoding of the sub-records, and their effect is theirs. */
  lemma {:induction false} DumpMeaning(h: Heap, b: Bytes, remaining: int, idSize: nat)
    requires DumpSubs(h, b, remaining, idSize).Dumped?
    ensures var r, subs := DumpSubs(h, b, remaining, idSize), SubsOf(b, remaining, idSize);
            && AreSubs(subs, idSize) && b == EncodeSubs(subs, idSize) + r.rest
            && |b| - |r.rest| == remaining - r.remaining
            && r.heap == ApplySubs(h, subs, idSize)
    decreases |b|
  {
    hide DecodeSub, EncodeSub, IsSub, ApplySub;
    if remaining > 0 {
      SubInverse(b, idSize);
      var sub, rest := DecodeSub(b, idSize).value, DecodeSub(b, idSize).rest;
      DumpMeaning(ApplySub(h, sub, idSize), rest, remaining - (|b| - |rest|), idSize);
      var subs := SubsOf(b, remaining, idSize);
      assert subs[1..] == SubsOf(rest, remaining - (|b| - |rest|), idSize);
    }
  }

  lemma {:induction false} DumpRoundTrip(h: Heap, subs: seq<Sub>, rest: Bytes, idSize: nat)
    requires AreSubs(subs, idSize)
    ensures DumpSubs(h, EncodeSubs(subs, idSize) + rest, |EncodeSubs(subs, idSize)|, idSize)
         == Dumped(ApplySubs(h, subs, idSize), rest, 0)
    decreases |subs|
  {
    hide DecodeSub, EncodeSub, IsSub, ApplySub;
    if subs == [] {
      assert EncodeSubs(subs, idSize) + rest == rest;
    } else {
      var b, tail := EncodeSub(subs[0], idSize), EncodeSubs(subs[1..], idSize);
      SubNotEmpty(subs[0], idSize);
      SubRoundTrip(subs[0], idSize, tail + rest);
      assert b + (tail + rest) == EncodeSubs(subs, idSize) + rest;
      DumpRoundTrip(ApplySub(h, subs[0], idSize), subs[1..], rest, idSize);
    }
  }

  lemma SubNotEmpty(sub: Sub, idSize: nat)
    ensures EncodeSub(sub, idSize) != []
  {
  }

  // ----- 32-bit sizes -----

  function DataOf(sub: Sub): Bytes {
    match sub
    case Block(_, body) => body
    case Instance(_, _, _, fields) => fields
    case ObjArray(_, _, _, _, data) => data
    case PrimArray(_, _, _, _, data) => data
  }

  /** The size recorded for the object is not the number of bytes skipped. */
  predicate Wraps(sub: Sub, idSize: nat) {
    ObjectOf(sub, idSize).Some? && ObjectOf(sub, idSize).value.size != |DataOf(sub)|
  }

  lemma WrapsWhenHuge(sub: Sub, idSize: nat)
    requires IsSub(sub, idSize)
    ensures Wraps(sub, idSize) <==> (sub.ObjArray? || sub.PrimArray?) && |DataOf(sub)| >= U32
    ensures |DataOf(sub)| < |EncodeSub(sub, idSize)|
  {
  }

  /** A product wraps only in the last sub-record read, and the loop then ends below zero. */
  lemma {:induction false} WrapOnlyAtTheEnd(h: Heap, b: Bytes, remaining: int, idSize: nat, i: nat)
    requires remaining < U32 && DumpSubs(h, b, remaining, idSize).Dumped? && i < |SubsOf(b, remaining, idSize)|
    requires Wraps(SubsOf(b, remaining, idSize)[i], idSize)
    ensures i == |SubsOf(b, remaining, idSize)| - 1 && DumpSubs(h, b, remaining, idSize).remaining < 0
    decreases |b|
  {
    hide DecodeSub, EncodeSub, IsSub, ApplySub, Wraps;
    var sub, rest := DecodeSub(b, idSize).value, DecodeSub(b, idSize).rest;
    SubInverse(b, idSize);
    WrapsWhenHuge(sub, idSize);
    if i > 0 {
      WrapOnlyAtTheEnd(ApplySub(h, sub, idSize), rest, remaining - (|b| - |rest|), idSize, i - 1);
    }
  }

  /** If the loop ends at exactly zero, every recorded size is the number of bytes actually skipped. */
  lemma NoWrapAtZero(h: Heap, b: Bytes, length: nat, idSize: nat, i: nat)
    requires length < U32 && DumpSubs(h, b, length, idSize).Dumped? && DumpSubs(h, b, length, idSize).remaining == 0
    requires i < |SubsOf(b, length, idSize)|
    ensures !Wraps(SubsOf(b, length, idSize)[i], idSize)
  {
    if Wraps(SubsOf(b, length, idSize)[i], idSize) { WrapOnlyAtTheEnd(h, b, length, idSize, i); }
  }

  /** Without that the claim fails: an array of 2^30 references is recorded with size 0. */
  lemma WrapHappens(data: Bytes)
    requires |data| == U32
    ensures var sub := ObjArray(0, 0, 0x4000_0000, 0, data);
            && IsSub(sub, 4) && Wraps(sub, 4) && ObjectOf(sub, 4).value.size == 0
            && DumpSubs(EMPTY, EncodeSub(sub, 4), 1, 4) == Dumped(ApplySub(EMPTY, sub, 4), [], 1 - |EncodeSub(sub, 4)|)
  {
    hide DecodeSub, EncodeSub, ApplySub;
    var sub := ObjArray(0, 0, 0x4000_0000, 0, data);
    Pow256Of4And8();
    SubRoundTrip(sub, 4, []);
    SubNotEmpty(sub, 4);
    assert EncodeSub(sub, 4) + [] == EncodeSub(sub, 4);
  }

  // ----- Records -----

  datatype Record =
    | Text(time: nat, id: nat, text: Bytes)
    | Load(time: nat, serial: nat, classId: nat, trace: nat, nameId: nat, extra: Bytes)
    | Dump(tag: byte, time: nat, subs: seq<Sub>)
    | Other(tag: byte, time: nat, body: Bytes)

  const TEXT: byte := 0x01
  const LOAD: byte := 0x02

  predicate IsDump(tag: byte) {
    tag == 0x0C || tag == 0x1C
  }

  function TagOf(rec: Record): byte {
    match rec
    case Text(_, _, _) => TEXT
    case Load(_, _, _, _, _, _) => LOAD
    case Dump(tag, _, _) => tag
    case Other(tag, _, _) => tag
  }

  function EncodeBody(rec: Record, idSize: nat): Bytes {
    match rec
    case Text(_, id, text) => ToBytes(id, idSize) + text
    case Load(_, serial, classId, trace, nameId, extra) =>
      ToBytes(serial, 4) + ToBytes(classId, idSize) + ToBytes(trace, 4) + ToBytes(nameId, idSize) + extra
    case Dump(_, _, subs) => EncodeSubs(subs, idSize)
    case Other(_, _, body) => body
  }

  predicate IsRecord(rec: Record, idSize: nat) {
    && rec.time < U32 && |EncodeBody(rec, idSize)| < U32
    && match rec
       case Text(_, id, _) => id < Pow256(idSize)
       case Load(_, serial, classId, trace, nameId, _) =>
         serial < U32 && classId < Pow256(idSize) && trace < U32 && nameId < Pow256(idSize)
       case Dump(tag, _, subs) => IsDump(tag) && AreSubs(subs, idSize)
       case Other(tag, _, _) => tag != TEXT && tag != LOAD && !IsDump(tag)
  }

  function EncodeRecord(rec: Record, idSize: nat): Bytes {
    var body := EncodeBody(rec, idSize);
    [TagOf(rec)] + ToBytes(rec.time, 4) + ToBytes(|body|, 4) + body
  }

  /** `Lcom/acme/Foo;` and `com/acme/Foo` both become `com.acme.Foo`. */
  function JavaName(raw: Bytes): (r: Bytes)
    ensures 47 !in r
  {
    var inner := if raw != [] && raw[0] == 76 && raw[|raw| - 1] == 59 then raw[1..|raw| - 1] else raw;
    seq(|inner|, i requires 0 <= i < |inner| => if inner[i] == 47 then 46 else inner[i])
  }

  /** A type descriptor and the bare name it wraps are shown alike, slashes as dots. */
  lemma JavaNameOf(name: Bytes)
    requires name == [] || name[0] != 76 || name[|name| - 1] != 59
    ensures |JavaName(name)| == |name| && JavaName([76] + name + [59]) == JavaName(name)
    ensures forall i :: 0 <= i < |name| ==> JavaName(name)[i] == if name[i] == 47 then 46 else name[i]
  {
    assert ([76] + name + [59])[1..|name| + 1] == name;
  }

  function WithString(h: Heap, id: nat, text: Bytes): Heap {
    h.(strings := h.strings[id := text])
  }

  function WithClass(h: Heap, serial: nat, classId: nat, nameId: nat): Heap {
    var raw := if nameId in h.strings then h.strings[nameId] else [];
    h.(classes := h.classes[classId := ClassInfo(serial, classId, JavaName(raw))])
  }

  function ApplyRecord(h: Heap, rec: Record, idSize: nat): Heap {
    match rec
    case Text(_, id, text) => WithString(h, id, text)
    case Load(_, serial, classId, _, nameId, _) => WithClass(h, serial, classId, nameId)
    case Dump(_, _, subs) => ApplySubs(h, subs, idSize)
    case Other(_, _, _) => h
  }

  // ----- Parsing records -----

  /** Slicing a record shorter than its fixed part is a run-time panic. */
  datatype Parsed = Parsed(heap: Heap, rest: Bytes) | Failed(heap: Heap) | Panicked

  function ParseText(h: Heap, b: Bytes, length: nat, idSize: nat): (r: Parsed)
    ensures r.Parsed? ==> |r.rest| <= |b|
  {
    match Take(b, length)
    case Decoded(buf, rest) =>
      if length < idSize then Panicked else Parsed(WithString(h, BigEndian(buf[..idSize]), buf[idSize..]), rest)
    case Short => Failed(h)
    case Unknown => Failed(h)
  }

  function ParseLoad(h: Heap, b: Bytes, length: nat, idSize: nat): (r: Parsed)
    ensures r.Parsed? ==> |r.rest| <= |b|
  {
    match Take(b, length)
    case Decoded(buf, rest) =>
      if length < 2 * idSize + 8 then Panicked
      else
        var nameId := BigEndian(buf[idSize + 8..2 * idSize + 8]);
        Parsed(WithClass(h, BigEndian(buf[..4]), BigEndian(buf[4..idSize + 4]), nameId), rest)
    case Short => Failed(h)
    case Unknown => Failed(h)
  }

  function ParseBody(h: Heap, tag: byte, b: Bytes, length: nat, idSize: nat): (r: Parsed)
    ensures r.Parsed? ==> |r.rest| <= |b|
  {
    if tag == TEXT then ParseText(h, b, length, idSize)
    else if tag == LOAD then ParseLoad(h, b, length, idSize)
    else if IsDump(tag) then
      match DumpSubs(h, b, length, idSize)
      case Dumped(h', rest, _) => Parsed(h', rest)
      case DumpFailed(h') => Failed(h')
    else
      match Take(b, length)
      case Decoded(_, rest) => Parsed(h, rest)
      case Short => Failed(h)
      case Unknown => Failed(h)
  }

  function ParseRecord(h: Heap, b: Bytes, idSize: nat): (r: Parsed)
    requires b != []
    ensures r.Parsed? ==> |r.rest| < |b|
  {
    var time := Take(b[1..], 4);
    if !time.Decoded? then Failed(h)
    else
      var length := Take(time.rest, 4);
      if !length.Decoded? then Failed(h)
      else ParseBody(h, b[0], length.rest, BigEndian(length.value), idSize)
  }

  function ParseRecords(h: Heap, b: Bytes, idSize: nat): Parsed
    decreases |b|
  {
    if b == [] then Parsed(h, [])
    else
      match ParseRecord(h, b, idSize)
      case Parsed(h', rest) => ParseRecords(h', rest, idSize)
      case Failed(h') => Failed(h')
      case Panicked => Panicked
  }

  // ----- Round trip of records -----

  lemma TextRoundTrip(h: Heap, id: nat, text: Bytes, idSize: nat, rest: Bytes)
    requires id < Pow256(idSize)
    ensures ParseText(h, ToBytes(id, idSize) + text + rest, idSize + |text|, idSize) == Parsed(WithString(h, id, text), rest)
  {
    hide ToBytes, BigEndian, Pow256, Take;
    var buf := ToBytes(id, idSize) + text;
    TakeExact(buf, rest);
    assert buf[..idSize] == ToBytes(id, idSize) && buf[idSize..] == text;
    ReadOfWritten(id, idSize);
  }

  lemma LoadRoundTrip(h: Heap, rec: Record, idSize: nat, rest: Bytes)
    requires rec.Load? && IsRecord(rec, idSize)
    ensures ParseLoad(h, EncodeBody(rec, idSize) + rest, |EncodeBody(rec, idSize)|, idSize)
         == Parsed(WithClass(h, rec.serial, rec.classId, rec.nameId), rest)
  {
    hide ToBytes, BigEndian, Pow256, Take, WithClass;
    Pow256Of4And8();
    var buf := EncodeBody(rec, idSize);
    TakeExact(buf, rest);
    assert buf[..4] == ToBytes(rec.serial, 4) && buf[4..idSize + 4] == ToBytes(rec.classId, idSize);
    assert buf[idSize + 8..2 * idSize + 8] == ToBytes(rec.nameId, idSize);
    ReadOfWritten(rec.serial, 4);
    ReadOfWritten(rec.classId, idSize);
    ReadOfWritten(rec.nameId, idSize);
  }

  lemma BodyRoundTrip(h: Heap, rec: Record, idSize: nat, rest: Bytes)
    requires IsRecord(rec, idSize)
    ensures ParseBody(h, TagOf(rec), EncodeBody(rec, idSize) + rest, |EncodeBody(rec, idSize)|, idSize)
         == Parsed(ApplyRecord(h, rec, idSize), rest)
  {
    hide ParseText, ParseLoad, DumpSubs, ApplySubs, ToBytes, Take;
    match rec
    case Text(_, id, text) => TextRoundTrip(h, id, text, idSize, rest);
    case Load(_, _, _, _, _, _) => LoadRoundTrip(h, rec, idSize, rest);
    case Dump(_, _, subs) => DumpRoundTrip(h, subs, rest, idSize);
    case Other(_, _, body) => TakeExact(body, rest);
  }

  lemma RecordRoundTrip(h: Heap, rec: Record, idSize: nat, rest: Bytes)
    requires IsRecord(rec, idSize)
    ensures EncodeRecord(rec, idSize) != []
    ensures ParseRecord(h, EncodeRecord(rec, idSize) + rest, idSize) == Parsed(ApplyRecord(h, rec, idSize), rest)
  {
    hide ParseBody, ApplyRecord, EncodeBody, ToBytes, BigEndian, Pow256, Take;
    Pow256Of4And8();
    var body := EncodeBody(rec, idSize);
    var time, length := ToBytes(rec.time, 4), ToBytes(|body|, 4);
    var b := EncodeRecord(rec, idSize) + rest;
    assert b[1..] == time + (length + (body + rest));
    TakeExact(time, length + (body + rest));
    TakeExact(length, body + rest);
    ReadOfWritten(|body|, 4);
    BodyRoundTrip(h, rec, idSize, rest);
  }

  function EncodeRecords(recs: seq<Record>, idSize: nat): Bytes {
    if recs == [] then [] else EncodeRecord(recs[0], idSize) + EncodeRecords(recs[1..], idSize)
  }

  function ApplyRecords(h: Heap, recs: seq<Record>, idSize: nat): Heap
    decreases |recs|
  {
    if recs == [] then h else ApplyRecords(ApplyRecord(h, recs[0], idSize), recs[1..], idSize)
  }

  lemma {:induction false} RecordsRoundTrip(h: Heap, recs: seq<Record>, idSize: nat)
    requires forall i :: 0 <= i < |recs| ==> IsRecord(recs[i], idSize)
    ensures ParseRecords(h, EncodeRecords(recs, idSize), idSize) == Parsed(ApplyRecords(h, recs, idSize), [])
    decreases |recs|
  {
    hide ParseRecord, ApplyRecord, EncodeRecord, IsRecord;
    if recs != [] {
      RecordRoundTrip(h, recs[0], idSize, EncodeRecords(recs[1..], idSize));
      RecordsRoundTrip(ApplyRecord(h, recs[0], idSize), recs[1..], idSize);
    }
  }

  // ----- Files -----

  /** "JAVA PROFILE". */
  const MAGIC: Bytes := [74, 65, 86, 65, 32, 80, 82, 79, 70, 73, 76, 69]

  /** Position of the first zero byte. */
  function NullAt(b: Bytes): (r: Option<nat>)
    ensures r.Some? ==> r.value < |b| && b[r.value] == 0 && 0 !in b[..r.value]
    ensures r.None? ==> 0 !in b
  {
    if b == [] then None
    else if b[0] == 0 then Some(0)
    else
      match NullAt(b[1..])
      case None => None
      case Some(n) => assert b[..n + 1] == [b[0]] + b[1..][..n]; Some(n + 1)
  }

  function ParseFile(h: Heap, b: Bytes): Parsed {
    var n := NullAt(b);
    if n.None? || !(MAGIC <= b[..n.value]) then Failed(h)
    else
      var size := Take(b[n.value + 1..], 4);
      if !size.Decoded? || BigEndian(size.value) !in {4, 8} then Failed(h)
      else
        var stamp := Take(size.rest, 8);
        if !stamp.Decoded? then Failed(h) else ParseRecords(h, stamp.rest, BigEndian(size.value))
  }

  function EncodeFile(version: Bytes, idSize: nat, stamp: Bytes, recs: seq<Record>): Bytes {
    MAGIC + version + [0] + ToBytes(idSize, 4) + stamp + EncodeRecords(recs, idSize)
  }

  lemma {:induction false} NullAfter(a: Bytes, rest: Bytes)
    requires 0 !in a
    ensures NullAt(a + [0] + rest) == Some(|a|)
  {
    if a != [] {
      assert a[0] in a;
      NullAfter(a[1..], rest);
      assert (a + [0] + rest)[1..] == a[1..] + [0] + rest;
    }
  }

  /**
   Round trip: parsing an encoded file succeeds, consumes every byte and leaves exactly the
   effect of its records.
   */
  lemma FileRoundTrip(version: Bytes, idSize: nat, stamp: Bytes, recs: seq<Record>)
    requires 0 !in version && idSize in {4, 8} && |stamp| == 8
    requires forall i :: 0 <= i < |recs| ==> IsRecord(recs[i], idSize)
    ensures ParseFile(EMPTY, EncodeFile(version, idSize, stamp, recs)) == Parsed(ApplyRecords(EMPTY, recs, idSize), [])
  {
    hide NullAt, ToBytes, BigEndian, Take, ParseRecords, EncodeRecords, ApplyRecords, Pow256;
    Pow256Of4And8();
    var start, body := MAGIC + version, EncodeRecords(recs, idSize);
    var b := EncodeFile(version, idSize, stamp, recs);
    var tail := ToBytes(idSize, 4) + (stamp + body);
    assert b == start + [0] + tail;
    NullAfter(start, tail);
    assert b[|start| + 1..] == tail && b[..|start|] == start;
    TakeExact(ToBytes(idSize, 4), stamp + body);
    ReadOfWritten(idSize, 4);
    TakeExact(stamp, body);
    RecordsRoundTrip(EMPTY, recs, idSize);
  }

  // ----- Accounting over a whole parse -----

  lemma {:induction false} DumpAccounted(h: Heap, b: Bytes, remaining: int, idSize: nat)
    requires Accounted(h)
    ensures Accounted(DumpSubs(h, b, remaining, idSize).heap)
    decreases |b|
  {
    hide Accounted, DecodeSub, AddObject;
    if remaining > 0 && DecodeSub(b, idSize).Decoded? {
      var sub, rest := DecodeSub(b, idSize).value, DecodeSub(b, idSize).rest;
      if ObjectOf(sub, idSize).Some? { AddObjectAccounted(h, ObjectOf(sub, idSize).value); }
      DumpAccounted(ApplySub(h, sub, idSize), rest, remaining - (|b| - |rest|), idSize);
    }
  }

  lemma NamesDoNotMatter(h: Heap, strings: map<nat, Bytes>, classes: map<nat, ClassInfo>)
    requires Accounted(h)
    ensures Accounted(h.(strings := strings, classes := classes))
  {
    forall c ensures ClassAccounted(h.(strings := strings, classes := classes), c) {
      assert ClassAccounted(h, c);
    }
  }

  lemma RecordAccounted(h: Heap, b: Bytes, idSize: nat)
    requires Accounted(h) && b != []
    ensures var r := ParseRecord(h, b, idSize); r.Panicked? || Accounted(r.heap)
  {
    hide Accounted, DumpSubs, Take, BigEndian;
    var r := ParseRecord(h, b, idSize);
    if !r.Panicked? {
      var time := Take(b[1..], 4);
      if time.Decoded? && Take(time.rest, 4).Decoded? {
        var length := Take(time.rest, 4);
        if IsDump(b[0]) { DumpAccounted(h, length.rest, BigEndian(length.value), idSize); }
        else { NamesDoNotMatter(h, r.heap.strings, r.heap.classes); }
      }
    }
  }

  lemma {:induction false} RecordsAccounted(h: Heap, b: Bytes, idSize: nat)
    requires Accounted(h)
    ensures var r := ParseRecords(h, b, idSize); r.Panicked? || Accounted(r.heap)
    decreases |b|
  {
    hide Accounted, ParseRecord;
    if b != [] {
      RecordAccounted(h, b, idSize);
      var r := ParseRecord(h, b, idSize);
      if r.Parsed? { RecordsAccounted(r.heap, r.rest, idSize); }
    }
  }

  /** After any parse, failed ones included, the accumulators agree with the objects. */
  lemma FileAccounted(b: Bytes)
    ensures var r := ParseFile(EMPTY, b); r.Panicked? || Accounted(r.heap)
  {
    hide Accounted, ParseRecords;
    EmptyAccounted();
    forall rest, idSize ensures var r := ParseRecords(EMPTY, rest, idSize); r.Panicked? || Accounted(r.heap) {
      RecordsAccounted(EMPTY, rest, idSize);
    }
  }

  lemma EmptyAccounted()
    ensures Accounted(EMPTY)
  {
  }
}
