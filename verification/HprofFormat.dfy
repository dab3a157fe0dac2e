/**
 The HPROF binary layout, as the heap analyzer reads it: big-endian integers, records and heap
 dump sub-records, with an encoder and a decoder that undo each other.
 */
module HprofFormat {
  import opened FoldedText

  type byte = x: int | 0 <= x < 256

  type Bytes = seq<byte>

  const U32 := 0x1_0000_0000

  // ----- Integers -----

  function Pow256(n: nat): (p: nat)
    ensures p > 0
  {
    if n == 0 then 1 else 256 * Pow256(n - 1)
  }

  lemma Pow256Of4And8()
    ensures Pow256(4) == U32 && Pow256(8) == U64
  {
  }

  function BigEndian(b: Bytes): (v: nat)
    ensures v < Pow256(|b|)
  {
    if b == [] then 0 else 256 * BigEndian(b[..|b| - 1]) + b[|b| - 1]
  }

  function ToBytes(v: nat, n: nat): (b: Bytes)
    ensures |b| == n
  {
    if n == 0 then [] else ToBytes(v / 256, n - 1) + [v % 256]
  }

  lemma {:induction false} ReadOfWritten(v: nat, n: nat)
    requires v < Pow256(n)
    ensures BigEndian(ToBytes(v, n)) == v
  {
    if n > 0 {
      ReadOfWritten(v / 256, n - 1);
      assert ToBytes(v, n)[..n - 1] == ToBytes(v / 256, n - 1);
    }
  }

  lemma {:induction false} WrittenOfRead(b: Bytes)
    ensures ToBytes(BigEndian(b), |b|) == b
  {
    if b != [] {
      WrittenOfRead(b[..|b| - 1]);
    }
  }

  // ----- Sub-records of a heap dump -----

  const INSTANCE: byte := 0x21
  const OBJ_ARRAY: byte := 0x22
  const PRIM_ARRAY: byte := 0x23
  const CLASS_DUMP: byte := 0x20

  /** Roots and class dumps are blocks of a size fixed by the tag. */
  predicate IsRoot(tag: byte) {
    tag == 0xFF || 0x01 <= tag <= 0x08
  }

  function RootSize(tag: byte, idSize: nat): nat {
    var base := idSize + 4;
    if tag == 0x01 then base + idSize
    else if tag == 0x02 || tag == 0x03 then base + 4 + 4
    else if tag == 0x04 || tag == 0x06 then base + 4
    else if tag == 0x08 then base + 4 + 4
    else base
  }

  function ClassDumpSize(idSize: nat): nat {
    7 * idSize + 4 + 4 + 4 + 4 + 4 + 4
  }

  predicate IsBlock(tag: byte) {
    IsRoot(tag) || tag == CLASS_DUMP
  }

  function BlockSize(tag: byte, idSize: nat): nat {
    if tag == CLASS_DUMP then ClassDumpSize(idSize) else RootSize(tag, idSize)
  }

  function PrimSize(t: byte): (n: nat)
    ensures n in {1, 2, 4, 8}
  {
    if t == 5 || t == 9 then 2
    else if t == 6 || t == 10 then 4
    else if t == 7 || t == 11 then 8
    else 1
  }

  datatype Sub =
    | Block(tag: byte, body: Bytes)
    | Instance(id: nat, trace: nat, classId: nat, fields: Bytes)
    | ObjArray(id: nat, trace: nat, count: nat, classId: nat, data: Bytes)
    | PrimArray(id: nat, trace: nat, count: nat, elemType: byte, data: Bytes)

  predicate IsSub(sub: Sub, idSize: nat) {
    match sub
    case Block(tag, body) => IsBlock(tag) && |body| == BlockSize(tag, idSize)
    case Instance(id, trace, classId, fields) =>
      id < Pow256(idSize) && trace < U32 && classId < Pow256(idSize) && |fields| < U32
    case ObjArray(id, trace, count, classId, data) =>
      id < Pow256(idSize) && trace < U32 && count < U32 && classId < Pow256(idSize) && |data| == count * idSize
    case PrimArray(id, trace, count, elemType, data) =>
      id < Pow256(idSize) && trace < U32 && count < U32 && |data| == count * PrimSize(elemType)
  }

  function EncodeSub(sub: Sub, idSize: nat): Bytes {
    match sub
    case Block(tag, body) => [tag] + body
    case Instance(id, trace, classId, fields) =>
      [INSTANCE] + ToBytes(id, idSize) + ToBytes(trace, 4) + ToBytes(classId, idSize) + ToBytes(|fields|, 4) + fields
    case ObjArray(id, trace, count, classId, data) =>
      [OBJ_ARRAY] + ToBytes(id, idSize) + ToBytes(trace, 4) + ToBytes(count, 4) + ToBytes(classId, idSize) + data
    case PrimArray(id, trace, count, elemType, data) =>
      [PRIM_ARRAY] + ToBytes(id, idSize) + ToBytes(trace, 4) + ToBytes(count, 4) + [elemType] + data
  }

  datatype Decoded<T> = Decoded(value: T, rest: Bytes) | Short | Unknown

  /** `io.ReadFull`. */
  function Take(b: Bytes, n: nat): (r: Decoded<Bytes>)
    ensures r.Decoded? <==> n <= |b|
    ensures r.Decoded? ==> |r.value| == n && b == r.value + r.rest
    ensures !r.Unknown?
  {
    if n <= |b| then Decoded(b[..n], b[n..]) else Short
  }

  lemma TakeExact(a: Bytes, rest: Bytes)
    ensures Take(a + rest, |a|) == Decoded(a, rest)
  {
  }

  function DecodeBlock(tag: byte, b: Bytes, idSize: nat): Decoded<Sub> {
    match Take(b, BlockSize(tag, idSize))
    case Decoded(body, rest) => Decoded(Block(tag, body), rest)
    case Short => Short
    case Unknown => Unknown
  }

  /** The header fields are cut out of one block, as the code does it. */
  function DecodeInstance(b: Bytes, idSize: nat): Decoded<Sub> {
    match Take(b, idSize + 4 + idSize + 4)
    case Short => Short
    case Unknown => Unknown
    case Decoded(h, rest) =>
      var n := BigEndian(h[2 * idSize + 4..2 * idSize + 8]);
      match Take(rest, n)
      case Short => Short
      case Unknown => Unknown
      case Decoded(fields, rest') =>
        var id, trace := BigEndian(h[..idSize]), BigEndian(h[idSize..idSize + 4]);
        Decoded(Instance(id, trace, BigEndian(h[idSize + 4..2 * idSize + 4]), fields), rest')
  }

  function DecodeObjArray(b: Bytes, idSize: nat): Decoded<Sub> {
    match Take(b, idSize + 4 + 4 + idSize)
    case Short => Short
    case Unknown => Unknown
    case Decoded(h, rest) =>
      var n := BigEndian(h[idSize + 4..idSize + 8]);
      match Take(rest, n * idSize)
      case Short => Short
      case Unknown => Unknown
      case Decoded(data, rest') =>
        var id, trace := BigEndian(h[..idSize]), BigEndian(h[idSize..idSize + 4]);
        Decoded(ObjArray(id, trace, n, BigEndian(h[idSize + 8..2 * idSize + 8]), data), rest')
  }

  function DecodePrimArray(b: Bytes, idSize: nat): Decoded<Sub> {
    match Take(b, idSize + 4 + 4 + 1)
    case Short => Short
    case Unknown => Unknown
    case Decoded(h, rest) =>
      var n, t := BigEndian(h[idSize + 4..idSize + 8]), h[idSize + 8];
      match Take(rest, n * PrimSize(t))
      case Short => Short
      case Unknown => Unknown
      case Decoded(data, rest') =>
        Decoded(PrimArray(BigEndian(h[..idSize]), BigEndian(h[idSize..idSize + 4]), n, t, data), rest')
  }

  function DecodeSub(b: Bytes, idSize: nat): (r: Decoded<Sub>)
    ensures r.Decoded? ==> |r.rest| < |b|
  {
    if b == [] then Short
    else if IsBlock(b[0]) then DecodeBlock(b[0], b[1..], idSize)
    else if b[0] == INSTANCE then DecodeInstance(b[1..], idSize)
    else if b[0] == OBJ_ARRAY then DecodeObjArray(b[1..], idSize)
    else if b[0] == PRIM_ARRAY then DecodePrimArray(b[1..], idSize)
    else Unknown
  }

  // ----- Encoding then decoding -----

  lemma Slices(a: Bytes, b: Bytes, c: Bytes, d: Bytes)
    ensures var h := a + b + c + d; var i, j, k := |a|, |a| + |b|, |a| + |b| + |c|;
            h[..i] == a && h[i..j] == b && h[j..k] == c && h[k..k + |d|] == d && |h| == k + |d|
  {
  }

  lemma InstanceRoundTrip(id: nat, trace: nat, classId: nat, fields: Bytes, idSize: nat, rest: Bytes)
    requires IsSub(Instance(id, trace, classId, fields), idSize)
    ensures DecodeInstance(EncodeSub(Instance(id, trace, classId, fields), idSize)[1..] + rest, idSize)
         == Decoded(Instance(id, trace, classId, fields), rest)
  {
    hide ToBytes, BigEndian, Pow256, Take;
    Pow256Of4And8();
    var h := ToBytes(id, idSize) + ToBytes(trace, 4) + ToBytes(classId, idSize) + ToBytes(|fields|, 4);
    assert EncodeSub(Instance(id, trace, classId, fields), idSize)[1..] + rest == h + (fields + rest);
    TakeExact(h, fields + rest);
    TakeExact(fields, rest);
    Slices(ToBytes(id, idSize), ToBytes(trace, 4), ToBytes(classId, idSize), ToBytes(|fields|, 4));
    ReadOfWritten(id, idSize);
    ReadOfWritten(trace, 4);
    ReadOfWritten(classId, idSize);
    ReadOfWritten(|fields|, 4);
  }

  lemma ObjArrayRoundTrip(id: nat, trace: nat, count: nat, classId: nat, data: Bytes, idSize: nat, rest: Bytes)
    requires IsSub(ObjArray(id, trace, count, classId, data), idSize)
    ensures DecodeObjArray(EncodeSub(ObjArray(id, trace, count, classId, data), idSize)[1..] + rest, idSize)
         == Decoded(ObjArray(id, trace, count, classId, data), rest)
  {
    hide ToBytes, BigEndian, Pow256, Take;
    Pow256Of4And8();
    var h := ToBytes(id, idSize) + ToBytes(trace, 4) + ToBytes(count, 4) + ToBytes(classId, idSize);
    assert EncodeSub(ObjArray(id, trace, count, classId, data), idSize)[1..] + rest == h + (data + rest);
    TakeExact(h, data + rest);
    TakeExact(data, rest);
    Slices(ToBytes(id, idSize), ToBytes(trace, 4), ToBytes(count, 4), ToBytes(classId, idSize));
    ReadOfWritten(id, idSize);
    ReadOfWritten(trace, 4);
    ReadOfWritten(count, 4);
    ReadOfWritten(classId, idSize);
  }

  lemma PrimArrayDecoded(h: Bytes, data: Bytes, idSize: nat, rest: Bytes)
    requires |h| == idSize + 9 && |data| == BigEndian(h[idSize + 4..idSize + 8]) * PrimSize(h[idSize + 8])
    ensures DecodePrimArray(h + (data + rest), idSize)
         == Decoded(PrimArray(BigEndian(h[..idSize]), BigEndian(h[idSize..idSize + 4]),
                              BigEndian(h[idSize + 4..idSize + 8]), h[idSize + 8], data), rest)
  {
    hide BigEndian, Take, PrimSize;
    TakeExact(h, data + rest);
    TakeExact(data, rest);
  }

  lemma PrimArrayRoundTrip(id: nat, trace: nat, count: nat, elemType: byte, data: Bytes, idSize: nat, rest: Bytes)
    requires IsSub(PrimArray(id, trace, count, elemType, data), idSize)
    ensures DecodePrimArray(EncodeSub(PrimArray(id, trace, count, elemType, data), idSize)[1..] + rest, idSize)
         == Decoded(PrimArray(id, trace, count, elemType, data), rest)
  {
    hide ToBytes, BigEndian, Pow256, PrimSize, DecodePrimArray;
    Pow256Of4And8();
    var h := ToBytes(id, idSize) + ToBytes(trace, 4) + ToBytes(count, 4) + [elemType];
    assert EncodeSub(PrimArray(id, trace, count, elemType, data), idSize)[1..] + rest == h + (data + rest);
    Slices(ToBytes(id, idSize), ToBytes(trace, 4), ToBytes(count, 4), [elemType]);
    assert h[idSize + 8] == h[idSize + 8..idSize + 9][0];
    ReadOfWritten(id, idSize);
    ReadOfWritten(trace, 4);
    ReadOfWritten(count, 4);
    PrimArrayDecoded(h, data, idSize, rest);
  }

  lemma SubRoundTrip(sub: Sub, idSize: nat, rest: Bytes)
    requires IsSub(sub, idSize)
    ensures DecodeSub(EncodeSub(sub, idSize) + rest, idSize) == Decoded(sub, rest)
  {
    hide DecodeInstance, DecodeObjArray, DecodePrimArray;
    var b := EncodeSub(sub, idSize);
    assert (b + rest)[1..] == b[1..] + rest;
    match sub
    case Block(tag, body) => TakeExact(body, rest); assert b[1..] == body;
    case Instance(id, trace, classId, fields) => InstanceRoundTrip(id, trace, classId, fields, idSize, rest);
    case ObjArray(id, trace, count, classId, data) => ObjArrayRoundTrip(id, trace, count, classId, data, idSize, rest);
    case PrimArray(id, trace, count, t, data) => PrimArrayRoundTrip(id, trace, count, t, data, idSize, rest);
  }

  // ----- Decoding then encoding -----

  /** A header is its pieces. */
  lemma Pieces(h: Bytes, i: nat, j: nat, k: nat)
    requires i <= j <= k <= |h|
    ensures h == h[..i] + h[i..j] + h[j..k] + h[k..]
  {
  }

  lemma InstanceInverse(b: Bytes, idSize: nat)
    requires DecodeInstance(b, idSize).Decoded?
    ensures var d := DecodeInstance(b, idSize); IsSub(d.value, idSize) && [INSTANCE] + b == EncodeSub(d.value, idSize) + d.rest
  {
    hide ToBytes, BigEndian, Pow256, Take;
    Pow256Of4And8();
    var h := Take(b, idSize + 4 + idSize + 4).value;
    var h1, h2, h3, h4 := h[..idSize], h[idSize..idSize + 4], h[idSize + 4..2 * idSize + 4], h[2 * idSize + 4..2 * idSize + 8];
    Pieces(h, idSize, idSize + 4, 2 * idSize + 4);
    assert h4 == h[2 * idSize + 4..];
    WrittenOfRead(h1);
    WrittenOfRead(h2);
    WrittenOfRead(h3);
    WrittenOfRead(h4);
  }

  lemma ObjArrayInverse(b: Bytes, idSize: nat)
    requires DecodeObjArray(b, idSize).Decoded?
    ensures var d := DecodeObjArray(b, idSize); IsSub(d.value, idSize) && [OBJ_ARRAY] + b == EncodeSub(d.value, idSize) + d.rest
  {
    hide ToBytes, BigEndian, Pow256, Take;
    Pow256Of4And8();
    var h := Take(b, idSize + 4 + 4 + idSize).value;
    var h1, h2, h3, h4 := h[..idSize], h[idSize..idSize + 4], h[idSize + 4..idSize + 8], h[idSize + 8..2 * idSize + 8];
    Pieces(h, idSize, idSize + 4, idSize + 8);
    assert h4 == h[idSize + 8..];
    WrittenOfRead(h1);
    WrittenOfRead(h2);
    WrittenOfRead(h3);
    WrittenOfRead(h4);
  }

  lemma PrimArrayInverse(b: Bytes, idSize: nat)
    requires DecodePrimArray(b, idSize).Decoded?
    ensures var d := DecodePrimArray(b, idSize); IsSub(d.value, idSize) && [PRIM_ARRAY] + b == EncodeSub(d.value, idSize) + d.rest
  {
    hide ToBytes, BigEndian, Pow256, Take;
    Pow256Of4And8();
    var h := Take(b, idSize + 4 + 4 + 1).value;
    var h1, h2, h3 := h[..idSize], h[idSize..idSize + 4], h[idSize + 4..idSize + 8];
    Pieces(h, idSize, idSize + 4, idSize + 8);
    assert h[idSize + 8..] == [h[idSize + 8]];
    WrittenOfRead(h1);
    WrittenOfRead(h2);
    WrittenOfRead(h3);
  }

  /** Whatever is decoded is a well-formed sub-record, and its encoding is exactly the bytes consumed. */
  lemma SubInverse(b: Bytes, idSize: nat)
    requires DecodeSub(b, idSize).Decoded?
    ensures var d := DecodeSub(b, idSize); IsSub(d.value, idSize) && b == EncodeSub(d.value, idSize) + d.rest
  {
    hide DecodeInstance, DecodeObjArray, DecodePrimArray;
    assert b == [b[0]] + b[1..];
    if IsBlock(b[0]) {
    } else if b[0] == INSTANCE {
      InstanceInverse(b[1..], idSize);
    } else if b[0] == OBJ_ARRAY {
      ObjArrayInverse(b[1..], idSize);
    } else {
      PrimArrayInverse(b[1..], idSize);
    }
  }
}
