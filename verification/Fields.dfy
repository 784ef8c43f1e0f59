/** Parameter contents of ITU-T Q.713 (03/01) clause 3 that have a fixed number of octets. */
module Fields {
  import opened Basics

  const MAX_LOCAL_REFERENCE: u32 := 0xff_ffff
  const LOCAL_REFERENCE_RESERVED: u32 := 0xff_ffff
  const MAX_REMAINING_SEGMENTS: byte := 15
  const MAX_HOP_COUNTER: byte := 15
  const MAX_IMPORTANCE: byte := 7
  const MAX_CREDIT: byte := 127
  const MAX_SEQUENCE_NUMBER: byte := 127

  datatype ProtocolClass = ProtocolClass(number: byte, returnOnError: bool)

  datatype Segmentation = Segmentation(first: bool, inSequence: bool, remaining: byte, reference: u32)

  datatype Sequencing = Sequencing(send: byte, receive: byte, moreData: bool)

  function EncodeClass(p: ProtocolClass): Option<bytes> {
    if p.number > 3 || (p.returnOnError && p.number > 1) then None
    else Some([p.number + (if p.returnOnError then 0x80 else 0)])
  }

  /** Bits 5-8 select return on error only when they are 1000 and the class is connectionless. */
  function DecodeClass(b: bytes): Option<ProtocolClass> {
    if |b| != 1 then None
    else Some(ProtocolClass(b[0] % 16, b[0] % 16 <= 1 && b[0] / 16 == 8))
  }

  function Uint24(v: u32): bytes {
    [v % 256, v / 256 % 256, v / 65536 % 256]
  }

  function FromUint24(b: bytes): (v: u32)
    requires |b| == 3
    ensures v <= MAX_LOCAL_REFERENCE
  {
    b[0] as int + b[1] as int * 256 + b[2] as int * 65536
  }

  lemma Uint24RoundTrip(v: u32)
    requires v <= MAX_LOCAL_REFERENCE
    ensures FromUint24(Uint24(v)) == v
  {
    assert v == v % 256 + v / 256 * 256;
    assert v / 256 == v / 256 % 256 + v / 65536 * 256;
  }

  /** The reserved all-ones reference is refused as well as values wider than 24 bits. */
  function EncodeReference(r: u32): Option<bytes> {
    if r >= LOCAL_REFERENCE_RESERVED then None else Some(Uint24(r))
  }

  function DecodeReference(b: bytes): Option<u32> {
    if |b| != 3 then None else Some(FromUint24(b))
  }

  /** An octet the encoder accepts between two bounds and the decoder passes on unchanged. */
  function EncodeRanged(v: byte, low: byte, high: byte): Option<bytes> {
    if low <= v <= high then Some([v]) else None
  }

  function DecodeOctet(b: bytes): Option<byte> {
    if |b| != 1 then None else Some(b[0])
  }

  function EncodeHop(h: byte): Option<bytes> { EncodeRanged(h, 1, MAX_HOP_COUNTER) }

  function EncodeCredit(c: byte): Option<bytes> { EncodeRanged(c, 0, MAX_CREDIT) }

  function EncodeImportance(i: byte): Option<bytes> { EncodeRanged(i, 0, MAX_IMPORTANCE) }

  /** Bits 4-8 of an importance are spare. */
  function DecodeImportance(b: bytes): Option<byte> {
    if |b| != 1 then None else Some(b[0] % 8)
  }

  function EncodeSequencing(s: Sequencing): Option<bytes> {
    if s.send > MAX_SEQUENCE_NUMBER || s.receive > MAX_SEQUENCE_NUMBER then None
    else Some([s.send * 2, s.receive * 2 + (if s.moreData then 1 else 0)])
  }

  function DecodeSequencing(b: bytes): Option<Sequencing> {
    if |b| != 2 then None else Some(Sequencing(b[0] / 2, b[1] / 2, b[1] % 2 == 1))
  }

  function EncodeSegmentation(s: Segmentation): Option<bytes> {
    if s.remaining > MAX_REMAINING_SEGMENTS || s.reference > MAX_LOCAL_REFERENCE then None
    else Some([s.remaining + (if s.first then 0x80 else 0) + (if s.inSequence then 0x40 else 0)] + Uint24(s.reference))
  }

  function DecodeSegmentation(b: bytes): Option<Segmentation> {
    if |b| != 4 then None
    else Some(Segmentation(b[0] >= 0x80, b[0] / 0x40 % 2 == 1, b[0] % 16, FromUint24(b[1..4])))
  }

  /** Every leaf the encoder accepts is decoded back to itself. */
  lemma LeafRoundTrips(p: ProtocolClass, r: u32, i: byte, q: Sequencing)
    ensures EncodeClass(p).Some? ==> DecodeClass(EncodeClass(p).value) == Some(p)
    ensures EncodeReference(r).Some? ==> DecodeReference(EncodeReference(r).value) == Some(r)
    ensures EncodeImportance(i).Some? ==> DecodeImportance(EncodeImportance(i).value) == Some(i)
    ensures EncodeSequencing(q).Some? ==> DecodeSequencing(EncodeSequencing(q).value) == Some(q)
  {
    if r < LOCAL_REFERENCE_RESERVED {
      Uint24RoundTrip(r);
    }
  }

  lemma SegmentationRoundTrip(s: Segmentation)
    ensures EncodeSegmentation(s).Some? ==> DecodeSegmentation(EncodeSegmentation(s).value) == Some(s)
  {
    if EncodeSegmentation(s).Some? {
      Uint24RoundTrip(s.reference);
      var b := EncodeSegmentation(s).value;
      assert b[1..4] == Uint24(s.reference);
    }
  }

  /** What is decoded is encodable again, whatever the spare bits were; LocalReference excepted, which may be reserved. */
  lemma DecodedSegmentationEncodes(b: bytes)
    requires |b| == 4
    ensures EncodeSegmentation(DecodeSegmentation(b).value).Some?
  {
  }
}
