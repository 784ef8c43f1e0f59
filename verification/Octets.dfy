/**
 * The octets of a message by their position: what a receiver of section 1 of ITU-T Q.713 (03/01) reads from them, and
 * what the encoder puts there, sccp.go, wire.go, connection_oriented.go, connectionless.go and params.
 */
module Octets {
  import opened Basics
  import opened Fields
  import opened Address
  import opened Messages
  import opened Wire
  import opened Codec

  // ----- The fields that have a place before the pointers -----

  /** The message type code, clause 2.1 of ITU-T Q.713 (03/01). */
  function CodeOf(m: Message): int {
    match m
    case CR(_, _, _, _, _, _, _, _, _) => 1
    case CC(_, _, _, _, _, _, _, _) => 2
    case CREF(_, _, _, _, _, _) => 3
    case RLSD(_, _, _, _, _, _) => 4
    case RLC(_, _) => 5
    case DT1(_, _, _) => 6
    case DT2(_, _, _) => 7
    case AK(_, _, _) => 8
    case UDT(_, _, _, _) => 9
    case UDTS(_, _, _, _) => 10
    case ED(_, _) => 11
    case EA(_) => 12
    case RSR(_, _, _, _) => 13
    case RSC(_, _) => 14
    case ERR(_, _, _) => 15
    case IT(_, _, _, _, _) => 16
    case XUDT(_, _, _, _, _, _, _, _) => 17
    case XUDTS(_, _, _, _, _, _, _, _) => 18
    case LUDT(_, _, _, _, _, _, _, _) => 19
    case LUDTS(_, _, _, _, _, _, _, _) => 20
  }

  function DestinationOf(m: Message): Option<u32> {
    match m
    case CC(dst, _, _, _, _, _, _, _) => Some(dst)
    case CREF(dst, _, _, _, _, _) => Some(dst)
    case RLSD(dst, _, _, _, _, _) => Some(dst)
    case RLC(dst, _) => Some(dst)
    case DT1(dst, _, _) => Some(dst)
    case DT2(dst, _, _) => Some(dst)
    case AK(dst, _, _) => Some(dst)
    case ED(dst, _) => Some(dst)
    case EA(dst) => Some(dst)
    case RSR(dst, _, _, _) => Some(dst)
    case RSC(dst, _) => Some(dst)
    case ERR(dst, _, _) => Some(dst)
    case IT(dst, _, _, _, _) => Some(dst)
    case _ => None
  }

  function SourceOf(m: Message): Option<u32> {
    match m
    case CR(src, _, _, _, _, _, _, _, _) => Some(src)
    case CC(_, src, _, _, _, _, _, _) => Some(src)
    case RLSD(_, src, _, _, _, _) => Some(src)
    case RLC(_, src) => Some(src)
    case RSR(_, src, _, _) => Some(src)
    case RSC(_, src) => Some(src)
    case IT(_, src, _, _, _) => Some(src)
    case _ => None
  }

  /** Bits 1-4 are the class; bits 5-8 are 1000 when return on error is asked for, which classes 0 and 1 alone can. */
  predicate ClassAt(b: bytes, i: nat, pc: ProtocolClass) {
    i < |b| && pc.number == b[i] % 16 && (pc.returnOnError <==> b[i] / 16 == 8 && b[i] % 16 <= 1)
  }

  /** The other octets before the pointers. */
  predicate FixedAt(b: bytes, m: Message) {
    match m
    case CR(_, pc, _, _, _, _, _, _, _) => ClassAt(b, 4, pc)
    case CC(_, _, pc, _, _, _, _, _) => ClassAt(b, 7, pc)
    case CREF(_, cause, _, _, _, _) => 4 < |b| && cause == b[4]
    case RLSD(_, _, cause, _, _, _) => 7 < |b| && cause == b[7]
    case DT1(_, more, _) => 4 < |b| && (more <==> b[4] % 2 == 1)
    case DT2(_, q, _) => 5 < |b| && q.send == b[4] / 2 && q.receive == b[5] / 2 && (q.moreData <==> b[5] % 2 == 1)
    case AK(_, receive, credit) => 5 < |b| && receive == b[4] / 2 && credit == b[5]
    case RSR(_, _, cause, _) => 7 < |b| && cause == b[7]
    case ERR(_, cause, _) => 4 < |b| && cause == b[4]
    case IT(_, _, pc, q, credit) =>
      && ClassAt(b, 7, pc) && 10 < |b| && q.send == b[8] / 2 && q.receive == b[9] / 2 && (q.moreData <==> b[9] % 2 == 1)
      && credit == b[10]
    case UDT(pc, _, _, _) => ClassAt(b, 1, pc)
    case UDTS(cause, _, _, _) => 1 < |b| && cause == b[1]
    case XUDT(pc, hop, _, _, _, _, _, _) => ClassAt(b, 1, pc) && 2 < |b| && hop == b[2]
    case XUDTS(cause, hop, _, _, _, _, _, _) => 2 < |b| && cause == b[1] && hop == b[2]
    case LUDT(pc, hop, _, _, _, _, _, _) => ClassAt(b, 1, pc) && 2 < |b| && hop == b[2]
    case LUDTS(cause, hop, _, _, _, _, _, _) => 2 < |b| && cause == b[1] && hop == b[2]
    case _ => true
  }

  /** References are read least significant octet first, the destination at octet 1, the source behind it or there. */
  predicate ReferencesAt(b: bytes, m: Message) {
    && (DestinationOf(m).Some? ==>
          4 <= |b| && DestinationOf(m).value == b[1] as int + 256 * b[2] as int + 65536 * b[3] as int)
    && (SourceOf(m).Some? && DestinationOf(m) == None ==>
          4 <= |b| && SourceOf(m).value == b[1] as int + 256 * b[2] as int + 65536 * b[3] as int)
    && (SourceOf(m).Some? && DestinationOf(m).Some? ==>
          7 <= |b| && SourceOf(m).value == b[4] as int + 256 * b[5] as int + 65536 * b[6] as int)
  }

  // ----- Reading -----

  lemma ParsedParts(b: bytes, m: Message) returns (t: MsgType, vs: seq<bytes>, ps: seq<Param>, f: Found)
    requires ParseMessage(b) == Decoded(m)
    ensures ShapeOf(t).Start() <= |b| && b[0] == ShapeOf(t).code
    ensures ParseVariables(ShapeOf(t), b, ShapeOf(t).variables) == Some(vs)
    ensures ParseOptionalPart(ShapeOf(t), b) == Some(ps) && Sort(ps, Codes(t)) == Some(f)
    ensures Assemble(t, b[1..1 + ShapeOf(t).fixed], vs, f) == Some(m)
  {
    hide ParseVariables, ParseOptionalPart, Sort, Codes, Assemble;
    t := TypeOfCode(b[0]).value;
    var fr := Parse(ShapeOf(t), b).value;
    vs, ps, f := fr.variables, fr.options, Sort(fr.options, Codes(t)).value;
  }

  /** The references of a fixed part of n octets. */
  lemma FixedReferences(b: bytes, n: nat)
    requires 3 <= n && n + 1 <= |b|
    ensures var x := b[1..1 + n];
            && FromUint24(x[..3]) == b[1] as int + 256 * b[2] as int + 65536 * b[3] as int
            && (n == 3 ==> x == x[..3])
            && (n >= 6 ==> FromUint24(x[3..6]) == b[4] as int + 256 * b[5] as int + 65536 * b[6] as int)
            && (n == 6 ==> x[3..] == x[3..6])
  {
    if n >= 6 {
      var y := b[1..1 + n][3..6];
      assert y[0] == b[4] && y[1] == b[5] && y[2] == b[6];
    }
  }

  lemma RequestAssembled(t: MsgType, b: bytes, vs: seq<bytes>, f: Found, m: Message)
    requires t == TCR && ShapeOf(t).Start() <= |b| && |vs| == ShapeOf(t).variables
    requires Assemble(t, b[1..1 + ShapeOf(t).fixed], vs, f) == Some(m)
    ensures CodeOf(m) == ShapeOf(t).code && FixedAt(b, m) && ReferencesAt(b, m)
  {
    hide FromUint24, DecodeAddress, Messages.Decoded, UserData;
    FixedReferences(b, ShapeOf(t).fixed);
  }

  lemma ConfirmAssembled(t: MsgType, b: bytes, vs: seq<bytes>, f: Found, m: Message)
    requires t == TCC && ShapeOf(t).Start() <= |b| && |vs| == ShapeOf(t).variables
    requires Assemble(t, b[1..1 + ShapeOf(t).fixed], vs, f) == Some(m)
    ensures CodeOf(m) == ShapeOf(t).code && FixedAt(b, m) && ReferencesAt(b, m)
  {
    hide FromUint24, DecodeAddress, Messages.Decoded, UserData;
    FixedReferences(b, ShapeOf(t).fixed);
  }

  lemma EndAssembled(t: MsgType, b: bytes, vs: seq<bytes>, f: Found, m: Message)
    requires (t == TCREF || t == TRLSD) && ShapeOf(t).Start() <= |b| && |vs| == ShapeOf(t).variables
    requires Assemble(t, b[1..1 + ShapeOf(t).fixed], vs, f) == Some(m)
    ensures CodeOf(m) == ShapeOf(t).code && FixedAt(b, m) && ReferencesAt(b, m)
  {
    hide FromUint24, DecodeAddress, Messages.Decoded, UserData;
    FixedReferences(b, ShapeOf(t).fixed);
  }

  lemma UnitdataAssembled(t: MsgType, b: bytes, vs: seq<bytes>, f: Found, m: Message)
    requires (t == TUDT || t == TXUDT || t == TLUDT) && ShapeOf(t).Start() <= |b| && |vs| == ShapeOf(t).variables
    requires Assemble(t, b[1..1 + ShapeOf(t).fixed], vs, f) == Some(m)
    ensures CodeOf(m) == ShapeOf(t).code && FixedAt(b, m) && ReferencesAt(b, m)
  {
    hide DecodeAddress, Messages.Decoded, UserData;
  }

  lemma ServiceAssembled(t: MsgType, b: bytes, vs: seq<bytes>, f: Found, m: Message)
    requires (t == TUDTS || t == TXUDTS || t == TLUDTS) && ShapeOf(t).Start() <= |b| && |vs| == ShapeOf(t).variables
    requires Assemble(t, b[1..1 + ShapeOf(t).fixed], vs, f) == Some(m)
    ensures CodeOf(m) == ShapeOf(t).code && FixedAt(b, m) && ReferencesAt(b, m)
  {
    hide FromUint24, Class, DecodeAddress, Messages.Decoded, UserData;
  }

  lemma ReferencesAssembled(t: MsgType, b: bytes, vs: seq<bytes>, f: Found, m: Message)
    requires (t == TRLC || t == TRSC || t == TED || t == TEA) && ShapeOf(t).Start() <= |b| && |vs| == ShapeOf(t).variables
    requires Assemble(t, b[1..1 + ShapeOf(t).fixed], vs, f) == Some(m)
    ensures CodeOf(m) == ShapeOf(t).code && FixedAt(b, m) && ReferencesAt(b, m)
  {
    hide FromUint24, ReadCR, ReadCC, ReadCREF, ReadRLSD, ReadUnitdata;
    FixedReferences(b, ShapeOf(t).fixed);
  }

  lemma CauseAssembled(t: MsgType, b: bytes, vs: seq<bytes>, f: Found, m: Message)
    requires (t == TRSR || t == TERR) && ShapeOf(t).Start() <= |b| && |vs| == ShapeOf(t).variables
    requires Assemble(t, b[1..1 + ShapeOf(t).fixed], vs, f) == Some(m)
    ensures CodeOf(m) == ShapeOf(t).code && FixedAt(b, m) && ReferencesAt(b, m)
  {
    hide FromUint24, ReadCR, ReadCC, ReadCREF, ReadRLSD, ReadUnitdata;
    FixedReferences(b, ShapeOf(t).fixed);
  }

  lemma DataAssembled(t: MsgType, b: bytes, vs: seq<bytes>, f: Found, m: Message)
    requires (t == TDT1 || t == TAK) && ShapeOf(t).Start() <= |b| && |vs| == ShapeOf(t).variables
    requires Assemble(t, b[1..1 + ShapeOf(t).fixed], vs, f) == Some(m)
    ensures CodeOf(m) == ShapeOf(t).code && FixedAt(b, m) && ReferencesAt(b, m)
  {
    hide FromUint24, ReadCR, ReadCC, ReadCREF, ReadRLSD, ReadUnitdata;
    FixedReferences(b, ShapeOf(t).fixed);
  }

  lemma SequencedAssembled(t: MsgType, b: bytes, vs: seq<bytes>, f: Found, m: Message)
    requires (t == TDT2 || t == TIT) && ShapeOf(t).Start() <= |b| && |vs| == ShapeOf(t).variables
    requires Assemble(t, b[1..1 + ShapeOf(t).fixed], vs, f) == Some(m)
    ensures CodeOf(m) == ShapeOf(t).code && FixedAt(b, m) && ReferencesAt(b, m)
  {
    hide FromUint24, ReadCR, ReadCC, ReadCREF, ReadRLSD, ReadUnitdata;
    FixedReferences(b, ShapeOf(t).fixed);
  }

  /**
   * What a received message says, by the position of its octets: the type code of its kind first, references least
   * significant octet first, and the class, cause, M bit, sequence numbers, credit and hop counter of its kind.
   */
  lemma ParsedFixed(b: bytes, m: Message)
    requires ParseMessage(b) == Decoded(m)
    ensures |b| > 0 && b[0] == CodeOf(m)
    ensures DestinationOf(m).Some? ==>
              4 <= |b| && DestinationOf(m).value == b[1] as int + 256 * b[2] as int + 65536 * b[3] as int
    ensures ReferencesAt(b, m) && FixedAt(b, m)
  {
    hide FixedAt, Assemble, ShapeOf, ParseMessage, ParseVariables, ParseOptionalPart, Sort;
    var t, vs, ps, f := ParsedParts(b, m);
    ParsedCount(t, b, vs);
    if t == TCR { RequestAssembled(t, b, vs, f, m); }
    else if t == TCC { ConfirmAssembled(t, b, vs, f, m); }
    else if t == TCREF || t == TRLSD { EndAssembled(t, b, vs, f, m); }
    else if t == TUDT || t == TXUDT || t == TLUDT { UnitdataAssembled(t, b, vs, f, m); }
    else if t == TUDTS || t == TXUDTS || t == TLUDTS { ServiceAssembled(t, b, vs, f, m); }
    else if t == TRLC || t == TRSC || t == TED || t == TEA { ReferencesAssembled(t, b, vs, f, m); }
    else if t == TRSR || t == TERR { CauseAssembled(t, b, vs, f, m); }
    else if t == TDT1 || t == TAK { DataAssembled(t, b, vs, f, m); }
    else { SequencedAssembled(t, b, vs, f, m); }
  }

  lemma ParsedCount(t: MsgType, b: bytes, vs: seq<bytes>)
    requires ShapeOf(t).Start() <= |b| && ParseVariables(ShapeOf(t), b, ShapeOf(t).variables) == Some(vs)
    ensures |vs| == ShapeOf(t).variables && |b| > 0
  {
  }

  // ----- Writing -----

  /** Bits that a receiver does not look at are sent as 0, and the reserved reference is never sent. */
  predicate FixedWritten(b: bytes, m: Message) {
    match m
    case CR(src, pc, _, _, _, _, _, _, _) => 4 < |b| && b[4] == pc.number && 2 <= pc.number <= 3
    case CC(_, _, pc, _, _, _, _, _) => 7 < |b| && b[7] == pc.number && 2 <= pc.number <= 3
    case DT1(_, more, _) => 4 < |b| && b[4] == (if more then 1 else 0)
    case DT2(_, q, _) => 5 < |b| && b[4] == 2 * q.send && b[5] == 2 * q.receive + (if q.moreData then 1 else 0)
    case AK(_, receive, credit) => 4 < |b| && b[4] == 2 * receive
    case IT(_, _, pc, q, _) =>
      && 9 < |b| && b[7] == pc.number && 2 <= pc.number <= 3
      && b[8] == 2 * q.send && b[9] == 2 * q.receive + (if q.moreData then 1 else 0)
    case UDT(pc, _, _, _) => 1 < |b| && b[1] == pc.number + (if pc.returnOnError then 0x80 else 0)
    case XUDT(pc, _, _, _, _, _, _, _) => 1 < |b| && b[1] == pc.number + (if pc.returnOnError then 0x80 else 0)
    case LUDT(pc, _, _, _, _, _, _, _) => 1 < |b| && b[1] == pc.number + (if pc.returnOnError then 0x80 else 0)
    case _ => true
  }

  lemma WrittenSetup(b: bytes, m: Message, x: bytes)
    requires m.CR? || m.CC?
    requires FixedOf(m) == Some(x) && Holds(b, 1, x)
    ensures FixedWritten(b, m)
  {
    hide EncodeReference, EncodeClass;
    ClassWritten(m.protocolClass);
    ReferenceLength(m.source);
    if m.CC? {
      ReferenceLength(m.destination);
      assert x[6] == b[7] && x[6] == m.protocolClass.number;
    } else {
      assert x[3] == b[4] && x[3] == m.protocolClass.number;
    }
  }

  lemma WrittenData(b: bytes, m: Message, x: bytes)
    requires m.DT1? || m.AK?
    requires FixedOf(m) == Some(x) && Holds(b, 1, x)
    ensures FixedWritten(b, m)
  {
    hide EncodeReference, EncodeCredit;
    ReferenceLength(m.destination);
    assert x[3] == b[4];
  }

  lemma WrittenSequenced(b: bytes, m: Message, x: bytes)
    requires m.DT2?
    requires FixedOf(m) == Some(x) && Holds(b, 1, x)
    ensures FixedWritten(b, m)
  {
    hide EncodeReference;
    ReferenceLength(m.destination);
    assert x[3] == b[4] && x[4] == b[5];
  }

  lemma WrittenInactivity(b: bytes, m: Message, x: bytes)
    requires m.IT?
    requires FixedOf(m) == Some(x) && Holds(b, 1, x)
    ensures FixedWritten(b, m)
  {
    hide EncodeReference, EncodeClass, EncodeCredit;
    ReferenceLength(m.destination);
    ReferenceLength(m.source);
    ClassWritten(m.protocolClass);
    assert x[6] == b[7] && x[7] == b[8] && x[8] == b[9];
  }

  lemma WrittenUnitdata(b: bytes, m: Message, x: bytes)
    requires m.UDT? || m.XUDT? || m.LUDT?
    requires FixedOf(m) == Some(x) && Holds(b, 1, x)
    ensures FixedWritten(b, m)
  {
    hide EncodeClass, EncodeHop;
    ClassWritten(m.protocolClass);
    assert x[0] == b[1] && x[0] == EncodeClass(m.protocolClass).value[0];
  }

  lemma ClassWritten(pc: ProtocolClass)
    requires EncodeClass(pc).Some?
    ensures EncodeClass(pc).value == [pc.number + (if pc.returnOnError then 0x80 else 0)]
    ensures pc.number <= 3 && (pc.returnOnError ==> pc.number <= 1)
  {
  }

  lemma WrittenFixed(b: bytes, m: Message, x: bytes)
    requires FixedOf(m) == Some(x) && Holds(b, 1, x)
    ensures FixedWritten(b, m)
  {
    hide FixedOf;
    if m.CR? || m.CC? {
      WrittenSetup(b, m, x);
    } else if m.DT1? || m.AK? {
      WrittenData(b, m, x);
    } else if m.DT2? {
      WrittenSequenced(b, m, x);
    } else if m.IT? {
      WrittenInactivity(b, m, x);
    } else if m.UDT? || m.XUDT? || m.LUDT? {
      WrittenUnitdata(b, m, x);
    }
  }

  lemma MarshalledFixed(limit: int, m: Message)
    requires Marshal(limit, m).Octets?
    ensures var b := Marshal(limit, m).octets;
            && 1 < |b| <= LimitOf(limit) && b[0] == CodeOf(m)
            && (DestinationOf(m).Some? ==>
                  4 <= |b| && DestinationOf(m).value == b[1] as int + 256 * b[2] as int + 65536 * b[3] as int)
            && ReferencesAt(b, m) && FixedAt(b, m) && FixedWritten(b, m)
  {
    hide FixedAt, FixedWritten, ReferencesAt, ParseMessage, FixedOf, VariablesOf, OptionsOf, Representable, Laid;
    CodecRoundTrip(limit, m);
    ParsedFixed(Marshal(limit, m).octets, m);
    var sh, fr := ShapeOf(TypeOf(m)), FrameOf(m).value;
    RenderLaid(sh, fr);
    FixedHeld(sh, fr, Render(sh, fr));
    WrittenFixed(Render(sh, fr), m, fr.fixed);
  }

  lemma FixedHeld(sh: Shape, fr: Frame, b: bytes)
    requires sh.Valid() && Representable(sh, fr) && Laid(sh, fr, b)
    ensures Holds(b, 1, fr.fixed)
  {
  }

  // ----- Parameters behind the pointers -----

  /** The contents that the one-octet pointer at p designates: a length indicator, then as many octets. */
  function ShortAt(b: bytes, p: nat): Option<bytes> {
    if p >= |b| then None else
    var t := p + b[p];
    if t < |b| && t + 1 + b[t] <= |b| then Some(b[t + 1..t + 1 + b[t]]) else None
  }

  /** The same through a pointer of two octets, less significant first, which counts from the second of them. */
  function FarAt(b: bytes, p: nat): Option<bytes> {
    if p + 1 >= |b| then None else
    var t: nat := p + 1 + b[p] as int + 256 * b[p + 1] as int;
    if t < |b| && t + 1 + b[t] <= |b| then Some(b[t + 1..t + 1 + b[t]]) else None
  }

  /** Long data has a length indicator of two octets, less significant first. */
  function LongAt(b: bytes, p: nat): Option<bytes> {
    if p + 1 >= |b| then None else
    var t: nat := p + 1 + b[p] as int + 256 * b[p + 1] as int;
    if t + 1 >= |b| then None else
    var n: nat := b[t] as int + 256 * b[t + 1] as int;
    if t + 2 + n <= |b| then Some(b[t + 2..t + 2 + n]) else None
  }

  predicate IsAddress(x: Option<bytes>, a: PartyAddress) {
    x.Some? && DecodeAddress(x.value) == Some(a)
  }

  /** Each mandatory variable parameter at its own pointer: called address, calling address, data. */
  predicate VariablesAt(b: bytes, m: Message) {
    match m
    case CR(_, _, called, _, _, _, _, _, _) => IsAddress(ShortAt(b, 5), called)
    case DT1(_, _, data) => ShortAt(b, 5) == Some(data)
    case DT2(_, _, data) => ShortAt(b, 6) == Some(data)
    case ED(_, data) => ShortAt(b, 4) == Some(data)
    case UDT(_, called, calling, data) =>
      IsAddress(ShortAt(b, 2), called) && IsAddress(ShortAt(b, 3), calling) && ShortAt(b, 4) == Some(data)
    case UDTS(_, called, calling, data) =>
      IsAddress(ShortAt(b, 2), called) && IsAddress(ShortAt(b, 3), calling) && ShortAt(b, 4) == Some(data)
    case XUDT(_, _, called, calling, data, _, _, _) =>
      IsAddress(ShortAt(b, 3), called) && IsAddress(ShortAt(b, 4), calling) && ShortAt(b, 5) == Some(data)
    case XUDTS(_, _, called, calling, data, _, _, _) =>
      IsAddress(ShortAt(b, 3), called) && IsAddress(ShortAt(b, 4), calling) && ShortAt(b, 5) == Some(data)
    case LUDT(_, _, called, calling, data, _, _, _) =>
      IsAddress(FarAt(b, 3), called) && IsAddress(FarAt(b, 5), calling) && LongAt(b, 7) == Some(data)
    case LUDTS(_, _, called, calling, data, _, _, _) =>
      IsAddress(FarAt(b, 3), called) && IsAddress(FarAt(b, 5), calling) && LongAt(b, 7) == Some(data)
    case _ => true
  }

  lemma ShortRead(sh: Shape, b: bytes, i: nat, v: bytes)
    requires sh.Valid() && i < sh.variables && sh.Start() <= |b| && ParseVariable(sh, b, i) == Some(v)
    ensures sh.pointerSize == 1 && !sh.IsLong(i) ==> ShortAt(b, 1 + sh.fixed + i) == Some(v)
    ensures sh.pointerSize == 2 && !sh.IsLong(i) ==> FarAt(b, 1 + sh.fixed + 2 * i) == Some(v)
    ensures sh.pointerSize == 2 && sh.IsLong(i) ==> LongAt(b, 1 + sh.fixed + 2 * i) == Some(v)
  {
    PointerRoom(sh, i);
  }

  lemma VariablesRead(t: MsgType, b: bytes, vs: seq<bytes>)
    requires ShapeOf(t).Start() <= |b| && ParseVariables(ShapeOf(t), b, ShapeOf(t).variables) == Some(vs)
    ensures |vs| == ShapeOf(t).variables
    ensures forall i :: 0 <= i < |vs| ==> ParseVariable(ShapeOf(t), b, i) == Some(vs[i])
  {
    hide ParseVariable;
    VariablesExact(ShapeOf(t), b, ShapeOf(t).variables, vs);
  }

  lemma VariablesAssembled(t: MsgType, b: bytes, vs: seq<bytes>, x: bytes, f: Found, m: Message)
    requires |x| == ShapeOf(t).fixed && |vs| == ShapeOf(t).variables && Assemble(t, x, vs, f) == Some(m)
    ensures |vs| == 1 && !m.CR? ==> (m.DT1? || m.DT2? || m.ED?) && m.data == vs[0]
    ensures |vs| == 1 && m.CR? ==> DecodeAddress(vs[0]) == Some(m.called)
    ensures |vs| == 3 ==> IsUnitdata(t) && (m.UDT? || m.UDTS? || m.XUDT? || m.XUDTS? || m.LUDT? || m.LUDTS?)
    ensures |vs| == 3 ==> DecodeAddress(vs[0]) == Some(m.called) && DecodeAddress(vs[1]) == Some(m.calling) && m.data == vs[2]
  {
    hide DecodeAddress, Messages.Decoded, UserData, FromUint24;
  }

  /** What the pointers of a type designate, in their order. */
  predicate PointedAt(t: MsgType, b: bytes, vs: seq<bytes>)
    requires |vs| == ShapeOf(t).variables
  {
    var p := 1 + ShapeOf(t).fixed;
    if |vs| == 1 then ShortAt(b, p) == Some(vs[0])
    else if |vs| == 3 && (t == TLUDT || t == TLUDTS) then
      FarAt(b, p) == Some(vs[0]) && FarAt(b, p + 2) == Some(vs[1]) && LongAt(b, p + 4) == Some(vs[2])
    else if |vs| == 3 then
      ShortAt(b, p) == Some(vs[0]) && ShortAt(b, p + 1) == Some(vs[1]) && ShortAt(b, p + 2) == Some(vs[2])
    else true
  }

  lemma ParsedPointers(t: MsgType, b: bytes, vs: seq<bytes>)
    requires ShapeOf(t).Start() <= |b| && ParseVariables(ShapeOf(t), b, ShapeOf(t).variables) == Some(vs)
    ensures |vs| == ShapeOf(t).variables && PointedAt(t, b, vs)
  {
    hide ParseVariable, ParseVariables, ShortAt, FarAt, LongAt;
    VariablesRead(t, b, vs);
    if |vs| > 0 {
      ShortRead(ShapeOf(t), b, 0, vs[0]);
    }
    if |vs| == 3 {
      ShortRead(ShapeOf(t), b, 1, vs[1]);
      ShortRead(ShapeOf(t), b, 2, vs[2]);
    }
  }

  lemma VariablesSay(t: MsgType, b: bytes, vs: seq<bytes>, x: bytes, f: Found, m: Message)
    requires |x| == ShapeOf(t).fixed && |vs| == ShapeOf(t).variables && Assemble(t, x, vs, f) == Some(m) && TypeOf(m) == t
    requires PointedAt(t, b, vs)
    ensures VariablesAt(b, m)
  {
    hide DecodeAddress, Assemble, ShortAt, FarAt, LongAt;
    VariablesAssembled(t, b, vs, x, f, m);
  }

  lemma UnitdataType(t: MsgType, x: bytes, vs: seq<bytes>, f: Found, m: Message)
    requires IsUnitdata(t) && |x| == ShapeOf(t).fixed && |vs| == 3 && ReadUnitdata(t, x, vs, f) == Some(m)
    ensures TypeOf(m) == t
  {
    hide DecodeAddress, Messages.Decoded, Class;
  }

  lemma AssembledType(t: MsgType, x: bytes, vs: seq<bytes>, f: Found, m: Message)
    requires |x| == ShapeOf(t).fixed && |vs| == ShapeOf(t).variables && Assemble(t, x, vs, f) == Some(m)
    ensures TypeOf(m) == t
  {
    hide DecodeAddress, Messages.Decoded, UserData, FromUint24, Class, DecodeSequencing, ReadUnitdata;
    if IsUnitdata(t) {
      UnitdataType(t, x, vs, f, m);
    }
  }

  /** The mandatory variable parameters of a received message are the octets that its pointers designate. */
  lemma ParsedVariables(b: bytes, m: Message)
    requires ParseMessage(b) == Decoded(m)
    ensures VariablesAt(b, m)
  {
    hide VariablesAt, Assemble, ParseMessage, ParseVariables, ParseOptionalPart, Sort, PointedAt, ShapeOf;
    var t, vs, ps, f := ParsedParts(b, m);
    ParsedPointers(t, b, vs);
    AssembledType(t, b[1..1 + ShapeOf(t).fixed], vs, f, m);
    VariablesSay(t, b, vs, b[1..1 + ShapeOf(t).fixed], f, m);
  }

  // ----- Optional parameters -----

  predicate Absent(ps: seq<Param>, code: int) {
    forall p :: p in ps ==> p.code != code
  }

  /** What is known of a recognised parameter is what the list holds under its code, and nothing else is known. */
  lemma {:induction false} SortKnown(ps: seq<Param>, codes: set<byte>, f: Found, c: byte)
    requires Sort(ps, codes) == Some(f)
    ensures c in f.known ==> Param(c, f.known[c]) in ps
    ensures c in codes && c !in f.known ==> Absent(ps, c)
  {
    if |ps| > 0 {
      var g := Sort(ps[..|ps| - 1], codes).value;
      SortKnown(ps[..|ps| - 1], codes, g, c);
      assert ps == ps[..|ps| - 1] + [ps[|ps| - 1]];
    }
  }

  /** Segmentation parameter: bit 8 is F, bit 7 is C, bits 1-4 count the segments that remain, then the reference. */
  predicate SegmentationIs(x: bytes, s: Segmentation) {
    && |x| == 4
    && (s.first <==> x[0] / 128 == 1) && (s.inSequence <==> x[0] / 64 % 2 == 1) && s.remaining == x[0] % 16
    && s.reference == x[1] as int + 256 * x[2] as int + 65536 * x[3] as int
  }

  lemma SegmentationRead(x: bytes, s: Segmentation)
    ensures DecodeSegmentation(x) == Some(s) <==> SegmentationIs(x, s)
  {
    if |x| == 4 {
      var y := x[1..4];
      assert y[0] == x[1] && y[1] == x[2] && y[2] == x[3];
    }
  }

  /** The two spare bits are sent as 0. */
  lemma SegmentationWritten(s: Segmentation)
    requires EncodeSegmentation(s).Some?
    ensures var x := EncodeSegmentation(s).value;
            && SegmentationIs(x, s)
            && x[0] == (if s.first then 128 else 0) + (if s.inSequence then 64 else 0) + s.remaining
  {
    SegmentationRoundTrip(s);
    SegmentationRead(EncodeSegmentation(s).value, s);
  }

  ghost predicate ImportanceIn(ps: seq<Param>, v: Option<byte>) {
    if v == None then Absent(ps, 0x12) else exists x: byte :: Param(0x12, [x]) in ps && v.value == x % 8
  }

  ghost predicate SegmentationIn(ps: seq<Param>, v: Option<Segmentation>) {
    if v == None then Absent(ps, 0x10) else exists x: bytes :: Param(0x10, x) in ps && SegmentationIs(x, v.value)
  }

  ghost predicate AddressIn(ps: seq<Param>, code: byte, v: Option<PartyAddress>) {
    if v == None then Absent(ps, code) else exists x: bytes :: Param(code, x) in ps && DecodeAddress(x) == v
  }

  ghost predicate OctetIn(ps: seq<Param>, code: byte, v: Option<byte>) {
    if v == None then Absent(ps, code) else Param(code, [v.value]) in ps
  }

  predicate DataIn(ps: seq<Param>, data: bytes) {
    Param(0x0f, data) in ps || (data == [] && Absent(ps, 0x0f))
  }

  lemma KnownImportance(ps: seq<Param>, codes: set<byte>, f: Found, v: Option<byte>)
    requires Sort(ps, codes) == Some(f) && 0x12 in codes && Messages.Decoded(f, 0x12, DecodeImportance) == Some(v)
    ensures ImportanceIn(ps, v)
  {
    hide Sort;
    SortKnown(ps, codes, f, 0x12);
    if 0x12 in f.known {
      var x := f.known[0x12];
      assert x == [x[0]];
    }
  }

  lemma KnownSegmentation(ps: seq<Param>, codes: set<byte>, f: Found, v: Option<Segmentation>)
    requires Sort(ps, codes) == Some(f) && 0x10 in codes && Messages.Decoded(f, 0x10, DecodeSegmentation) == Some(v)
    ensures SegmentationIn(ps, v)
  {
    hide Sort, DecodeSegmentation, SegmentationIs;
    SortKnown(ps, codes, f, 0x10);
    if 0x10 in f.known {
      SegmentationRead(f.known[0x10], v.value);
    }
  }

  lemma KnownAddress(ps: seq<Param>, codes: set<byte>, f: Found, code: byte, v: Option<PartyAddress>)
    requires Sort(ps, codes) == Some(f) && code in codes && Messages.Decoded(f, code, DecodeAddress) == Some(v)
    ensures AddressIn(ps, code, v)
  {
    hide Sort, DecodeAddress;
    SortKnown(ps, codes, f, code);
  }

  lemma KnownOctet(ps: seq<Param>, codes: set<byte>, f: Found, code: byte, v: Option<byte>)
    requires Sort(ps, codes) == Some(f) && code in codes && Messages.Decoded(f, code, DecodeOctet) == Some(v)
    ensures OctetIn(ps, code, v)
  {
    hide Sort;
    SortKnown(ps, codes, f, code);
    if code in f.known {
      var x := f.known[code];
      assert x == [x[0]];
    }
  }

  lemma KnownData(ps: seq<Param>, codes: set<byte>, f: Found)
    requires Sort(ps, codes) == Some(f) && 0x0f in codes
    ensures DataIn(ps, UserData(f))
  {
    hide Sort;
    SortKnown(ps, codes, f, 0x0f);
  }

  /** Optional parameters by their codes, clause 3 of ITU-T Q.713 (03/01). */
  ghost predicate OptionsSay(ps: seq<Param>, m: Message) {
    match m
    case CR(_, _, _, credit, calling, data, hop, importance, _) =>
      && OctetIn(ps, 0x09, credit) && AddressIn(ps, 0x04, calling) && DataIn(ps, data) && OctetIn(ps, 0x11, hop)
      && ImportanceIn(ps, importance)
    case CC(_, _, _, credit, called, data, importance, _) =>
      OctetIn(ps, 0x09, credit) && AddressIn(ps, 0x03, called) && DataIn(ps, data) && ImportanceIn(ps, importance)
    case CREF(_, _, called, data, importance, _) =>
      AddressIn(ps, 0x03, called) && DataIn(ps, data) && ImportanceIn(ps, importance)
    case RLSD(_, _, _, data, importance, _) => DataIn(ps, data) && ImportanceIn(ps, importance)
    case XUDT(_, _, _, _, _, seg, importance, _) => SegmentationIn(ps, seg) && ImportanceIn(ps, importance)
    case XUDTS(_, _, _, _, _, seg, importance, _) => SegmentationIn(ps, seg) && ImportanceIn(ps, importance)
    case LUDT(_, _, _, _, _, seg, importance, _) => SegmentationIn(ps, seg) && ImportanceIn(ps, importance)
    case LUDTS(_, _, _, _, _, seg, importance, _) => SegmentationIn(ps, seg) && ImportanceIn(ps, importance)
    case _ => true
  }

  lemma SetupOptions(t: MsgType, ps: seq<Param>, x: bytes, vs: seq<bytes>, f: Found, m: Message)
    requires t == TCR || t == TCC
    requires |x| == ShapeOf(t).fixed && |vs| == ShapeOf(t).variables && Assemble(t, x, vs, f) == Some(m)
    requires Sort(ps, Codes(t)) == Some(f)
    ensures OptionsSay(ps, m)
  {
    hide DecodeAddress, Messages.Decoded, UserData, FromUint24, Sort, ImportanceIn, AddressIn, OctetIn, DataIn, Class;
    if t == TCR {
      KnownOctet(ps, Codes(t), f, 0x09, m.creditParam);
      KnownAddress(ps, Codes(t), f, 0x04, m.originating);
      KnownOctet(ps, Codes(t), f, 0x11, m.hopParam);
    } else {
      KnownOctet(ps, Codes(t), f, 0x09, m.creditParam);
      KnownAddress(ps, Codes(t), f, 0x03, m.responding);
    }
    KnownData(ps, Codes(t), f);
    KnownImportance(ps, Codes(t), f, m.importance);
  }

  lemma EndOptions(t: MsgType, ps: seq<Param>, x: bytes, vs: seq<bytes>, f: Found, m: Message)
    requires t == TCREF || t == TRLSD
    requires |x| == ShapeOf(t).fixed && |vs| == ShapeOf(t).variables && Assemble(t, x, vs, f) == Some(m)
    requires Sort(ps, Codes(t)) == Some(f)
    ensures OptionsSay(ps, m)
  {
    hide DecodeAddress, Messages.Decoded, UserData, FromUint24, Sort, ImportanceIn, AddressIn, OctetIn, DataIn;
    if t == TCREF {
      KnownAddress(ps, Codes(t), f, 0x03, m.responding);
    }
    KnownData(ps, Codes(t), f);
    KnownImportance(ps, Codes(t), f, m.importance);
  }

  lemma ExtendedOptions(t: MsgType, ps: seq<Param>, x: bytes, vs: seq<bytes>, f: Found, m: Message)
    requires t == TXUDT || t == TXUDTS || t == TLUDT || t == TLUDTS
    requires |x| == ShapeOf(t).fixed && |vs| == ShapeOf(t).variables && Assemble(t, x, vs, f) == Some(m)
    requires Sort(ps, Codes(t)) == Some(f)
    ensures OptionsSay(ps, m)
  {
    hide DecodeAddress, Messages.Decoded, UserData, Sort, ImportanceIn, SegmentationIn, Class;
    KnownSegmentation(ps, Codes(t), f, m.segmentation);
    KnownImportance(ps, Codes(t), f, m.importance);
  }

  /** A list of parameters from octet at: code, length, contents, until the octet 0 or the end of the message. */
  ghost predicate ListAt(b: bytes, at: nat, ps: seq<Param>)
    decreases |ps|
  {
    if |ps| == 0 then at == |b| || (at < |b| && b[at] == 0)
    else
      var v := ps[0].value;
      && at + 2 + |v| <= |b| && b[at] == ps[0].code && b[at] != 0 && b[at + 1] == |v| && b[at + 2..at + 2 + |v|] == v
      && ListAt(b, at + 2 + |v|, ps[1..])
  }

  lemma {:induction false} ListRead(b: bytes, at: nat, ps: seq<Param>)
    requires OptionsAt(b, at, ps)
    ensures ListAt(b, at, ps)
    decreases |ps|
  {
    if |ps| > 0 {
      var x := Encoded(ps[0]);
      assert x[0] == b[at] && x[1] == b[at + 1];
      HoldsSplit(b, at, [ps[0].code, |ps[0].value|], ps[0].value);
      HoldsSlice(b, at + 2, ps[0].value);
      ListRead(b, at + 2 + |ps[0].value|, ps[1..]);
    }
  }

  /** The list that the one-octet pointer at p designates; 0 says that there is none. */
  ghost predicate OptionalAt(b: bytes, p: nat, ps: seq<Param>) {
    p < |b| && if b[p] == 0 then ps == [] else p + b[p] <= |b| && ListAt(b, p + b[p], ps)
  }

  ghost predicate FarOptionalAt(b: bytes, p: nat, ps: seq<Param>) {
    p + 1 < |b|
    && var v := b[p] as int + 256 * b[p + 1] as int;
    if v == 0 then ps == [] else p + 1 + v <= |b| && ListAt(b, p + 1 + v, ps)
  }

  /** The pointer to the optional part follows the others. */
  ghost predicate OptionalPartAt(b: bytes, m: Message, ps: seq<Param>) {
    match m
    case CR(_, _, _, _, _, _, _, _, _) => OptionalAt(b, 6, ps)
    case CC(_, _, _, _, _, _, _, _) => OptionalAt(b, 8, ps)
    case CREF(_, _, _, _, _, _) => OptionalAt(b, 5, ps)
    case RLSD(_, _, _, _, _, _) => OptionalAt(b, 8, ps)
    case RSR(_, _, _, _) => OptionalAt(b, 8, ps)
    case ERR(_, _, _) => OptionalAt(b, 5, ps)
    case XUDT(_, _, _, _, _, _, _, _) => OptionalAt(b, 6, ps)
    case XUDTS(_, _, _, _, _, _, _, _) => OptionalAt(b, 6, ps)
    case LUDT(_, _, _, _, _, _, _, _) => FarOptionalAt(b, 9, ps)
    case LUDTS(_, _, _, _, _, _, _, _) => FarOptionalAt(b, 9, ps)
    case _ => ps == []
  }

  lemma OptionalRead(sh: Shape, b: bytes, ps: seq<Param>)
    requires sh.Valid() && sh.Start() <= |b| && ParseOptionalPart(sh, b) == Some(ps)
    ensures !sh.optional ==> ps == []
    ensures sh.optional && sh.pointerSize == 1 ==> OptionalAt(b, 1 + sh.fixed + sh.variables, ps)
    ensures sh.optional && sh.pointerSize == 2 ==> FarOptionalAt(b, 1 + sh.fixed + 2 * sh.variables, ps)
  {
    hide ListAt, OptionsAt, ParseOptions;
    if sh.optional {
      PointerRoom(sh, sh.variables);
      if Follow(sh, b, sh.variables).value.Some? {
        var t := Follow(sh, b, sh.variables).value.value;
        OptionsExact(b, t, ps);
        ListRead(b, t, ps);
      }
    }
  }

  lemma OptionalPlaced(t: MsgType, b: bytes, ps: seq<Param>, m: Message)
    requires ShapeOf(t).Start() <= |b| && ParseOptionalPart(ShapeOf(t), b) == Some(ps) && TypeOf(m) == t
    ensures OptionalPartAt(b, m, ps)
  {
    hide OptionalAt, FarOptionalAt, ParseOptionalPart;
    OptionalRead(ShapeOf(t), b, ps);
  }

  lemma OptionsAssembled(t: MsgType, ps: seq<Param>, x: bytes, vs: seq<bytes>, f: Found, m: Message)
    requires |x| == ShapeOf(t).fixed && |vs| == ShapeOf(t).variables && Assemble(t, x, vs, f) == Some(m)
    requires Sort(ps, Codes(t)) == Some(f) && TypeOf(m) == t
    ensures OptionsSay(ps, m)
  {
    hide Assemble, ShapeOf, Sort, Codes, ImportanceIn, SegmentationIn, AddressIn, OctetIn, DataIn;
    if t == TCR || t == TCC {
      SetupOptions(t, ps, x, vs, f, m);
    } else if t == TCREF || t == TRLSD {
      EndOptions(t, ps, x, vs, f, m);
    } else if t == TXUDT || t == TXUDTS || t == TLUDT || t == TLUDTS {
      ExtendedOptions(t, ps, x, vs, f, m);
    }
  }

  /** The optional fields of a received message are what the list at its last pointer holds under their codes. */
  lemma ParsedOptional(b: bytes, m: Message)
    requires ParseMessage(b) == Decoded(m)
    ensures exists ps: seq<Param> :: OptionalPartAt(b, m, ps) && OptionsSay(ps, m)
  {
    hide OptionalPartAt, OptionsSay, Assemble, ParseMessage, ParseVariables, ParseOptionalPart, Sort, Codes, ShapeOf;
    var t, vs, ps, f := ParsedParts(b, m);
    ParsedCount(t, b, vs);
    AssembledType(t, b[1..1 + ShapeOf(t).fixed], vs, f, m);
    OptionalPlaced(t, b, ps, m);
    OptionsAssembled(t, ps, b[1..1 + ShapeOf(t).fixed], vs, f, m);
  }

  /** The octets of a message that the encoder accepts say all of it in the same places. */
  lemma MarshalledParameters(limit: int, m: Message)
    requires Marshal(limit, m).Octets?
    ensures VariablesAt(Marshal(limit, m).octets, m)
    ensures exists ps: seq<Param> :: OptionalPartAt(Marshal(limit, m).octets, m, ps) && OptionsSay(ps, m)
  {
    hide VariablesAt, OptionalPartAt, OptionsSay, ParseMessage, Marshal;
    CodecRoundTrip(limit, m);
    ParsedVariables(Marshal(limit, m).octets, m);
    ParsedOptional(Marshal(limit, m).octets, m);
  }

  // ----- Addresses -----

  /** The octets that bits 1 and 2 of the address indicator announce ahead of the global title. */
  function TitleAt(b: bytes): nat
    requires |b| > 0
  {
    1 + (if b[0] % 2 == 1 then 2 else 0) + (if b[0] / 2 % 2 == 1 then 1 else 0)
  }

  /**
   * A party address: bit 1 of the indicator announces a point code, bit 2 a subsystem number, bits 3-6 the format of
   * the global title, bit 7 routing on SSN, bit 8 national use. The point code is 14 bits, low octet first.
   */
  predicate AddressIs(b: bytes, a: PartyAddress) {
    && 0 < |b| && TitleAt(b) <= |b|
    && (a.hasPointCode <==> b[0] % 2 == 1) && (a.hasSSN <==> b[0] / 2 % 2 == 1)
    && (a.routeOnSSN <==> b[0] / 64 % 2 == 1) && (a.nationalUse <==> b[0] / 128 == 1)
    && a.pointCode == (if b[0] % 2 == 1 then (b[1] as int + 256 * b[2] as int) % 16384 else 0)
    && a.ssn == (if b[0] / 2 % 2 == 1 then b[TitleAt(b) - 1] else 0)
    && (a.globalTitle.Some? <==> b[0] / 4 % 16 != 0)
    && (a.globalTitle.Some? ==> TitleIs(b[0] / 4 % 16, b[TitleAt(b)..], a.globalTitle.value))
  }

  /** Formats 1 to 4 of a global title; any other format has no octets ahead of the address information. */
  predicate TitleIs(format: nat, x: bytes, g: GlobalTitle) {
    && g.indicator == format
    && match format
       case 1 => 1 <= |x| && g == GlobalTitle(1, 0, 0, 0, x[0] % 128, x[0] / 128 == 1, x[1..])
       case 2 => 1 <= |x| && g == GlobalTitle(2, x[0], 0, 0, 0, false, x[1..])
       case 3 => 2 <= |x| && g == GlobalTitle(3, x[0], x[1] / 16, x[1] % 16, 0, false, x[2..])
       case 4 => 3 <= |x| && g == GlobalTitle(4, x[0], x[1] / 16, x[1] % 16, x[2] % 128, false, x[3..])
       case _ => g == GlobalTitle(g.indicator, 0, 0, 0, 0, false, x)
  }

  lemma TitleRead(format: byte, x: bytes, g: GlobalTitle)
    ensures DecodeTitle(format, x) == Some(g) <==> TitleIs(format, x, g)
  {
  }

  lemma AddressRead(b: bytes, a: PartyAddress)
    ensures DecodeAddress(b) == Some(a) <==> AddressIs(b, a)
  {
    hide DecodeTitle, TitleIs;
    if |b| > 0 && TitleAt(b) <= |b| && a.globalTitle.Some? {
      TitleRead(b[0] / 4 % 16, b[TitleAt(b)..], a.globalTitle.value);
    }
  }

  /** The octets of an address have its indicator, then point code, subsystem number and global title. */
  lemma AddressWritten(a: PartyAddress)
    requires ValidAddress(a)
    ensures AddressIs(EncodeAddress(a).value, a)
    ensures var b := EncodeAddress(a).value; a.hasPointCode ==> b[1] as int + 256 * b[2] as int == a.pointCode
  {
    AddressRoundTrip(a);
    AddressRead(EncodeAddress(a).value, a);
  }
}
