/**
 * The SCCP messages of ITU-T Q.713 (03/01) Table 1 and how their fields fill a frame. FrameOf is what the encoder
 * puts in each part, None when a value cannot be carried; MessageOf reads the parts back.
 */
module Messages {
  import opened Basics
  import opened Fields
  import opened Address
  import opened Wire

  const MAX_DATA: nat := 255
  const MAX_LONG_DATA: nat := 3952
  const MAX_CONNECTION_DATA: nat := 128
  const MAX_EXPEDITED_DATA: nat := 32

  const P_CALLED: byte := 0x03
  const P_CALLING: byte := 0x04
  const P_CREDIT: byte := 0x09
  const P_DATA: byte := 0x0f
  const P_SEGMENTATION: byte := 0x10
  const P_HOP: byte := 0x11
  const P_IMPORTANCE: byte := 0x12
  const P_RESERVED: byte := 0xff

  /** Optional fields are options; absent user data is the empty sequence. */
  datatype Message =
    | CR(source: u32, protocolClass: ProtocolClass, called: PartyAddress, creditParam: Option<byte>,
         originating: Option<PartyAddress>, data: bytes, hopParam: Option<byte>, importance: Option<byte>, raw: seq<Param>)
    | CC(destination: u32, source: u32, protocolClass: ProtocolClass, creditParam: Option<byte>,
         responding: Option<PartyAddress>, data: bytes, importance: Option<byte>, raw: seq<Param>)
    | CREF(destination: u32, cause: byte, responding: Option<PartyAddress>, data: bytes, importance: Option<byte>, raw: seq<Param>)
    | RLSD(destination: u32, source: u32, cause: byte, data: bytes, importance: Option<byte>, raw: seq<Param>)
    | RLC(destination: u32, source: u32)
    | DT1(destination: u32, moreData: bool, data: bytes)
    | DT2(destination: u32, sequencing: Sequencing, data: bytes)
    | AK(destination: u32, receive: byte, credit: byte)
    | UDT(protocolClass: ProtocolClass, called: PartyAddress, calling: PartyAddress, data: bytes)
    | UDTS(cause: byte, called: PartyAddress, calling: PartyAddress, data: bytes)
    | ED(destination: u32, data: bytes)
    | EA(destination: u32)
    | RSR(destination: u32, source: u32, cause: byte, raw: seq<Param>)
    | RSC(destination: u32, source: u32)
    | ERR(destination: u32, cause: byte, raw: seq<Param>)
    | IT(destination: u32, source: u32, protocolClass: ProtocolClass, sequencing: Sequencing, credit: byte)
    | XUDT(protocolClass: ProtocolClass, hop: byte, called: PartyAddress, calling: PartyAddress, data: bytes,
           segmentation: Option<Segmentation>, importance: Option<byte>, raw: seq<Param>)
    | XUDTS(cause: byte, hop: byte, called: PartyAddress, calling: PartyAddress, data: bytes,
            segmentation: Option<Segmentation>, importance: Option<byte>, raw: seq<Param>)
    | LUDT(protocolClass: ProtocolClass, hop: byte, called: PartyAddress, calling: PartyAddress, data: bytes,
           segmentation: Option<Segmentation>, importance: Option<byte>, raw: seq<Param>)
    | LUDTS(cause: byte, hop: byte, called: PartyAddress, calling: PartyAddress, data: bytes,
            segmentation: Option<Segmentation>, importance: Option<byte>, raw: seq<Param>)

  datatype MsgType = TCR | TCC | TCREF | TRLSD | TRLC | TDT1 | TDT2 | TAK | TUDT | TUDTS | TED | TEA | TRSR | TRSC
    | TERR | TIT | TXUDT | TXUDTS | TLUDT | TLUDTS

  function TypeOf(m: Message): MsgType {
    match m
    case CR(_, _, _, _, _, _, _, _, _) => TCR
    case CC(_, _, _, _, _, _, _, _) => TCC
    case CREF(_, _, _, _, _, _) => TCREF
    case RLSD(_, _, _, _, _, _) => TRLSD
    case RLC(_, _) => TRLC
    case DT1(_, _, _) => TDT1
    case DT2(_, _, _) => TDT2
    case AK(_, _, _) => TAK
    case UDT(_, _, _, _) => TUDT
    case UDTS(_, _, _, _) => TUDTS
    case ED(_, _) => TED
    case EA(_) => TEA
    case RSR(_, _, _, _) => TRSR
    case RSC(_, _) => TRSC
    case ERR(_, _, _) => TERR
    case IT(_, _, _, _, _) => TIT
    case XUDT(_, _, _, _, _, _, _, _) => TXUDT
    case XUDTS(_, _, _, _, _, _, _, _) => TXUDTS
    case LUDT(_, _, _, _, _, _, _, _) => TLUDT
    case LUDTS(_, _, _, _, _, _, _, _) => TLUDTS
  }

  /** Type code, fixed octets, variable parameters, pointer size, long data, optional part. */
  function ShapeOf(t: MsgType): (sh: Shape)
    ensures sh.Valid()
  {
    match t
    case TCR => Shape(1, 4, 1, 1, false, true)
    case TCC => Shape(2, 7, 0, 1, false, true)
    case TCREF => Shape(3, 4, 0, 1, false, true)
    case TRLSD => Shape(4, 7, 0, 1, false, true)
    case TRLC => Shape(5, 6, 0, 1, false, false)
    case TDT1 => Shape(6, 4, 1, 1, false, false)
    case TDT2 => Shape(7, 5, 1, 1, false, false)
    case TAK => Shape(8, 5, 0, 1, false, false)
    case TUDT => Shape(9, 1, 3, 1, false, false)
    case TUDTS => Shape(10, 1, 3, 1, false, false)
    case TED => Shape(11, 3, 1, 1, false, false)
    case TEA => Shape(12, 3, 0, 1, false, false)
    case TRSR => Shape(13, 7, 0, 1, false, true)
    case TRSC => Shape(14, 6, 0, 1, false, false)
    case TERR => Shape(15, 4, 0, 1, false, true)
    case TIT => Shape(16, 10, 0, 1, false, false)
    case TXUDT => Shape(17, 2, 3, 1, false, true)
    case TXUDTS => Shape(18, 2, 3, 1, false, true)
    case TLUDT => Shape(19, 2, 3, 2, true, true)
    case TLUDTS => Shape(20, 2, 3, 2, true, true)
  }

  function TypeOfCode(code: byte): (t: Option<MsgType>)
    ensures t.Some? <==> 1 <= code <= 20
    ensures t.Some? ==> ShapeOf(t.value).code == code
  {
    var types := [TCR, TCC, TCREF, TRLSD, TRLC, TDT1, TDT2, TAK, TUDT, TUDTS, TED, TEA, TRSR, TRSC, TERR, TIT,
                  TXUDT, TXUDTS, TLUDT, TLUDTS];
    if 1 <= code <= 20 then Some(types[code - 1]) else None
  }

  /** The optional parameters a message type recognises. */
  function Codes(t: MsgType): set<byte> {
    match t
    case TCR => {P_CREDIT, P_CALLING, P_DATA, P_HOP, P_IMPORTANCE}
    case TCC => {P_CREDIT, P_CALLED, P_DATA, P_IMPORTANCE}
    case TCREF => {P_CALLED, P_DATA, P_IMPORTANCE}
    case TRLSD => {P_DATA, P_IMPORTANCE}
    case TXUDT => {P_SEGMENTATION, P_IMPORTANCE}
    case TXUDTS => {P_SEGMENTATION, P_IMPORTANCE}
    case TLUDT => {P_SEGMENTATION, P_IMPORTANCE}
    case TLUDTS => {P_SEGMENTATION, P_IMPORTANCE}
    case _ => {}
  }

  // ----- Contents the encoder accepts -----

  /** An address element is required, except that a calling address may be the indicator alone where allowed. */
  function AddressContents(a: PartyAddress, indicatorOnlyAllowed: bool): Option<bytes> {
    if !HasElement(a) && !(indicatorOnlyAllowed && IndicatorOnly(a)) then None else EncodeAddress(a)
  }

  function CauseContents(v: byte): Option<bytes> {
    if v == 0xff then None else Some([v])
  }

  function DataContents(d: bytes, limit: nat): Option<bytes> {
    if 1 <= |d| <= limit then Some(d) else None
  }

  function ConnectionlessClass(p: ProtocolClass): Option<bytes> {
    if p.number > 1 then None else EncodeClass(p)
  }

  function ConnectionClass(p: ProtocolClass): Option<bytes> {
    if p.number < 2 then None else EncodeClass(p)
  }

  /** Every segment of a segmented message is class 1. */
  predicate SegmentClass(p: ProtocolClass, seg: Option<Segmentation>) {
    seg.Some? && (!seg.value.first || seg.value.remaining > 0) ==> p.number == 1
  }

  predicate ValidRaw(raw: seq<Param>, codes: set<byte>) {
    forall p :: p in raw ==>
      p.code != END_OF_OPTIONS && p.code != P_RESERVED && |p.value| <= 0xff && p.code !in codes
  }

  function Cat(a: Option<bytes>, b: Option<bytes>): Option<bytes> {
    if a.Some? && b.Some? then Some(a.value + b.value) else None
  }

  // ----- Optional parts -----

  type Options = Option<seq<Param>>

  /** An optional field of a message: absent, or its contents, which the encoder may refuse. */
  datatype Field = Field(code: byte, present: bool, contents: Option<bytes>)

  function CreditField(v: Option<byte>): Field {
    Field(P_CREDIT, v.Some?, if v.Some? then EncodeCredit(v.value) else None)
  }

  function AddressField(code: byte, a: Option<PartyAddress>): Field {
    Field(code, a.Some?, if a.Some? then AddressContents(a.value, false) else None)
  }

  /** Optional user data is present when it is not empty. */
  function DataField(d: bytes): Field {
    Field(P_DATA, |d| > 0, DataContents(d, MAX_CONNECTION_DATA))
  }

  function HopField(v: Option<byte>): Field {
    Field(P_HOP, v.Some?, if v.Some? then EncodeHop(v.value) else None)
  }

  function ImportanceField(v: Option<byte>): Field {
    Field(P_IMPORTANCE, v.Some?, if v.Some? then EncodeImportance(v.value) else None)
  }

  function SegmentationField(v: Option<Segmentation>): Field {
    Field(P_SEGMENTATION, v.Some?, if v.Some? then EncodeSegmentation(v.value) else None)
  }

  /** The recognised parameters of the fields that are present, in order. */
  function Collect(fields: seq<Field>): Options {
    if |fields| == 0 then Some([]) else
    var f := fields[|fields| - 1];
    match Collect(fields[..|fields| - 1])
    case None => None
    case Some(ps) =>
      if !f.present then Some(ps)
      else if f.contents == None then None
      else Some(ps + [Param(f.code, f.contents.value)])
  }

  function AddRaw(ps: Options, raw: seq<Param>, t: MsgType): Options {
    if ps == None || !ValidRaw(raw, Codes(t)) then None else Some(ps.value + raw)
  }

  function FieldsOf(m: Message): seq<Field> {
    match m
    case CR(_, _, _, credit, calling, data, hop, importance, _) =>
      [CreditField(credit), AddressField(P_CALLING, calling), DataField(data), HopField(hop), ImportanceField(importance)]
    case CC(_, _, _, credit, called, data, importance, _) =>
      [CreditField(credit), AddressField(P_CALLED, called), DataField(data), ImportanceField(importance)]
    case CREF(_, _, called, data, importance, _) =>
      [AddressField(P_CALLED, called), DataField(data), ImportanceField(importance)]
    case RLSD(_, _, _, data, importance, _) => [DataField(data), ImportanceField(importance)]
    case XUDT(_, _, _, _, _, seg, importance, _) => [SegmentationField(seg), ImportanceField(importance)]
    case XUDTS(_, _, _, _, _, seg, importance, _) => [SegmentationField(seg), ImportanceField(importance)]
    case LUDT(_, _, _, _, _, seg, importance, _) => [SegmentationField(seg), ImportanceField(importance)]
    case LUDTS(_, _, _, _, _, seg, importance, _) => [SegmentationField(seg), ImportanceField(importance)]
    case _ => []
  }

  function RawOf(m: Message): seq<Param> {
    if m.CR? || m.CC? || m.CREF? || m.RLSD? || m.RSR? || m.ERR? || m.XUDT? || m.XUDTS? || m.LUDT? || m.LUDTS? then m.raw else []
  }

  function OptionsOf(m: Message): Options {
    AddRaw(Collect(FieldsOf(m)), RawOf(m), TypeOf(m))
  }

  // ----- Fixed and variable parts -----

  function FixedOf(m: Message): Option<bytes> {
    match m
    case CR(src, pc, _, _, _, _, _, _, _) => Cat(EncodeReference(src), ConnectionClass(pc))
    case CC(dst, src, pc, _, _, _, _, _) => Cat(Cat(EncodeReference(dst), EncodeReference(src)), ConnectionClass(pc))
    case CREF(dst, cause, _, _, _, _) => Cat(EncodeReference(dst), CauseContents(cause))
    case RLSD(dst, src, cause, _, _, _) => Cat(Cat(EncodeReference(dst), EncodeReference(src)), CauseContents(cause))
    case RLC(dst, src) => Cat(EncodeReference(dst), EncodeReference(src))
    case DT1(dst, more, _) => Cat(EncodeReference(dst), Some([if more then 1 else 0]))
    case DT2(dst, seqseg, _) => Cat(EncodeReference(dst), EncodeSequencing(seqseg))
    case AK(dst, receive, credit) =>
      if receive > MAX_SEQUENCE_NUMBER then None
      else Cat(Cat(EncodeReference(dst), Some([receive * 2])), EncodeCredit(credit))
    case UDT(pc, _, _, _) => ConnectionlessClass(pc)
    case UDTS(cause, _, _, _) => CauseContents(cause)
    case ED(dst, _) => EncodeReference(dst)
    case EA(dst) => EncodeReference(dst)
    case RSR(dst, src, cause, _) => Cat(Cat(EncodeReference(dst), EncodeReference(src)), CauseContents(cause))
    case RSC(dst, src) => Cat(EncodeReference(dst), EncodeReference(src))
    case ERR(dst, cause, _) => Cat(EncodeReference(dst), CauseContents(cause))
    case IT(dst, src, pc, seqseg, credit) =>
      Cat(Cat(Cat(Cat(EncodeReference(dst), EncodeReference(src)), ConnectionClass(pc)), EncodeSequencing(seqseg)), EncodeCredit(credit))
    case XUDT(pc, hop, _, _, _, seg, _, _) => if SegmentClass(pc, seg) then Cat(ConnectionlessClass(pc), EncodeHop(hop)) else None
    case XUDTS(cause, hop, _, _, _, _, _, _) => Cat(CauseContents(cause), EncodeHop(hop))
    case LUDT(pc, hop, _, _, _, seg, _, _) => if SegmentClass(pc, seg) then Cat(ConnectionlessClass(pc), EncodeHop(hop)) else None
    case LUDTS(cause, hop, _, _, _, _, _, _) => Cat(CauseContents(cause), EncodeHop(hop))
  }

  function Three(a: Option<bytes>, b: Option<bytes>, c: Option<bytes>): Option<seq<bytes>> {
    if a.Some? && b.Some? && c.Some? then Some([a.value, b.value, c.value]) else None
  }

  function One(a: Option<bytes>): Option<seq<bytes>> {
    if a.Some? then Some([a.value]) else None
  }

  function UnitdataVariables(called: PartyAddress, calling: PartyAddress, indicatorOnlyAllowed: bool, data: bytes, limit: nat)
    : Option<seq<bytes>>
  {
    Three(AddressContents(called, false), AddressContents(calling, indicatorOnlyAllowed), DataContents(data, limit))
  }

  function VariablesOf(m: Message): Option<seq<bytes>> {
    match m
    case CR(_, _, called, _, _, _, _, _, _) => One(AddressContents(called, false))
    case DT1(_, _, data) => One(DataContents(data, MAX_DATA))
    case DT2(_, _, data) => One(DataContents(data, MAX_DATA))
    case ED(_, data) => One(DataContents(data, MAX_EXPEDITED_DATA))
    case UDT(_, called, calling, data) => UnitdataVariables(called, calling, true, data, MAX_DATA)
    case UDTS(_, called, calling, data) => UnitdataVariables(called, calling, false, data, MAX_DATA)
    case XUDT(_, _, called, calling, data, _, _, _) => UnitdataVariables(called, calling, true, data, MAX_DATA)
    case XUDTS(_, _, called, calling, data, _, _, _) => UnitdataVariables(called, calling, false, data, MAX_DATA)
    case LUDT(_, _, called, calling, data, _, _, _) => UnitdataVariables(called, calling, false, data, MAX_LONG_DATA)
    case LUDTS(_, _, called, calling, data, _, _, _) => UnitdataVariables(called, calling, false, data, MAX_LONG_DATA)
    case _ => Some([])
  }

  /** The parts of a message, None when the encoder refuses one of its values. */
  function FrameOf(m: Message): Option<Frame> {
    var f, v, o := FixedOf(m), VariablesOf(m), OptionsOf(m);
    if f.Some? && v.Some? && o.Some? then Some(Frame(f.value, v.value, o.value)) else None
  }

  // ----- Reading the parts back -----

  datatype Found = Found(known: map<byte, bytes>, raw: seq<Param>)

  /** Recognised parameters by code, each at most once; the others in order. */
  function Sort(ps: seq<Param>, codes: set<byte>): Option<Found> {
    if |ps| == 0 then Some(Found(map[], [])) else
    var p := ps[|ps| - 1];
    match Sort(ps[..|ps| - 1], codes)
    case None => None
    case Some(f) =>
      if p.code !in codes then Some(f.(raw := f.raw + [p]))
      else if p.code in f.known then None
      else Some(f.(known := f.known[p.code := p.value]))
  }

  /** None for contents that cannot be decoded; Some(None) for an absent parameter. */
  function Decoded<T>(f: Found, code: byte, decode: bytes -> Option<T>): Option<Option<T>> {
    if code !in f.known then Some(None) else
    match decode(f.known[code])
    case None => None
    case Some(v) => Some(Some(v))
  }

  function UserData(f: Found): bytes {
    if P_DATA in f.known then f.known[P_DATA] else []
  }

  function Class(b: bytes): ProtocolClass
    requires |b| == 1
  {
    DecodeClass(b).value
  }

  predicate Fits(t: MsgType, fr: Frame) {
    var sh := ShapeOf(t);
    |fr.fixed| == sh.fixed && |fr.variables| == sh.variables && (!sh.optional ==> fr.options == [])
  }

  function ReadCR(x: bytes, vs: seq<bytes>, f: Found): Option<Message>
    requires |x| == 4 && |vs| == 1
  {
    match (DecodeAddress(vs[0]), Decoded(f, P_CREDIT, DecodeOctet), Decoded(f, P_CALLING, DecodeAddress),
           Decoded(f, P_HOP, DecodeOctet), Decoded(f, P_IMPORTANCE, DecodeImportance))
    case (Some(called), Some(credit), Some(calling), Some(hop), Some(importance)) =>
      Some(CR(FromUint24(x[..3]), Class(x[3..]), called, credit, calling, UserData(f), hop, importance, f.raw))
    case _ => None
  }

  function ReadCC(x: bytes, f: Found): Option<Message>
    requires |x| == 7
  {
    match (Decoded(f, P_CREDIT, DecodeOctet), Decoded(f, P_CALLED, DecodeAddress), Decoded(f, P_IMPORTANCE, DecodeImportance))
    case (Some(credit), Some(called), Some(importance)) =>
      Some(CC(FromUint24(x[..3]), FromUint24(x[3..6]), Class(x[6..]), credit, called, UserData(f), importance, f.raw))
    case _ => None
  }

  function ReadCREF(x: bytes, f: Found): Option<Message>
    requires |x| == 4
  {
    match (Decoded(f, P_CALLED, DecodeAddress), Decoded(f, P_IMPORTANCE, DecodeImportance))
    case (Some(called), Some(importance)) =>
      Some(CREF(FromUint24(x[..3]), x[3], called, UserData(f), importance, f.raw))
    case _ => None
  }

  function ReadRLSD(x: bytes, f: Found): Option<Message>
    requires |x| == 7
  {
    match Decoded(f, P_IMPORTANCE, DecodeImportance)
    case None => None
    case Some(importance) =>
      Some(RLSD(FromUint24(x[..3]), FromUint24(x[3..6]), x[6], UserData(f), importance, f.raw))
  }

  predicate IsUnitdata(t: MsgType) {
    t == TUDT || t == TUDTS || t == TXUDT || t == TXUDTS || t == TLUDT || t == TLUDTS
  }

  function ReadUnitdata(t: MsgType, x: bytes, vs: seq<bytes>, f: Found): Option<Message>
    requires IsUnitdata(t) && |x| == ShapeOf(t).fixed && |vs| == 3
  {
    match (DecodeAddress(vs[0]), DecodeAddress(vs[1]),
           Decoded(f, P_SEGMENTATION, DecodeSegmentation), Decoded(f, P_IMPORTANCE, DecodeImportance))
    case (Some(called), Some(calling), Some(seg), Some(importance)) =>
      Some(if t == TUDT then UDT(Class(x), called, calling, vs[2])
           else if t == TUDTS then UDTS(x[0], called, calling, vs[2])
           else if t == TXUDT then XUDT(Class(x[..1]), x[1], called, calling, vs[2], seg, importance, f.raw)
           else if t == TXUDTS then XUDTS(x[0], x[1], called, calling, vs[2], seg, importance, f.raw)
           else if t == TLUDT then LUDT(Class(x[..1]), x[1], called, calling, vs[2], seg, importance, f.raw)
           else LUDTS(x[0], x[1], called, calling, vs[2], seg, importance, f.raw))
    case _ => None
  }

  /** The message of a type from its fixed part, its variable parameters and its sorted optional part. */
  function Assemble(t: MsgType, x: bytes, vs: seq<bytes>, f: Found): Option<Message>
    requires |x| == ShapeOf(t).fixed && |vs| == ShapeOf(t).variables
  {
    if IsUnitdata(t) then ReadUnitdata(t, x, vs, f) else
    match t
    case TCR => ReadCR(x, vs, f)
    case TCC => ReadCC(x, f)
    case TCREF => ReadCREF(x, f)
    case TRLSD => ReadRLSD(x, f)
    case TRLC => Some(RLC(FromUint24(x[..3]), FromUint24(x[3..])))
    case TDT1 => Some(DT1(FromUint24(x[..3]), x[3] % 2 == 1, vs[0]))
    case TDT2 => Some(DT2(FromUint24(x[..3]), DecodeSequencing(x[3..]).value, vs[0]))
    case TAK => Some(AK(FromUint24(x[..3]), x[3] / 2, x[4]))
    case TED => Some(ED(FromUint24(x), vs[0]))
    case TEA => Some(EA(FromUint24(x)))
    case TRSR => Some(RSR(FromUint24(x[..3]), FromUint24(x[3..6]), x[6], f.raw))
    case TRSC => Some(RSC(FromUint24(x[..3]), FromUint24(x[3..])))
    case TERR => Some(ERR(FromUint24(x[..3]), x[3], f.raw))
    case TIT => Some(IT(FromUint24(x[..3]), FromUint24(x[3..6]), Class(x[6..7]), DecodeSequencing(x[7..9]).value, x[9]))
  }

  function MessageOf(t: MsgType, fr: Frame): Option<Message>
    requires Fits(t, fr)
  {
    match Sort(fr.options, Codes(t))
    case None => None
    case Some(f) => Assemble(t, fr.fixed, fr.variables, f)
  }

  // ----- Round trip of the fields -----

  /** The sorting of a list of options that grows at its end. */
  lemma SortAdd(ps: seq<Param>, p: Param, codes: set<byte>, f: Found)
    requires Sort(ps, codes) == Some(f) && p.code in codes && p.code !in f.known
    ensures Sort(ps + [p], codes) == Some(f.(known := f.known[p.code := p.value]))
  {
    assert (ps + [p])[..|ps|] == ps;
  }

  lemma SortUnknown(ps: seq<Param>, p: Param, codes: set<byte>, f: Found)
    requires Sort(ps, codes) == Some(f) && p.code !in codes
    ensures Sort(ps + [p], codes) == Some(f.(raw := f.raw + [p]))
  {
    assert (ps + [p])[..|ps|] == ps;
  }

  lemma {:induction false} SortRaw(ps: seq<Param>, raw: seq<Param>, codes: set<byte>, f: Found)
    requires Sort(ps, codes) == Some(f) && f.raw == [] && ValidRaw(raw, codes)
    ensures Sort(ps + raw, codes) == Some(f.(raw := raw))
  {
    hide Sort;
    if |raw| == 0 {
      assert ps + raw == ps;
    } else {
      var n := |raw| - 1;
      SortRaw(ps, raw[..n], codes, f);
      assert raw[n] in raw;
      SortUnknown(ps + raw[..n], raw[n], codes, f.(raw := raw[..n]));
      assert raw[..n] + [raw[n]] == raw && ps + raw[..n] + [raw[n]] == ps + raw;
    }
  }

  /** A sorted optional part holds a field: not at all when absent, with its contents when present. */
  predicate Holding(f: Found, fd: Field) {
    if fd.present then fd.contents.Some? && fd.code in f.known && f.known[fd.code] == fd.contents.value
    else fd.code !in f.known
  }

  predicate Distinct(fields: seq<Field>, codes: set<byte>) {
    && (forall i :: 0 <= i < |fields| ==> fields[i].code in codes)
    && (forall i, j :: 0 <= i < j < |fields| ==> fields[i].code != fields[j].code)
  }

  lemma {:induction false} CollectFound(fields: seq<Field>, codes: set<byte>) returns (f: Found)
    requires Distinct(fields, codes) && Collect(fields).Some?
    ensures Sort(Collect(fields).value, codes) == Some(f) && f.raw == []
    ensures forall i :: 0 <= i < |fields| ==> Holding(f, fields[i])
    ensures forall c :: c in f.known ==> exists i :: 0 <= i < |fields| && fields[i].code == c
  {
    f := Found(map[], []);
    if |fields| > 0 {
      hide Sort;
      var n := |fields| - 1;
      var fd := fields[n];
      var ps := Collect(fields[..n]).value;
      f := CollectFound(fields[..n], codes);
      assert forall i :: 0 <= i < n ==> fields[..n][i] == fields[i] && Holding(f, fields[i]);
      if fd.present {
        SortAdd(ps, Param(fd.code, fd.contents.value), codes, f);
        f := f.(known := f.known[fd.code := fd.contents.value]);
      }
    }
  }

  /** The optional part of a message, sorted: every field where it belongs and the raw parameters in order. */
  lemma OptionsFound(m: Message) returns (f: Found)
    requires OptionsOf(m).Some? && Distinct(FieldsOf(m), Codes(TypeOf(m)))
    ensures Sort(OptionsOf(m).value, Codes(TypeOf(m))) == Some(f) && f.raw == RawOf(m)
    ensures forall i :: 0 <= i < |FieldsOf(m)| ==> Holding(f, FieldsOf(m)[i])
  {
    var codes := Codes(TypeOf(m));
    f := CollectFound(FieldsOf(m), codes);
    SortRaw(Collect(FieldsOf(m)).value, RawOf(m), codes, f);
    f := f.(raw := RawOf(m));
  }

  lemma FieldRoundTrips(f: Found, credit: Option<byte>, hop: Option<byte>, importance: Option<byte>, data: bytes)
    ensures Holding(f, CreditField(credit)) ==> Decoded(f, P_CREDIT, DecodeOctet) == Some(credit)
    ensures Holding(f, HopField(hop)) ==> Decoded(f, P_HOP, DecodeOctet) == Some(hop)
    ensures Holding(f, ImportanceField(importance)) ==> Decoded(f, P_IMPORTANCE, DecodeImportance) == Some(importance)
    ensures Holding(f, DataField(data)) ==> UserData(f) == data
  {
  }

  lemma AddressFieldRoundTrip(f: Found, code: byte, a: Option<PartyAddress>)
    requires Holding(f, AddressField(code, a))
    ensures Decoded(f, code, DecodeAddress) == Some(a)
  {
    if a.Some? {
      AddressRoundTrip(a.value);
    }
  }

  lemma SegmentationFieldRoundTrip(f: Found, v: Option<Segmentation>)
    requires Holding(f, SegmentationField(v))
    ensures Decoded(f, P_SEGMENTATION, DecodeSegmentation) == Some(v)
  {
    if v.Some? {
      SegmentationRoundTrip(v.value);
    }
  }

  lemma ReferencePart(r: u32, rest: bytes)
    requires EncodeReference(r).Some?
    ensures FromUint24((EncodeReference(r).value + rest)[..3]) == r
    ensures (EncodeReference(r).value + rest)[3..] == rest
  {
    Uint24RoundTrip(r);
    assert (Uint24(r) + rest)[..3] == Uint24(r);
  }

  lemma TwoReferences(r: u32, s: u32, rest: bytes)
    requires EncodeReference(r).Some? && EncodeReference(s).Some?
    ensures var x := EncodeReference(r).value + EncodeReference(s).value + rest;
            && FromUint24(x[..3]) == r && FromUint24(x[3..6]) == s && x[6..] == rest
  {
    var x := EncodeReference(r).value + EncodeReference(s).value + rest;
    assert x == EncodeReference(r).value + (EncodeReference(s).value + rest);
    ReferencePart(r, EncodeReference(s).value + rest);
    ReferencePart(s, rest);
    assert x[3..6] == x[3..][..3] && x[6..] == x[3..][3..];
  }

  /** A sorted optional part that holds every optional field of a message. */
  predicate HoldsFields(f: Found, m: Message) {
    (forall i :: 0 <= i < |FieldsOf(m)| ==> Holding(f, FieldsOf(m)[i])) && f.raw == RawOf(m)
  }

  lemma SetupFields(f: Found, m: Message)
    requires (m.CR? || m.CC? || m.CREF? || m.RLSD?) && HoldsFields(f, m)
    ensures UserData(f) == m.data && f.raw == m.raw
    ensures Decoded(f, P_IMPORTANCE, DecodeImportance) == Some(m.importance)
    ensures m.CR? || m.CC? ==> Decoded(f, P_CREDIT, DecodeOctet) == Some(m.creditParam)
    ensures m.CR? ==> Decoded(f, P_CALLING, DecodeAddress) == Some(m.originating)
    ensures m.CR? ==> Decoded(f, P_HOP, DecodeOctet) == Some(m.hopParam)
    ensures m.CC? || m.CREF? ==> Decoded(f, P_CALLED, DecodeAddress) == Some(m.responding)
  {
    hide AddressContents, EncodeAddress, DecodeAddress;
    var fields := FieldsOf(m);
    assert Holding(f, fields[|fields| - 1]) && (m.RLSD? ==> Holding(f, fields[0]));
    FieldRoundTrips(f, if m.CR? || m.CC? then m.creditParam else None, if m.CR? then m.hopParam else None, m.importance, m.data);
    if m.CR? {
      assert Holding(f, fields[0]) && Holding(f, fields[1]) && Holding(f, fields[2]) && Holding(f, fields[3]);
      AddressFieldRoundTrip(f, P_CALLING, m.originating);
    } else if m.CC? {
      assert Holding(f, fields[0]) && Holding(f, fields[1]) && Holding(f, fields[2]);
      AddressFieldRoundTrip(f, P_CALLED, m.responding);
    } else if m.CREF? {
      assert Holding(f, fields[0]) && Holding(f, fields[1]);
      AddressFieldRoundTrip(f, P_CALLED, m.responding);
    }
  }

  lemma CRRoundTrip(m: Message, x: bytes, vs: seq<bytes>, f: Found)
    requires m.CR? && FixedOf(m) == Some(x) && VariablesOf(m) == Some(vs) && HoldsFields(f, m)
    ensures |x| == 4 && |vs| == 1 && ReadCR(x, vs, f) == Some(m)
  {
    hide DecodeAddress, Decoded;
    SetupFields(f, m);
    AddressRoundTrip(m.called);
    ReferencePart(m.source, EncodeClass(m.protocolClass).value);
  }

  lemma CCRoundTrip(m: Message, x: bytes, f: Found)
    requires m.CC? && FixedOf(m) == Some(x) && HoldsFields(f, m)
    ensures |x| == 7 && ReadCC(x, f) == Some(m)
  {
    hide DecodeAddress, Decoded;
    SetupFields(f, m);
    TwoReferences(m.destination, m.source, EncodeClass(m.protocolClass).value);
  }

  lemma CREFRoundTrip(m: Message, x: bytes, f: Found)
    requires m.CREF? && FixedOf(m) == Some(x) && HoldsFields(f, m)
    ensures |x| == 4 && ReadCREF(x, f) == Some(m)
  {
    hide DecodeAddress, Decoded;
    SetupFields(f, m);
    ReferencePart(m.destination, [m.cause]);
  }

  lemma RLSDRoundTrip(m: Message, x: bytes, f: Found)
    requires m.RLSD? && FixedOf(m) == Some(x) && HoldsFields(f, m)
    ensures |x| == 7 && ReadRLSD(x, f) == Some(m)
  {
    hide Decoded;
    SetupFields(f, m);
    TwoReferences(m.destination, m.source, [m.cause]);
  }

  predicate IsExtended(m: Message) {
    m.XUDT? || m.XUDTS? || m.LUDT? || m.LUDTS?
  }

  lemma AddressesRoundTrip(called: PartyAddress, calling: PartyAddress, alone: bool, data: bytes, limit: nat, vs: seq<bytes>)
    requires UnitdataVariables(called, calling, alone, data, limit) == Some(vs)
    ensures |vs| == 3 && DecodeAddress(vs[0]) == Some(called) && DecodeAddress(vs[1]) == Some(calling) && vs[2] == data
  {
    AddressRoundTrip(called);
    AddressRoundTrip(calling);
  }

  lemma ExtendedFields(f: Found, m: Message)
    requires IsExtended(m) && HoldsFields(f, m)
    ensures Decoded(f, P_SEGMENTATION, DecodeSegmentation) == Some(m.segmentation)
    ensures Decoded(f, P_IMPORTANCE, DecodeImportance) == Some(m.importance) && f.raw == m.raw
  {
    assert Holding(f, FieldsOf(m)[0]) && Holding(f, FieldsOf(m)[1]);
    FieldRoundTrips(f, None, None, m.importance, []);
    SegmentationFieldRoundTrip(f, m.segmentation);
  }

  lemma ClassAndHop(pc: ProtocolClass, hop: byte, x: bytes)
    requires Cat(ConnectionlessClass(pc), EncodeHop(hop)) == Some(x)
    ensures |x| == 2 && Class(x[..1]) == pc && x[1] == hop
  {
    assert x[..1] == EncodeClass(pc).value;
    LeafRoundTrips(pc, 0, 0, Sequencing(0, 0, false));
  }

  lemma CauseAndHop(cause: byte, hop: byte, x: bytes)
    requires Cat(CauseContents(cause), EncodeHop(hop)) == Some(x)
    ensures x == [cause, hop]
  {
  }

  lemma ExtendedRoundTrip(m: Message, x: bytes, vs: seq<bytes>, f: Found)
    requires IsExtended(m) && FixedOf(m) == Some(x) && VariablesOf(m) == Some(vs) && HoldsFields(f, m)
    ensures |x| == 2 && |vs| == 3 && ReadUnitdata(TypeOf(m), x, vs, f) == Some(m)
  {
    hide AddressContents, DecodeAddress, UnitdataVariables, ConnectionlessClass, CauseContents, EncodeHop, Decoded, HoldsFields;
    AddressesRoundTrip(m.called, m.calling, m.XUDT?, m.data, if m.XUDT? || m.XUDTS? then MAX_DATA else MAX_LONG_DATA, vs);
    ExtendedFields(f, m);
    if m.XUDT? || m.LUDT? {
      ClassAndHop(m.protocolClass, m.hop, x);
    } else {
      CauseAndHop(m.cause, m.hop, x);
    }
  }

  lemma BasicRoundTrip(m: Message, x: bytes, vs: seq<bytes>, f: Found)
    requires (m.UDT? || m.UDTS?) && FixedOf(m) == Some(x) && VariablesOf(m) == Some(vs) && f == Found(map[], [])
    ensures |x| == 1 && |vs| == 3 && ReadUnitdata(TypeOf(m), x, vs, f) == Some(m)
  {
    hide AddressContents, DecodeAddress, UnitdataVariables;
    AddressesRoundTrip(m.called, m.calling, m.UDT?, m.data, MAX_DATA, vs);
    if m.UDT? {
      LeafRoundTrips(m.protocolClass, 0, 0, Sequencing(0, 0, false));
    }
  }

  lemma ITParts(pc: ProtocolClass, q: Sequencing, credit: byte, rest: bytes)
    requires Cat(Cat(ConnectionClass(pc), EncodeSequencing(q)), EncodeCredit(credit)) == Some(rest)
    ensures |rest| == 4 && Class(rest[..1]) == pc && DecodeSequencing(rest[1..3]) == Some(q) && rest[3] == credit
  {
    assert rest[..1] == EncodeClass(pc).value && rest[1..3] == EncodeSequencing(q).value;
    LeafRoundTrips(pc, 0, 0, q);
  }

  lemma ITRoundTrip(m: Message, x: bytes, f: Found)
    requires m.IT? && FixedOf(m) == Some(x)
    ensures |x| == 10 && Assemble(TIT, x, [], f) == Some(m)
  {
    hide EncodeReference, ConnectionClass, EncodeSequencing, EncodeCredit, DecodeClass, DecodeSequencing, FromUint24;
    var rest := Cat(Cat(ConnectionClass(m.protocolClass), EncodeSequencing(m.sequencing)), EncodeCredit(m.credit)).value;
    ReferenceLength(m.destination);
    ReferenceLength(m.source);
    assert x == EncodeReference(m.destination).value + EncodeReference(m.source).value + rest;
    TwoReferences(m.destination, m.source, rest);
    ITParts(m.protocolClass, m.sequencing, m.credit, rest);
    assert x[6..7] == rest[..1] && x[7..9] == rest[1..3] && x[9] == rest[3];
  }

  lemma ReferenceLength(r: u32)
    requires EncodeReference(r).Some?
    ensures |EncodeReference(r).value| == 3
  {
  }

  /** Messages with one or two references and nothing else. */
  lemma ReferencesRoundTrip(m: Message, x: bytes, vs: seq<bytes>, f: Found)
    requires (m.RLC? || m.RSC? || m.EA? || m.ED?) && FixedOf(m) == Some(x) && VariablesOf(m) == Some(vs)
    ensures |x| == ShapeOf(TypeOf(m)).fixed && |vs| == ShapeOf(TypeOf(m)).variables && Assemble(TypeOf(m), x, vs, f) == Some(m)
  {
    hide EncodeReference, FromUint24;
    ReferenceLength(m.destination);
    if m.RLC? || m.RSC? {
      ReferenceLength(m.source);
      TwoReferences(m.destination, m.source, []);
      assert EncodeReference(m.destination).value + EncodeReference(m.source).value + [] == x;
      assert x[3..] == x[3..6];
    } else {
      ReferencePart(m.destination, []);
      assert EncodeReference(m.destination).value + [] == x;
      assert x[..3] == x;
    }
  }

  lemma DT1RoundTrip(m: Message, x: bytes, vs: seq<bytes>, f: Found)
    requires m.DT1? && FixedOf(m) == Some(x) && VariablesOf(m) == Some(vs)
    ensures |x| == 4 && |vs| == 1 && Assemble(TDT1, x, vs, f) == Some(m)
  {
    hide EncodeReference, FromUint24;
    ReferenceLength(m.destination);
    ReferencePart(m.destination, [if m.moreData then 1 else 0]);
  }

  lemma DT2RoundTrip(m: Message, x: bytes, vs: seq<bytes>, f: Found)
    requires m.DT2? && FixedOf(m) == Some(x) && VariablesOf(m) == Some(vs)
    ensures |x| == 5 && |vs| == 1 && Assemble(TDT2, x, vs, f) == Some(m)
  {
    hide EncodeReference, FromUint24;
    ReferenceLength(m.destination);
    ReferencePart(m.destination, EncodeSequencing(m.sequencing).value);
    LeafRoundTrips(ProtocolClass(0, false), 0, 0, m.sequencing);
  }

  lemma AKRoundTrip(m: Message, x: bytes, f: Found)
    requires m.AK? && FixedOf(m) == Some(x)
    ensures |x| == 5 && Assemble(TAK, x, [], f) == Some(m)
  {
    hide EncodeReference, FromUint24;
    ReferenceLength(m.destination);
    assert x == EncodeReference(m.destination).value + [m.receive * 2, m.credit];
    ReferencePart(m.destination, [m.receive * 2, m.credit]);
  }

  lemma CauseRoundTrip(m: Message, x: bytes, f: Found)
    requires (m.RSR? || m.ERR?) && FixedOf(m) == Some(x) && f.raw == m.raw
    ensures |x| == ShapeOf(TypeOf(m)).fixed && Assemble(TypeOf(m), x, [], f) == Some(m)
  {
    hide EncodeReference, FromUint24;
    ReferenceLength(m.destination);
    if m.RSR? {
      ReferenceLength(m.source);
      TwoReferences(m.destination, m.source, [m.cause]);
    } else {
      ReferencePart(m.destination, [m.cause]);
    }
  }

  lemma NoOptionalPart(m: Message)
    requires FieldsOf(m) == [] && RawOf(m) == []
    ensures OptionsOf(m) == Some([])
  {
    assert Collect(FieldsOf(m)) == Some([]) && ValidRaw([], Codes(TypeOf(m)));
    assert Collect(FieldsOf(m)).value + RawOf(m) == [];
  }

  lemma AssembleRoundTrip(m: Message, x: bytes, vs: seq<bytes>, f: Found)
    requires FixedOf(m) == Some(x) && VariablesOf(m) == Some(vs) && HoldsFields(f, m)
    requires m.UDT? || m.UDTS? ==> f == Found(map[], [])
    ensures var sh := ShapeOf(TypeOf(m)); |x| == sh.fixed && |vs| == sh.variables && Assemble(TypeOf(m), x, vs, f) == Some(m)
  {
    hide ReadCR, ReadCC, ReadCREF, ReadRLSD, ReadUnitdata, FixedOf;
    var t := TypeOf(m);
    if t == TCR { CRRoundTrip(m, x, vs, f); }
    else if t == TCC { CCRoundTrip(m, x, f); }
    else if t == TCREF { CREFRoundTrip(m, x, f); }
    else if t == TRLSD { RLSDRoundTrip(m, x, f); }
    else if t == TIT { ITRoundTrip(m, x, f); }
    else if IsExtended(m) { ExtendedRoundTrip(m, x, vs, f); }
    else if t == TUDT || t == TUDTS { BasicRoundTrip(m, x, vs, f); }
    else if t == TRLC || t == TRSC || t == TEA || t == TED { ReferencesRoundTrip(m, x, vs, f); }
    else if t == TDT1 { DT1RoundTrip(m, x, vs, f); }
    else if t == TDT2 { DT2RoundTrip(m, x, vs, f); }
    else if t == TAK { AKRoundTrip(m, x, f); }
    else { CauseRoundTrip(m, x, f); }
  }

  lemma WithoutOptionalPart(m: Message)
    requires !ShapeOf(TypeOf(m)).optional
    ensures FieldsOf(m) == [] && RawOf(m) == [] && OptionsOf(m) == Some([])
  {
    hide Collect;
    NoOptionalPart(m);
  }

  /** Every value a message carries survives being put in its part and read back. */
  lemma FrameRoundTrip(m: Message, fr: Frame)
    requires FrameOf(m) == Some(fr)
    ensures Fits(TypeOf(m), fr) && MessageOf(TypeOf(m), fr) == Some(m)
  {
    hide FixedOf, VariablesOf, Assemble, OptionsOf, FieldsOf, RawOf, Holding, Codes, Distinct;
    FieldsDistinct(m);
    var f := OptionsFound(m);
    if !ShapeOf(TypeOf(m)).optional {
      WithoutOptionalPart(m);
    }
    AssembleRoundTrip(m, fr.fixed, fr.variables, f);
  }

  lemma FieldsDistinct(m: Message)
    ensures Distinct(FieldsOf(m), Codes(TypeOf(m)))
  {
  }
}
