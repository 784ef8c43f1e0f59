/** The appendMessage method of every message type: the calls it makes on the encoder, and what they amount to. */
module Append {
  import opened Basics
  import opened Fields
  import opened Address
  import opened Wire
  import opened Messages
  import opened Encoding
  import opened Codec

  /** The caller's octets followed by the canonical layout of the message, when the encoder accepts it. */
  function Appended(b: bytes, m: Message): Option<bytes> {
    if Encodable(m) then Some(b + Encode(m).value) else None
  }

  lemma CatEmpty(p: Option<bytes>)
    ensures Cat(Some([]), p) == p
  {
    if p.Some? {
      assert [] + p.value == p.value;
    }
  }

  lemma PushOne(a: Option<bytes>)
    ensures Push(Some([]), a) == One(a)
  {
    assert a.Some? ==> [] + [a.value] == [a.value];
  }

  lemma PushThree(a: Option<bytes>, b: Option<bytes>, c: Option<bytes>)
    ensures Push(Push(Push(Some([]), a), b), c) == Three(a, b, c)
  {
    if a.Some? && b.Some? && c.Some? {
      assert [] + [a.value] + [b.value] + [c.value] == [a.value, b.value, c.value];
    }
  }

  /** An encoder whose calls asked for the parts of m produces m. */
  lemma PartsAppend(b: bytes, m: Message, f: Option<bytes>, v: Option<seq<bytes>>, o: Options, r: Option<bytes>)
    requires f == FixedOf(m) && v == VariablesOf(m) && o == OptionsOf(m)
    requires var sh := ShapeOf(TypeOf(m));
             r == (if f.Some? && v.Some? && o.Some? && Representable(sh, Frame(f.value, v.value, o.value))
                   then Some(b + Render(sh, Frame(f.value, v.value, o.value))) else None)
    ensures r == Appended(b, m)
  {
    hide FixedOf, VariablesOf, OptionsOf, Representable, Render;
  }

  lemma HeaderLength(x: Option<bytes>, m: Message)
    requires m.XUDT? || m.LUDT? ==> x == Cat(ConnectionlessClass(m.protocolClass), EncodeHop(m.hop))
    requires m.XUDTS? || m.LUDTS? ==> x == Cat(CauseContents(m.cause), EncodeHop(m.hop))
    requires m.XUDT? || m.LUDT? || m.XUDTS? || m.LUDTS?
    ensures x.Some? ==> |x.value| == 2
  {
  }

  /** The optional part of XUDT, XUDTS, LUDT and LUDTS. */
  method SegmentationImportance(e: Encoder, m: Message)
    requires IsExtended(m) && e.Valid() && e.pointed && e.shape == ShapeOf(TypeOf(m)) && e.options == Some([])
    requires e.variables.Some? ==> |e.variables.value| == e.shape.variables
    modifies e
    ensures e.Valid() && e.pointed && e.fixedPart == old(e.fixedPart) && e.variables == old(e.variables)
    ensures e.options == OptionsOf(m)
  {
    hide Collect, ValidRaw, Encoder.Valid;
    e.Fields(FieldsOf(m));
    e.Raws(m.raw, Codes(TypeOf(m)));
  }

  /** The three variable parameters of a connectionless message. */
  method AddressesAndData(e: Encoder, called: PartyAddress, calling: PartyAddress, alone: bool, data: bytes, long: bool)
    requires e.Valid() && e.pointed && e.shape.variables == 3 && e.shape.longData == long
    requires e.variables == Some([]) && e.options == Some([])
    modifies e
    ensures e.Valid() && e.pointed && e.fixedPart == old(e.fixedPart) && e.options == Some([])
    ensures e.variables == UnitdataVariables(called, calling, alone, data, if long then MAX_LONG_DATA else MAX_DATA)
    ensures e.variables.Some? ==> |e.variables.value| == 3
  {
    hide AddressContents, Encoder.Valid;
    e.Variable(0, AddressContents(called, false));
    e.Variable(1, AddressContents(calling, alone));
    if long {
      e.LongData(2, DataContents(data, MAX_LONG_DATA));
      PushThree(AddressContents(called, false), AddressContents(calling, alone), DataContents(data, MAX_LONG_DATA));
    } else {
      e.Variable(2, DataContents(data, MAX_DATA));
      PushThree(AddressContents(called, false), AddressContents(calling, alone), DataContents(data, MAX_DATA));
    }
  }

  method AppendCR(b: bytes, m: Message) returns (r: Option<bytes>)
    requires m.CR?
    ensures r == Appended(b, m)
  {
    hide AddressContents, Collect, Representable, Render, Encodable, Encoder.Valid;
    var e := new Encoder(b, 1, ShapeOf(TCR));
    e.Fixed(EncodeReference(m.source));
    e.Fixed(ConnectionClass(m.protocolClass));
    CatEmpty(EncodeReference(m.source));
    e.Pointers(2, 1, true);
    e.Variable(0, AddressContents(m.called, false));
    e.Fields(FieldsOf(m));
    e.Raws(m.raw, Codes(TCR));
    PushOne(AddressContents(m.called, false));
    r := e.Finish();
    PartsAppend(b, m, e.fixedPart, e.variables, e.options, r);
  }

  method AppendCC(b: bytes, m: Message) returns (r: Option<bytes>)
    requires m.CC?
    ensures r == Appended(b, m)
  {
    hide AddressContents, DataContents, Collect, Representable, Render, Encodable, Encoder.Valid;
    var e := new Encoder(b, 2, ShapeOf(TCC));
    e.Fixed(EncodeReference(m.destination));
    e.Fixed(EncodeReference(m.source));
    e.Fixed(ConnectionClass(m.protocolClass));
    CatEmpty(EncodeReference(m.destination));
    e.Pointers(1, 1, true);
    e.Fields(FieldsOf(m));
    e.Raws(m.raw, Codes(TCC));
    r := e.Finish();
    PartsAppend(b, m, e.fixedPart, e.variables, e.options, r);
  }

  method AppendCREF(b: bytes, m: Message) returns (r: Option<bytes>)
    requires m.CREF?
    ensures r == Appended(b, m)
  {
    hide AddressContents, DataContents, Collect, Representable, Render, Encodable, Encoder.Valid;
    var e := new Encoder(b, 3, ShapeOf(TCREF));
    e.Fixed(EncodeReference(m.destination));
    e.Fixed(CauseContents(m.cause));
    CatEmpty(EncodeReference(m.destination));
    e.Pointers(1, 1, true);
    e.Fields(FieldsOf(m));
    e.Raws(m.raw, Codes(TCREF));
    r := e.Finish();
    PartsAppend(b, m, e.fixedPart, e.variables, e.options, r);
  }

  method AppendRLSD(b: bytes, m: Message) returns (r: Option<bytes>)
    requires m.RLSD?
    ensures r == Appended(b, m)
  {
    hide AddressContents, DataContents, Collect, Representable, Render, Encodable, Encoder.Valid;
    var e := new Encoder(b, 4, ShapeOf(TRLSD));
    e.Fixed(EncodeReference(m.destination));
    e.Fixed(EncodeReference(m.source));
    e.Fixed(CauseContents(m.cause));
    CatEmpty(EncodeReference(m.destination));
    e.Pointers(1, 1, true);
    e.Fields(FieldsOf(m));
    e.Raws(m.raw, Codes(TRLSD));
    r := e.Finish();
    PartsAppend(b, m, e.fixedPart, e.variables, e.options, r);
  }

  method AppendRLC(b: bytes, m: Message) returns (r: Option<bytes>)
    requires m.RLC?
    ensures r == Appended(b, m)
  {
    hide AddressContents, DataContents, Collect, Representable, Render, Encodable, Encoder.Valid;
    var e := new Encoder(b, 5, ShapeOf(TRLC));
    e.Fixed(EncodeReference(m.destination));
    e.Fixed(EncodeReference(m.source));
    CatEmpty(EncodeReference(m.destination));
    NoOptionalPart(m);
    r := e.Finish();
    PartsAppend(b, m, e.fixedPart, e.variables, e.options, r);
  }

  method AppendDT1(b: bytes, m: Message) returns (r: Option<bytes>)
    requires m.DT1?
    ensures r == Appended(b, m)
  {
    hide AddressContents, DataContents, Collect, Representable, Render, Encodable, Encoder.Valid;
    var e := new Encoder(b, 6, ShapeOf(TDT1));
    e.Fixed(EncodeReference(m.destination));
    e.Fixed(Some([if m.moreData then 1 else 0]));
    CatEmpty(EncodeReference(m.destination));
    e.Pointers(1, 1, false);
    e.Variable(0, DataContents(m.data, MAX_DATA));
    PushOne(DataContents(m.data, MAX_DATA));
    NoOptionalPart(m);
    r := e.Finish();
    PartsAppend(b, m, e.fixedPart, e.variables, e.options, r);
  }

  method AppendDT2(b: bytes, m: Message) returns (r: Option<bytes>)
    requires m.DT2?
    ensures r == Appended(b, m)
  {
    hide AddressContents, DataContents, Collect, Representable, Render, Encodable, Encoder.Valid;
    var e := new Encoder(b, 7, ShapeOf(TDT2));
    e.Fixed(EncodeReference(m.destination));
    e.Fixed(EncodeSequencing(m.sequencing));
    CatEmpty(EncodeReference(m.destination));
    e.Pointers(1, 1, false);
    e.Variable(0, DataContents(m.data, MAX_DATA));
    PushOne(DataContents(m.data, MAX_DATA));
    NoOptionalPart(m);
    r := e.Finish();
    PartsAppend(b, m, e.fixedPart, e.variables, e.options, r);
  }

  method AppendAK(b: bytes, m: Message) returns (r: Option<bytes>)
    requires m.AK?
    ensures r == Appended(b, m)
  {
    hide AddressContents, DataContents, Collect, Representable, Render, Encodable, Encoder.Valid;
    var e := new Encoder(b, 8, ShapeOf(TAK));
    e.Fixed(EncodeReference(m.destination));
    e.Check(m.receive <= MAX_SEQUENCE_NUMBER);
    e.Fixed(Some([m.receive % 128 * 2]));
    e.Fixed(EncodeCredit(m.credit));
    CatEmpty(EncodeReference(m.destination));
    NoOptionalPart(m);
    r := e.Finish();
    PartsAppend(b, m, e.fixedPart, e.variables, e.options, r);
  }

  method AppendUDT(b: bytes, m: Message) returns (r: Option<bytes>)
    requires m.UDT?
    ensures r == Appended(b, m)
  {
    hide UnitdataVariables, Representable, Render, Encodable, Encoder.Valid;
    var e := new Encoder(b, 9, ShapeOf(TUDT));
    e.Fixed(ConnectionlessClass(m.protocolClass));
    CatEmpty(ConnectionlessClass(m.protocolClass));
    e.Pointers(3, 1, false);
    AddressesAndData(e, m.called, m.calling, true, m.data, false);
    NoOptionalPart(m);
    r := e.Finish();
    PartsAppend(b, m, e.fixedPart, e.variables, e.options, r);
  }

  method AppendUDTS(b: bytes, m: Message) returns (r: Option<bytes>)
    requires m.UDTS?
    ensures r == Appended(b, m)
  {
    hide UnitdataVariables, Representable, Render, Encodable, Encoder.Valid;
    var e := new Encoder(b, 10, ShapeOf(TUDTS));
    e.Fixed(CauseContents(m.cause));
    CatEmpty(CauseContents(m.cause));
    e.Pointers(3, 1, false);
    AddressesAndData(e, m.called, m.calling, false, m.data, false);
    NoOptionalPart(m);
    r := e.Finish();
    PartsAppend(b, m, e.fixedPart, e.variables, e.options, r);
  }

  method AppendED(b: bytes, m: Message) returns (r: Option<bytes>)
    requires m.ED?
    ensures r == Appended(b, m)
  {
    hide AddressContents, DataContents, Collect, Representable, Render, Encodable, Encoder.Valid;
    var e := new Encoder(b, 11, ShapeOf(TED));
    e.Fixed(EncodeReference(m.destination));
    CatEmpty(EncodeReference(m.destination));
    e.Pointers(1, 1, false);
    e.Variable(0, DataContents(m.data, MAX_EXPEDITED_DATA));
    PushOne(DataContents(m.data, MAX_EXPEDITED_DATA));
    NoOptionalPart(m);
    r := e.Finish();
    PartsAppend(b, m, e.fixedPart, e.variables, e.options, r);
  }

  method AppendEA(b: bytes, m: Message) returns (r: Option<bytes>)
    requires m.EA?
    ensures r == Appended(b, m)
  {
    hide AddressContents, DataContents, Collect, Representable, Render, Encodable, Encoder.Valid;
    var e := new Encoder(b, 12, ShapeOf(TEA));
    e.Fixed(EncodeReference(m.destination));
    CatEmpty(EncodeReference(m.destination));
    NoOptionalPart(m);
    r := e.Finish();
    PartsAppend(b, m, e.fixedPart, e.variables, e.options, r);
  }

  method AppendRSR(b: bytes, m: Message) returns (r: Option<bytes>)
    requires m.RSR?
    ensures r == Appended(b, m)
  {
    hide AddressContents, DataContents, Collect, Representable, Render, Encodable, Encoder.Valid;
    var e := new Encoder(b, 13, ShapeOf(TRSR));
    e.Fixed(EncodeReference(m.destination));
    e.Fixed(EncodeReference(m.source));
    e.Fixed(CauseContents(m.cause));
    CatEmpty(EncodeReference(m.destination));
    e.Pointers(1, 1, true);
    e.Fields(FieldsOf(m));
    e.Raws(m.raw, Codes(TRSR));
    r := e.Finish();
    PartsAppend(b, m, e.fixedPart, e.variables, e.options, r);
  }

  method AppendRSC(b: bytes, m: Message) returns (r: Option<bytes>)
    requires m.RSC?
    ensures r == Appended(b, m)
  {
    hide AddressContents, DataContents, Collect, Representable, Render, Encodable, Encoder.Valid;
    var e := new Encoder(b, 14, ShapeOf(TRSC));
    e.Fixed(EncodeReference(m.destination));
    e.Fixed(EncodeReference(m.source));
    CatEmpty(EncodeReference(m.destination));
    NoOptionalPart(m);
    r := e.Finish();
    PartsAppend(b, m, e.fixedPart, e.variables, e.options, r);
  }

  method AppendERR(b: bytes, m: Message) returns (r: Option<bytes>)
    requires m.ERR?
    ensures r == Appended(b, m)
  {
    hide AddressContents, DataContents, Collect, Representable, Render, Encodable, Encoder.Valid;
    var e := new Encoder(b, 15, ShapeOf(TERR));
    e.Fixed(EncodeReference(m.destination));
    e.Fixed(CauseContents(m.cause));
    CatEmpty(EncodeReference(m.destination));
    e.Pointers(1, 1, true);
    e.Fields(FieldsOf(m));
    e.Raws(m.raw, Codes(TERR));
    r := e.Finish();
    PartsAppend(b, m, e.fixedPart, e.variables, e.options, r);
  }

  method AppendIT(b: bytes, m: Message) returns (r: Option<bytes>)
    requires m.IT?
    ensures r == Appended(b, m)
  {
    hide AddressContents, DataContents, Collect, Representable, Render, Encodable, Encoder.Valid;
    var e := new Encoder(b, 16, ShapeOf(TIT));
    e.Fixed(EncodeReference(m.destination));
    e.Fixed(EncodeReference(m.source));
    e.Fixed(ConnectionClass(m.protocolClass));
    e.Fixed(EncodeSequencing(m.sequencing));
    e.Fixed(EncodeCredit(m.credit));
    CatEmpty(EncodeReference(m.destination));
    NoOptionalPart(m);
    r := e.Finish();
    PartsAppend(b, m, e.fixedPart, e.variables, e.options, r);
  }

  method AppendXUDT(b: bytes, m: Message) returns (r: Option<bytes>)
    requires m.XUDT?
    ensures r == Appended(b, m)
  {
    hide UnitdataVariables, OptionsOf, ConnectionlessClass, CauseContents, EncodeHop, Representable, Render, Encodable, Encoder.Valid;
    var e := new Encoder(b, 17, ShapeOf(TXUDT));
    e.Fixed(ConnectionlessClass(m.protocolClass));
    e.Check(SegmentClass(m.protocolClass, m.segmentation));
    e.Fixed(EncodeHop(m.hop));
    CatEmpty(ConnectionlessClass(m.protocolClass));
    HeaderLength(Cat(ConnectionlessClass(m.protocolClass), EncodeHop(m.hop)), m);
    e.Pointers(4, 1, true);
    AddressesAndData(e, m.called, m.calling, true, m.data, false);
    SegmentationImportance(e, m);
    r := e.Finish();
    PartsAppend(b, m, e.fixedPart, e.variables, e.options, r);
  }

  method AppendXUDTS(b: bytes, m: Message) returns (r: Option<bytes>)
    requires m.XUDTS?
    ensures r == Appended(b, m)
  {
    hide UnitdataVariables, OptionsOf, ConnectionlessClass, CauseContents, EncodeHop, Representable, Render, Encodable, Encoder.Valid;
    var e := new Encoder(b, 18, ShapeOf(TXUDTS));
    e.Fixed(CauseContents(m.cause));
    e.Fixed(EncodeHop(m.hop));
    CatEmpty(CauseContents(m.cause));
    HeaderLength(Cat(CauseContents(m.cause), EncodeHop(m.hop)), m);
    e.Pointers(4, 1, true);
    AddressesAndData(e, m.called, m.calling, false, m.data, false);
    SegmentationImportance(e, m);
    r := e.Finish();
    PartsAppend(b, m, e.fixedPart, e.variables, e.options, r);
  }

  method AppendLUDT(b: bytes, m: Message) returns (r: Option<bytes>)
    requires m.LUDT?
    ensures r == Appended(b, m)
  {
    hide UnitdataVariables, OptionsOf, ConnectionlessClass, CauseContents, EncodeHop, Representable, Render, Encodable, Encoder.Valid;
    var e := new Encoder(b, 19, ShapeOf(TLUDT));
    e.Fixed(ConnectionlessClass(m.protocolClass));
    e.Check(SegmentClass(m.protocolClass, m.segmentation));
    e.Fixed(EncodeHop(m.hop));
    CatEmpty(ConnectionlessClass(m.protocolClass));
    HeaderLength(Cat(ConnectionlessClass(m.protocolClass), EncodeHop(m.hop)), m);
    e.Pointers(4, 2, true);
    AddressesAndData(e, m.called, m.calling, false, m.data, true);
    SegmentationImportance(e, m);
    r := e.Finish();
    PartsAppend(b, m, e.fixedPart, e.variables, e.options, r);
  }

  method AppendLUDTS(b: bytes, m: Message) returns (r: Option<bytes>)
    requires m.LUDTS?
    ensures r == Appended(b, m)
  {
    hide UnitdataVariables, OptionsOf, ConnectionlessClass, CauseContents, EncodeHop, Representable, Render, Encodable, Encoder.Valid;
    var e := new Encoder(b, 20, ShapeOf(TLUDTS));
    e.Fixed(CauseContents(m.cause));
    e.Fixed(EncodeHop(m.hop));
    CatEmpty(CauseContents(m.cause));
    HeaderLength(Cat(CauseContents(m.cause), EncodeHop(m.hop)), m);
    e.Pointers(4, 2, true);
    AddressesAndData(e, m.called, m.calling, false, m.data, true);
    SegmentationImportance(e, m);
    r := e.Finish();
    PartsAppend(b, m, e.fixedPart, e.variables, e.options, r);
  }

  method AppendMessage(b: bytes, m: Message) returns (r: Option<bytes>)
    ensures r == Appended(b, m)
  {
    match m {
      case CR(_, _, _, _, _, _, _, _, _) => r := AppendCR(b, m);
      case CC(_, _, _, _, _, _, _, _) => r := AppendCC(b, m);
      case CREF(_, _, _, _, _, _) => r := AppendCREF(b, m);
      case RLSD(_, _, _, _, _, _) => r := AppendRLSD(b, m);
      case RLC(_, _) => r := AppendRLC(b, m);
      case DT1(_, _, _) => r := AppendDT1(b, m);
      case DT2(_, _, _) => r := AppendDT2(b, m);
      case AK(_, _, _) => r := AppendAK(b, m);
      case UDT(_, _, _, _) => r := AppendUDT(b, m);
      case UDTS(_, _, _, _) => r := AppendUDTS(b, m);
      case ED(_, _) => r := AppendED(b, m);
      case EA(_) => r := AppendEA(b, m);
      case RSR(_, _, _, _) => r := AppendRSR(b, m);
      case RSC(_, _) => r := AppendRSC(b, m);
      case ERR(_, _, _) => r := AppendERR(b, m);
      case IT(_, _, _, _, _) => r := AppendIT(b, m);
      case XUDT(_, _, _, _, _, _, _, _) => r := AppendXUDT(b, m);
      case XUDTS(_, _, _, _, _, _, _, _) => r := AppendXUDTS(b, m);
      case LUDT(_, _, _, _, _, _, _, _) => r := AppendLUDT(b, m);
      case LUDTS(_, _, _, _, _, _, _, _) => r := AppendLUDTS(b, m);
    }
  }

  /** MarshalOptions.Append: the size limit applies to the message alone, and a refusal leaves the caller's octets. */
  method MarshalAppend(limit: int, b: bytes, m: Message) returns (out: bytes, refused: Option<MarshalError>)
    ensures match Marshal(limit, m)
            case Octets(x) => refused == None && out == b + x
            case Refused(e) => refused == Some(e) && out == b
  {
    hide Encodable, Encode;
    var l := if limit == 0 then DEFAULT_MAX_MESSAGE_SIZE else limit;
    if l < 0 || l > MAX_BROADBAND_MESSAGE_SIZE {
      return b, Some(InvalidMessage);
    }
    var r := AppendMessage(b, m);
    if r == None {
      return b, Some(InvalidMessage);
    }
    if |r.value| - |b| > l {
      return b, Some(MessageTooLong);
    }
    return r.value, None;
  }
}
