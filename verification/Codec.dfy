/** Encoding and decoding of whole messages, sccp.go and the appendMessage and UnmarshalBinary methods. */
module Codec {
  import opened Basics
  import opened Wire
  import opened Messages

  const DEFAULT_MAX_MESSAGE_SIZE: int := 268
  const MAX_BROADBAND_MESSAGE_SIZE: int := 4091

  datatype MarshalError = InvalidMessage | MessageTooLong

  datatype ParseError = EmptyMessage | Malformed | UnsupportedType(code: byte)

  datatype Marshalled = Octets(octets: bytes) | Refused(error: MarshalError)

  datatype Parsed = Decoded(message: Message) | Rejected(reason: ParseError)

  /** The encoder accepts the message: every value fits its part and every pointer reaches. */
  predicate Encodable(m: Message) {
    FrameOf(m).Some? && Representable(ShapeOf(TypeOf(m)), FrameOf(m).value)
  }

  function Encode(m: Message): Option<bytes> {
    if Encodable(m) then Some(Render(ShapeOf(TypeOf(m)), FrameOf(m).value)) else None
  }

  /** Zero selects the default maximum message size. */
  function LimitOf(limit: int): int {
    if limit == 0 then DEFAULT_MAX_MESSAGE_SIZE else limit
  }

  function Marshal(limit: int, m: Message): Marshalled {
    if LimitOf(limit) < 0 || LimitOf(limit) > MAX_BROADBAND_MESSAGE_SIZE then Refused(InvalidMessage)
    else if !Encodable(m) then Refused(InvalidMessage)
    else if |Encode(m).value| > LimitOf(limit) then Refused(MessageTooLong)
    else Octets(Encode(m).value)
  }

  function ParseAs(t: MsgType, b: bytes): Option<Message> {
    match Parse(ShapeOf(t), b)
    case None => None
    case Some(fr) =>
      ParsedFits(t, b);
      MessageOf(t, fr)
  }

  lemma ParsedFits(t: MsgType, b: bytes)
    requires Parse(ShapeOf(t), b).Some?
    ensures Fits(t, Parse(ShapeOf(t), b).value)
  {
  }

  function ParseMessage(b: bytes): Parsed {
    if |b| == 0 then Rejected(EmptyMessage) else
    match TypeOfCode(b[0])
    case None => Rejected(UnsupportedType(b[0]))
    case Some(t) =>
      match ParseAs(t, b)
      case None => Rejected(Malformed)
      case Some(m) => Decoded(m)
  }

  lemma TypeOfShapeCode(t: MsgType)
    ensures 1 <= ShapeOf(t).code <= 20 && TypeOfCode(ShapeOf(t).code) == Some(t)
  {
  }

  /**
   * Layout independence of messages: octets that carry the parts of a message, placed anywhere its pointers can
   * say, decode to that message.
   */
  lemma AnyLayoutDecodes(m: Message, b: bytes, at: seq<nat>)
    requires FrameOf(m).Some? && Places(ShapeOf(TypeOf(m)), FrameOf(m).value, b, at)
    ensures ParseMessage(b) == Decoded(m)
  {
    hide Places, Parse, MessageOf, FrameOf, Fits, TypeOfCode;
    var t, fr := TypeOf(m), FrameOf(m).value;
    PlacedIsParsed(ShapeOf(t), b, fr, at);
    FrameRoundTrip(m, fr);
    PlacedCode(ShapeOf(t), fr, b, at);
    TypeOfShapeCode(t);
  }

  lemma PlacedCode(sh: Shape, fr: Frame, b: bytes, at: seq<nat>)
    requires sh.Valid() && Places(sh, fr, b, at)
    ensures |b| > 0 && b[0] == sh.code
  {
  }

  /** A message the encoder accepts is decoded back from the octets it produced. */
  lemma CodecRoundTrip(limit: int, m: Message)
    requires Marshal(limit, m).Octets?
    ensures ParseMessage(Marshal(limit, m).octets) == Decoded(m)
  {
    hide FrameOf, ParseMessage, Places, Representable, Laid;
    var sh, fr := ShapeOf(TypeOf(m)), FrameOf(m).value;
    RenderLaid(sh, fr);
    LaidPlaces(sh, fr, Render(sh, fr));
    AnyLayoutDecodes(m, Render(sh, fr), Targets(sh, fr));
  }

  /** Distinct messages never share an encoding. */
  lemma EncodingInjective(limit: int, m: Message, n: Message)
    requires Marshal(limit, m).Octets? && Marshal(limit, m) == Marshal(limit, n)
    ensures m == n
  {
    hide Marshal, ParseMessage;
    CodecRoundTrip(limit, m);
    CodecRoundTrip(limit, n);
  }

  /** Exactly the octets that carry the parts of some frame of their type decode, and to what those parts mean. */
  lemma DecodesExactlyLayouts(b: bytes, m: Message)
    ensures ParseMessage(b) == Decoded(m) <==>
            exists t: MsgType, fr: Frame, at: seq<nat> ::
              Places(ShapeOf(t), fr, b, at) && Fits(t, fr) && MessageOf(t, fr) == Some(m)
  {
    hide MessageOf, Places, Fits, TypeOfCode, Parse;
    if ParseMessage(b) == Decoded(m) {
      var t := TypeOfCode(b[0]).value;
      var fr := Parse(ShapeOf(t), b).value;
      ParsedFits(t, b);
      ParsedIsPlaced(ShapeOf(t), b, fr);
    }
    if t: MsgType, fr: Frame, at: seq<nat> :| Places(ShapeOf(t), fr, b, at) && Fits(t, fr) && MessageOf(t, fr) == Some(m) {
      PlacedIsParsed(ShapeOf(t), b, fr, at);
      PlacedCode(ShapeOf(t), fr, b, at);
      TypeOfShapeCode(t);
    }
  }
}
