/** Party addresses and global titles, ITU-T Q.713 (03/01) section 3.4. */
module Address {
  import opened Basics

  const MAX_POINT_CODE: u32 := 0x3fff

  const GTI_NAI: byte := 1
  const GTI_TT: byte := 2
  const GTI_TT_NP_ES: byte := 3
  const GTI_TT_NP_ES_NAI: byte := 4

  datatype GlobalTitle = GlobalTitle(
    indicator: byte, translationType: byte, numberingPlan: byte, encodingScheme: byte,
    nature: byte, oddDigits: bool, information: bytes)

  datatype PartyAddress = PartyAddress(
    routeOnSSN: bool, nationalUse: bool, hasPointCode: bool, pointCode: u16,
    hasSSN: bool, ssn: byte, globalTitle: Option<GlobalTitle>)

  predicate HasElement(a: PartyAddress) {
    a.hasPointCode || a.hasSSN || a.globalTitle.Some?
  }

  predicate IndicatorOnly(a: PartyAddress) {
    !a.routeOnSSN && !HasElement(a)
  }

  /** Which fields the format of an indicator carries decides which of them may be non-zero. */
  predicate ValidTitle(g: GlobalTitle) {
    && 1 <= g.indicator <= 15
    && (g.indicator !in {GTI_TT, GTI_TT_NP_ES, GTI_TT_NP_ES_NAI} ==> g.translationType == 0)
    && (g.indicator !in {GTI_TT_NP_ES, GTI_TT_NP_ES_NAI} ==> g.numberingPlan == 0 && g.encodingScheme == 0)
    && (g.indicator !in {GTI_NAI, GTI_TT_NP_ES_NAI} ==> g.nature == 0)
    && (g.indicator != GTI_NAI ==> !g.oddDigits)
    && g.numberingPlan <= 15 && g.encodingScheme <= 15 && g.nature <= 127
  }

  function TitleHeader(g: GlobalTitle): bytes
    requires ValidTitle(g)
  {
    if g.indicator == GTI_NAI then [g.nature + (if g.oddDigits then 0x80 else 0)]
    else if g.indicator == GTI_TT then [g.translationType]
    else if g.indicator == GTI_TT_NP_ES then [g.translationType, g.numberingPlan * 16 + g.encodingScheme]
    else if g.indicator == GTI_TT_NP_ES_NAI then [g.translationType, g.numberingPlan * 16 + g.encodingScheme, g.nature]
    else []
  }

  function HeaderLength(indicator: byte): nat {
    if indicator == GTI_NAI || indicator == GTI_TT then 1
    else if indicator == GTI_TT_NP_ES then 2
    else if indicator == GTI_TT_NP_ES_NAI then 3
    else 0
  }

  /** The global title extends to the end of the party address; bit 8 of the indicator 4 nature is spare. */
  function DecodeTitle(indicator: byte, b: bytes): Option<GlobalTitle> {
    var n := HeaderLength(indicator);
    if |b| < n then None
    else if indicator == GTI_NAI then Some(GlobalTitle(indicator, 0, 0, 0, b[0] % 128, b[0] >= 128, b[n..]))
    else if indicator == GTI_TT then Some(GlobalTitle(indicator, b[0], 0, 0, 0, false, b[n..]))
    else if indicator == GTI_TT_NP_ES then Some(GlobalTitle(indicator, b[0], b[1] / 16, b[1] % 16, 0, false, b[n..]))
    else if indicator == GTI_TT_NP_ES_NAI then Some(GlobalTitle(indicator, b[0], b[1] / 16, b[1] % 16, b[2] % 128, false, b[n..]))
    else Some(GlobalTitle(indicator, 0, 0, 0, 0, false, b))
  }

  predicate ValidAddress(a: PartyAddress) {
    && (!a.hasPointCode ==> a.pointCode == 0)
    && a.pointCode <= MAX_POINT_CODE
    && (!a.hasSSN ==> a.ssn == 0)
    && (a.globalTitle.Some? ==> ValidTitle(a.globalTitle.value))
  }

  function Indicator(a: PartyAddress): byte
    requires ValidAddress(a)
  {
    (if a.hasPointCode then 1 else 0) + (if a.hasSSN then 2 else 0)
    + (if a.globalTitle.Some? then a.globalTitle.value.indicator * 4 else 0)
    + (if a.routeOnSSN then 0x40 else 0) + (if a.nationalUse then 0x80 else 0)
  }

  function PointCodePart(a: PartyAddress): bytes {
    if a.hasPointCode then [a.pointCode % 256, a.pointCode / 256] else []
  }

  function SSNPart(a: PartyAddress): bytes {
    if a.hasSSN then [a.ssn] else []
  }

  function TitlePart(a: PartyAddress): bytes
    requires ValidAddress(a)
  {
    if a.globalTitle.Some? then TitleHeader(a.globalTitle.value) + a.globalTitle.value.information else []
  }

  /** The address indicator, then point code, subsystem number and global title. */
  function EncodeAddress(a: PartyAddress): Option<bytes> {
    if !ValidAddress(a) then None
    else Some([Indicator(a)] + PointCodePart(a) + SSNPart(a) + TitlePart(a))
  }

  /** Spare point code bits are not examined, and octets after an address without a global title are ignored. */
  function DecodeAddress(b: bytes): Option<PartyAddress> {
    if |b| < 1 then None else
    var ai := b[0];
    var pcEnd := if ai % 2 == 1 then 3 else 1;
    if |b| < pcEnd then None else
    var ssnEnd := if ai / 2 % 2 == 1 then pcEnd + 1 else pcEnd;
    if |b| < ssnEnd then None else
    var pc: u16 := if pcEnd == 3 then (b[1] as int + b[2] as int * 256) % 0x4000 else 0;
    var ssn := if ssnEnd > pcEnd then b[pcEnd] else 0;
    var gti := ai / 4 % 16;
    var bare := PartyAddress(ai / 0x40 % 2 == 1, ai >= 0x80, pcEnd == 3, pc, ssnEnd > pcEnd, ssn, None);
    if gti == 0 then Some(bare) else
    match DecodeTitle(gti, b[ssnEnd..])
    case None => None
    case Some(g) => Some(bare.(globalTitle := Some(g)))
  }

  lemma TitleRoundTrip(g: GlobalTitle)
    requires ValidTitle(g)
    ensures DecodeTitle(g.indicator, TitleHeader(g) + g.information) == Some(g)
  {
    var b := TitleHeader(g) + g.information;
    assert b[HeaderLength(g.indicator)..] == g.information;
  }

  lemma IndicatorBits(a: PartyAddress)
    requires ValidAddress(a)
    ensures var ai := Indicator(a);
            && (ai % 2 == 1) == a.hasPointCode
            && (ai / 2 % 2 == 1) == a.hasSSN
            && ai / 4 % 16 == (if a.globalTitle.Some? then a.globalTitle.value.indicator else 0)
            && (ai / 0x40 % 2 == 1) == a.routeOnSSN
            && (ai >= 0x80) == a.nationalUse
  {
    BitFields(if a.hasPointCode then 1 else 0, if a.hasSSN then 1 else 0,
              if a.globalTitle.Some? then a.globalTitle.value.indicator else 0,
              if a.routeOnSSN then 1 else 0, if a.nationalUse then 1 else 0);
  }

  lemma BitFields(p: nat, s: nat, g: nat, r: nat, n: nat)
    requires p <= 1 && s <= 1 && g < 16 && r <= 1 && n <= 1
    ensures var ai := p + 2 * s + 4 * g + 0x40 * r + 0x80 * n;
            ai % 2 == p && ai / 2 % 2 == s && ai / 4 % 16 == g && ai / 0x40 % 2 == r && (ai >= 0x80 <==> n == 1)
  {
    var ai := p + 2 * s + 4 * g + 0x40 * r + 0x80 * n;
    assert ai / 2 == s + 2 * (g + 16 * r + 32 * n);
    assert ai / 4 == g + 16 * (r + 2 * n);
    assert ai / 0x40 == r + 2 * n;
  }

  /** A party address the encoder accepts is decoded back to itself. */
  lemma AddressRoundTrip(a: PartyAddress)
    requires ValidAddress(a)
    ensures DecodeAddress(EncodeAddress(a).value) == Some(a)
  {
    var b := EncodeAddress(a).value;
    IndicatorBits(a);
    var head := [Indicator(a)] + PointCodePart(a) + SSNPart(a);
    assert b == head + TitlePart(a);
    assert b[|head|..] == TitlePart(a);
    if a.hasPointCode {
      assert b[1] == a.pointCode % 256 && b[2] == a.pointCode / 256;
    }
    if a.globalTitle.Some? {
      TitleRoundTrip(a.globalTitle.value);
    }
  }

  /** Whatever address is received can be sent back: decoding yields only values the encoder accepts. */
  lemma DecodedAddressEncodes(b: bytes)
    requires DecodeAddress(b).Some?
    ensures ValidAddress(DecodeAddress(b).value)
  {
  }

  /** The encoding of an address identifies it. */
  lemma EncodingInjective(a: PartyAddress, b: PartyAddress)
    requires ValidAddress(a) && ValidAddress(b)
    requires EncodeAddress(a) == EncodeAddress(b)
    ensures a == b
  {
    AddressRoundTrip(a);
    AddressRoundTrip(b);
  }
}

/** BCD address signals, ITU-T Q.713 (03/01) Figure 8. */
module BCD {
  import opened Basics

  const SIGNALS: string := "0123456789ABCDEF"

  function Value(c: char): Option<byte> {
    if '0' <= c <= '9' then Some((c as int - '0' as int) as byte)
    else if c == 'B' || c == 'b' then Some(11)
    else if c == 'C' || c == 'c' then Some(12)
    else if c == 'F' || c == 'f' then Some(15)
    else None
  }

  predicate Encodable(digits: string) {
    forall i :: 0 <= i < |digits| ==> Value(digits[i]).Some?
  }

  /** The signal at position i of the address: the low half of an octet first. */
  function Nibble(addr: bytes, i: nat): byte
    requires i / 2 < |addr|
  {
    if i % 2 == 0 then addr[i / 2] % 16 else addr[i / 2] / 16
  }

  /** Two signals an octet, the first in bits 1-4, with filler 0000 after an odd count. */
  ghost predicate Encodes(digits: string, addr: bytes, odd: bool) {
    && |addr| == (|digits| + 1) / 2
    && odd == (|digits| % 2 == 1)
    && (forall i :: 0 <= i < |digits| ==> Some(Nibble(addr, i)) == Value(digits[i]))
    && (odd ==> Nibble(addr, |digits|) == 0)
  }

  ghost predicate Decodes(addr: bytes, odd: bool, s: string) {
    && |s| == 2 * |addr| - (if odd then 1 else 0)
    && forall i :: 0 <= i < |s| ==> s[i] == SIGNALS[Nibble(addr, i)]
  }

  method Encode(digits: string) returns (r: Option<(bytes, bool)>)
    ensures r.Some? <==> Encodable(digits)
    ensures r.Some? ==> Encodes(digits, r.value.0, r.value.1)
  {
    var addr := new byte[(|digits| + 1) / 2](_ => 0);
    for i := 0 to |digits|
      invariant forall k :: 0 <= k < i ==> Some(Nibble(addr[..], k)) == Value(digits[k])
      invariant forall k :: i <= k < 2 * addr.Length ==> Nibble(addr[..], k) == 0
    {
      var v := Value(digits[i]);
      if v == None {
        return None;
      }
      ghost var before := addr[..];
      assert Nibble(before, i) == 0 && (i % 2 == 0 ==> Nibble(before, i + 1) == 0);
      if i % 2 == 0 {
        addr[i / 2] := v.value;
      } else {
        addr[i / 2] := addr[i / 2] + v.value * 16;
      }
      assert addr[..] == before[i / 2 := addr[i / 2]];
      forall k | 0 <= k < 2 * addr.Length && k != i
        ensures Nibble(addr[..], k) == Nibble(before, k)
      {
        if k / 2 == i / 2 {
          assert k == i + 1 - i % 2 * 2;
        }
      }
      assert Nibble(addr[..], i) == v.value;
    }
    return Some((addr[..], |digits| % 2 == 1));
  }

  /** Every signal decodes to a character; the filler of an odd count is dropped unexamined. */
  method Decode(addr: bytes, odd: bool) returns (r: Option<string>)
    ensures r == None <==> odd && addr == []
    ensures r.Some? ==> Decodes(addr, odd, r.value)
  {
    if odd && |addr| == 0 {
      return None;
    }
    var n := 2 * |addr|;
    if odd {
      n := n - 1;
    }
    var s := new char[n](_ => '0');
    for i := 0 to n
      invariant forall k :: 0 <= k < i ==> s[k] == SIGNALS[Nibble(addr, k)]
    {
      var v := addr[i / 2];
      if i % 2 == 1 {
        v := v / 16;
      }
      s[i] := SIGNALS[v % 16];
    }
    return Some(s[..]);
  }

  function Canonical(c: char): char {
    if c == 'b' then 'B' else if c == 'c' then 'C' else if c == 'f' then 'F' else c
  }

  /** Decoding what Encode produces gives back the signals, in upper case. */
  lemma RoundTrip(digits: string, addr: bytes, odd: bool, s: string)
    requires Encodable(digits) && Encodes(digits, addr, odd) && Decodes(addr, odd, s)
    ensures |s| == |digits| && forall i :: 0 <= i < |digits| ==> s[i] == Canonical(digits[i])
  {
    forall i | 0 <= i < |digits|
      ensures s[i] == Canonical(digits[i])
    {
      assert Some(Nibble(addr, i)) == Value(digits[i]);
    }
  }

  /** Address and parity identify the signals up to letter case. */
  lemma EncodingIdentifiesSignals(d: string, e: string, addr: bytes, odd: bool)
    requires Encodable(d) && Encodable(e) && Encodes(d, addr, odd) && Encodes(e, addr, odd)
    ensures |d| == |e| && forall i :: 0 <= i < |d| ==> Canonical(d[i]) == Canonical(e[i])
  {
    var s := seq(|d|, i requires 0 <= i < |d| => SIGNALS[Nibble(addr, i)]);
    RoundTrip(d, addr, odd, s);
    RoundTrip(e, addr, odd, s);
  }
}
