/**
 * What the connectionless procedures rely on about sizes: a message that fits still fits with less user data, and
 * whether a segment fits does not depend on which segment of its message it is.
 */
module Sizes {
  import opened Basics
  import opened Fields
  import opened Address
  import opened Wire
  import opened Messages
  import opened Codec

  // ----- Frames -----

  /** Part by part, one frame needs no more room than another. */
  ghost predicate NoLarger(sh: Shape, small: Frame, big: Shape, large: Frame) {
    && sh.pointerSize == big.pointerSize && sh.variables == big.variables && sh.longData == big.longData
    && sh.fixed <= big.fixed && (sh.optional ==> big.optional)
    && |small.fixed| == sh.fixed && |small.variables| == |large.variables| == sh.variables
    && (forall i :: 0 <= i < sh.variables ==> |small.variables[i]| <= |large.variables[i]|)
    && (small.options != [] ==> sh.optional && large.options != [])
    && ValidOptions(small.options) && OptionsLength(small.options) <= OptionsLength(large.options)
  }

  lemma {:induction false} BlocksNoLarger(sh: Shape, small: seq<bytes>, big: Shape, large: seq<bytes>)
    requires sh.variables == big.variables && sh.longData == big.longData && |small| == |large|
    requires forall i :: 0 <= i < |small| ==> |small[i]| <= |large[i]|
    ensures BlocksLength(sh, small) <= BlocksLength(big, large)
    decreases |small|
  {
    if |small| > 0 {
      BlocksNoLarger(sh, small[..|small| - 1], big, large[..|large| - 1]);
    }
  }

  /** A frame no larger than one that can be represented can be, in no more octets. */
  lemma SmallerFits(sh: Shape, small: Frame, big: Shape, large: Frame)
    requires sh.Valid() && big.Valid() && NoLarger(sh, small, big, large) && Representable(big, large)
    ensures Representable(sh, small) && RenderLength(sh, small) <= RenderLength(big, large)
  {
    BlocksNoLarger(sh, small.variables, big, large.variables);
    forall i | 0 <= i < sh.variables
      ensures |small.variables[i]| <= sh.LengthLimit(i)
    {
      assert |large.variables[i]| <= big.LengthLimit(i);
    }
    var values := PointerValues(sh, small);
    forall i | 0 <= i < |values|
      ensures values[i] <= NumberLimit(sh.pointerSize)
    {
      BlocksNoLarger(sh, small.variables[..i], big, large.variables[..i]);
      assert PointerValues(big, large)[i] <= NumberLimit(big.pointerSize);
    }
  }

  /** The size of an encoding, from the lengths of its parts. */
  lemma EncodedSize(m: Message)
    requires Encodable(m)
    ensures |Encode(m).value| == RenderLength(ShapeOf(TypeOf(m)), FrameOf(m).value)
  {
    RenderRoundTrip(ShapeOf(TypeOf(m)), FrameOf(m).value);
  }

  lemma FitsBySize(limit: int, m: Message, n: Message)
    requires FrameOf(m).Some? && Marshal(limit, n).Octets?
    requires NoLarger(ShapeOf(TypeOf(m)), FrameOf(m).value, ShapeOf(TypeOf(n)), FrameOf(n).value)
    ensures Marshal(limit, m).Octets?
  {
    hide FrameOf, ShapeOf, Representable, RenderLength, NoLarger;
    SmallerFits(ShapeOf(TypeOf(m)), FrameOf(m).value, ShapeOf(TypeOf(n)), FrameOf(n).value);
    EncodedSize(m);
    EncodedSize(n);
  }

  // ----- User data -----

  /** The messages whose user data the procedures shorten or split. */
  predicate CarriesData(m: Message) {
    m.UDT? || m.XUDT? || m.UDTS? || m.XUDTS? || m.LUDTS? || m.DT1?
  }

  function WithData(m: Message, d: bytes): Message
    requires CarriesData(m)
  {
    m.(data := d)
  }

  lemma WithDataFrame(m: Message, d: bytes)
    requires CarriesData(m) && FrameOf(m).Some? && 1 <= |d| <= |m.data|
    ensures FrameOf(WithData(m, d)).Some?
    ensures NoLarger(ShapeOf(TypeOf(m)), FrameOf(WithData(m, d)).value, ShapeOf(TypeOf(m)), FrameOf(m).value)
            || !Encodable(m)
  {
    hide EncodeAddress, EncodeHop, EncodeClass, EncodeSegmentation, EncodeImportance, Collect, PointerValues, AddressContents, AddRaw;
  }

  /** Fitting is downward closed in the length of the user data. */
  lemma ShorterFits(limit: int, m: Message, d: bytes)
    requires CarriesData(m) && Marshal(limit, m).Octets? && 1 <= |d| <= |m.data|
    ensures Marshal(limit, WithData(m, d)).Octets?
  {
    hide FrameOf, ShapeOf, Representable, NoLarger;
    WithDataFrame(m, d);
    FitsBySize(limit, WithData(m, d), m);
  }

  /** Only the length of the user data decides whether a message fits. */
  lemma SameLengthFits(limit: int, m: Message, d: bytes, e: bytes)
    requires CarriesData(m) && |d| == |e|
    ensures Marshal(limit, WithData(m, d)).Octets? <==> Marshal(limit, WithData(m, e)).Octets?
  {
    hide Marshal;
    if Marshal(limit, WithData(m, d)).Octets? {
      DataNeeded(limit, WithData(m, d));
      ShorterFits(limit, WithData(m, d), e);
    }
    if Marshal(limit, WithData(m, e)).Octets? {
      DataNeeded(limit, WithData(m, e));
      ShorterFits(limit, WithData(m, e), d);
    }
  }

  /** User data is never empty, and never longer than its parameter allows. */
  lemma DataNeeded(limit: int, m: Message)
    requires CarriesData(m) && Marshal(limit, m).Octets?
    ensures 1 <= |m.data| <= (if m.LUDTS? then MAX_LONG_DATA else MAX_DATA)
  {
    hide FixedOf, OptionsOf, AddressContents, Representable, Render, ShapeOf;
  }

  function Zeros(n: nat): (d: bytes)
    ensures |d| == n
  {
    seq(n, i => 0)
  }

  /** n octets of user data fit. */
  predicate FitsAt(limit: int, m: Message, n: nat)
    requires CarriesData(m)
  {
    Marshal(limit, WithData(m, Zeros(n))).Octets?
  }

  lemma FitsAtLength(limit: int, m: Message, d: bytes)
    requires CarriesData(m)
    ensures Marshal(limit, WithData(m, d)).Octets? <==> FitsAt(limit, m, |d|)
  {
    SameLengthFits(limit, m, d, Zeros(|d|));
  }

  lemma FitsDownward(limit: int, m: Message, n: nat, k: nat)
    requires CarriesData(m) && FitsAt(limit, m, n) && 1 <= k <= n
    ensures FitsAt(limit, m, k)
  {
    hide Marshal;
    ShorterFits(limit, WithData(m, Zeros(n)), Zeros(k));
  }

  /** n is the greatest length of user data that fits, 0 when none does. */
  ghost predicate Capacity(limit: int, m: Message, n: nat)
    requires CarriesData(m)
  {
    (n > 0 ==> FitsAt(limit, m, n)) && forall k: nat :: k > n ==> !FitsAt(limit, m, k)
  }

  // ----- Segments -----

  /** A segment fits when the probe of its message does: its data is no longer and its other parts are as long. */
  lemma SegmentFits(limit: int, probe: Message, segment: Message)
    requires probe.XUDT? && Marshal(limit, probe).Octets? && probe.raw == []
    requires segment.XUDT? && segment.raw == [] && segment.protocolClass.number == 1
    requires segment.hop == probe.hop && segment.called == probe.called && segment.calling == probe.calling
    requires 1 <= |segment.data| <= |probe.data| && probe.segmentation.Some? && segment.segmentation.Some?
    requires segment.segmentation.value.remaining <= MAX_REMAINING_SEGMENTS
    requires segment.segmentation.value.reference <= MAX_LOCAL_REFERENCE
    requires segment.importance.Some? == probe.importance.Some?
    requires segment.importance.Some? ==> segment.importance.value <= MAX_IMPORTANCE
    ensures Marshal(limit, segment).Octets?
  {
    SegmentFrame(limit, probe, segment);
    hide FrameOf, ShapeOf, Marshal, NoLarger;
    FitsBySize(limit, segment, probe);
  }

  lemma SegmentFrame(limit: int, probe: Message, segment: Message)
    requires probe.XUDT? && Marshal(limit, probe).Octets? && probe.raw == []
    requires segment.XUDT? && segment.raw == [] && segment.protocolClass.number == 1
    requires segment.hop == probe.hop && segment.called == probe.called && segment.calling == probe.calling
    requires 1 <= |segment.data| <= |probe.data| && probe.segmentation.Some? && segment.segmentation.Some?
    requires segment.segmentation.value.remaining <= MAX_REMAINING_SEGMENTS
    requires segment.segmentation.value.reference <= MAX_LOCAL_REFERENCE
    requires segment.importance.Some? == probe.importance.Some?
    requires segment.importance.Some? ==> segment.importance.value <= MAX_IMPORTANCE
    ensures FrameOf(segment).Some?
    ensures NoLarger(ShapeOf(TypeOf(segment)), FrameOf(segment).value, ShapeOf(TypeOf(probe)), FrameOf(probe).value)
  {
    hide EncodeAddress, Representable, OptionsOf, OptionsLength, AddressContents, Render;
    ExtendedOptions(probe);
    ExtendedOptions(segment);
  }

  /** The optional part of an XUDT without unrecognised parameters: six octets of segmentation, three of importance. */
  lemma ExtendedOptions(m: Message)
    requires m.XUDT? && m.raw == []
    ensures OptionsOf(m).Some? <==>
            (m.segmentation.Some? ==> EncodeSegmentation(m.segmentation.value).Some?)
            && (m.importance.Some? ==> m.importance.value <= MAX_IMPORTANCE)
    ensures OptionsOf(m).Some? ==>
              var ps := OptionsOf(m).value;
              && ValidOptions(ps) && (ps == [] <==> m.segmentation == None && m.importance == None)
              && OptionsLength(ps) == (if m.segmentation.Some? then 6 else 0) + (if m.importance.Some? then 3 else 0)
  {
    CollectTwo(SegmentationField(m.segmentation), ImportanceField(m.importance));
    hide Collect, EncodeSegmentation;
    SegmentationLength(m.segmentation);
    var f, ps := FieldsOf(m), Collect(FieldsOf(m));
    if ps.Some? {
      assert ps.value + [] == ps.value;
    }
  }

  function Present(f: Field): seq<Param> {
    if f.present && f.contents.Some? then [Param(f.code, f.contents.value)] else []
  }

  function ParamLength(f: Field): nat {
    if f.present && f.contents.Some? then 2 + |f.contents.value| else 0
  }

  lemma CollectTwo(f: Field, g: Field)
    ensures Collect([f, g]).Some? <==> (f.present ==> f.contents.Some?) && (g.present ==> g.contents.Some?)
    ensures Collect([f, g]).Some? ==>
              Collect([f, g]).value == Present(f) + Present(g)
              && OptionsLength(Present(f) + Present(g)) == ParamLength(f) + ParamLength(g)
  {
    assert [f, g][..1] == [f] && [f, g][1] == g;
    CollectOne(f);
    var x, y := Present(f), Present(g);
    if |y| == 1 {
      assert (x + y)[..|x|] == x;
    } else {
      assert x + y == x;
    }
  }

  lemma CollectOne(f: Field)
    ensures Collect([f]).Some? <==> (f.present ==> f.contents.Some?)
    ensures Collect([f]).Some? ==> Collect([f]).value == Present(f) && OptionsLength(Present(f)) == ParamLength(f)
  {
    assert [f][..0] == [] && [f][0] == f;
    assert Collect([]) == Some([]);
    if |Present(f)| == 1 {
      assert Present(f)[..0] == [];
      assert OptionsLength([]) == 0;
      assert [] + Present(f) == Present(f);
    }
  }

  lemma SegmentationLength(v: Option<Segmentation>)
    ensures v.Some? && EncodeSegmentation(v.value).Some? ==> |EncodeSegmentation(v.value).value| == 4
  {
  }
}
