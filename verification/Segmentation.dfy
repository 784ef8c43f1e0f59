/** N-UNITDATA requests: one message, or up to 16 segments of one, unitdata.go 72-245. */
module Segmenting {
  import opened Basics
  import opened Fields
  import opened Address
  import opened Messages
  import opened Codec
  import opened Sizes
  import opened Wire
  import References

  const MAX_SEGMENTS: nat := 16
  const MIN_MESSAGE_SIZE: nat := 11
  const MIN_SEGMENTATION_THRESHOLD: nat := 160

  datatype Request = Request(
    called: PartyAddress, calling: PartyAddress, protocolClass: byte, sequence: byte, returnOnError: bool,
    importance: Option<byte>, data: bytes, dpc: u32)

  datatype Node = Node(
    pointCode: u32, ni: byte, maxMessageSize: int, hop: byte, useXUDT: bool, threshold: nat, freeze: nat)

  /** What NewStack accepts. */
  predicate ValidNode(node: Node) {
    && node.pointCode <= MAX_POINT_CODE && node.ni <= 3
    && MIN_MESSAGE_SIZE <= node.maxMessageSize <= MAX_BROADBAND_MESSAGE_SIZE
    && 1 <= node.hop <= MAX_HOP_COUNTER
    && (node.threshold == 0 || node.threshold >= MIN_SEGMENTATION_THRESHOLD)
  }

  datatype SendError = InvalidRequest | SegmentationFailed

  datatype Transfer = Transfer(routing: RoutingLabel, message: Message, octets: bytes)

  datatype Sent = Transfers(transfers: seq<Transfer>) | Failed(error: SendError)

  // ----- Checks -----

  /** An address the originating node may send to. */
  predicate Routable(a: PartyAddress) {
    && EncodeAddress(a).Some?
    && (if a.routeOnSSN then a.hasSSN && a.ssn != 0 else a.globalTitle.Some?)
  }

  function Destination(req: Request): Option<u32> {
    if req.dpc != 0 then Some(req.dpc)
    else if req.called.hasPointCode then Some(req.called.pointCode)
    else None
  }

  /** Why a request is refused, if it is. */
  function Refusal(req: Request): Option<SendError> {
    if req.protocolClass > 1 || |req.data| == 0 then Some(InvalidRequest)
    else if |req.data| > MAX_LONG_DATA then Some(SegmentationFailed)
    else if !Routable(req.called) then Some(InvalidRequest)
    else if EncodeAddress(req.calling) == None then Some(InvalidRequest)
    else if !HasElement(req.calling) && !IndicatorOnly(req.calling) then Some(InvalidRequest)
    else if req.importance.Some? && req.importance.value > MAX_IMPORTANCE then Some(InvalidRequest)
    else match Destination(req)
         case None => Some(InvalidRequest)
         case Some(dpc) => if dpc > MAX_POINT_CODE then Some(InvalidRequest) else None
  }

  /** An importance of 6 at most for connectionless messages. */
  function LimitImportance(i: Option<byte>): Option<byte> {
    if i.Some? then Some(Min(i.value, 6)) else None
  }

  // ----- The messages of a request -----

  function SingleMessage(node: Node, req: Request): (m: Message)
    ensures CarriesData(m) && m.data == req.data
  {
    var pc := ProtocolClass(req.protocolClass, req.returnOnError);
    if !node.useXUDT && req.importance == None then UDT(pc, req.called, req.calling, req.data)
    else XUDT(pc, node.hop, req.called, req.calling, req.data, None, LimitImportance(req.importance), [])
  }

  /** The segment that segmentCapacity tries sizes with. */
  function Probe(node: Node, req: Request): (m: Message)
    ensures m.XUDT? && CarriesData(m)
  {
    XUDT(ProtocolClass(1, req.returnOnError), node.hop, req.called, req.calling, [],
         Some(Segmentation(true, false, MAX_REMAINING_SEGMENTS, 0)), req.importance, [])
  }

  /** Where chunk i of n starts: the longer ones come first. */
  function ChunkStart(len: nat, n: nat, i: nat): nat
    requires n > 0
  {
    i * (len / n) + Min(i, len % n)
  }

  lemma ChunkBounds(len: nat, n: nat, i: nat)
    requires n > 0 && i < n
    ensures ChunkStart(len, n, i + 1) - ChunkStart(len, n, i) == len / n + (if i < len % n then 1 else 0)
    ensures ChunkStart(len, n, i) <= ChunkStart(len, n, i + 1) <= len
    ensures ChunkStart(len, n, 0) == 0 && ChunkStart(len, n, n) == len
  {
    var q, r := len / n, len % n;
    assert (i + 1) * q == i * q + q;
    TimesOrdered(i + 1, n, q);
    assert len == n * q + r;
  }

  function Chunk(data: bytes, n: nat, i: nat): bytes
    requires i < n
  {
    ChunkBounds(|data|, n, i);
    data[ChunkStart(|data|, n, i)..ChunkStart(|data|, n, i + 1)]
  }

  function Chunks(data: bytes, n: nat): (out: seq<bytes>)
    requires n > 0
    ensures |out| == n && forall i :: 0 <= i < n ==> out[i] == Chunk(data, n, i)
  {
    seq(n, i requires 0 <= i < n => Chunk(data, n, i))
  }

  lemma {:induction false} ChunksPrefix(data: bytes, n: nat, k: nat)
    requires n > 0 && k <= n
    ensures ChunkStart(|data|, n, k) <= |data|
    ensures Flatten(Chunks(data, n)[..k]) == data[..ChunkStart(|data|, n, k)]
  {
    if k > 0 {
      ChunksPrefix(data, n, k - 1);
      ChunkBounds(|data|, n, k - 1);
      var cs, c := Chunks(data, n), Chunk(data, n, k - 1);
      assert c == data[ChunkStart(|data|, n, k - 1)..ChunkStart(|data|, n, k)];
      hide Flatten, Chunk, ChunkStart;
      assert cs[..k] == cs[..k - 1] + [c];
      FlattenAppend(cs[..k - 1], [c]);
      FlattenOne(c);
    } else {
      assert Chunks(data, n)[..0] == [];
    }
  }

  /** The chunks are the data, cut. */
  lemma ChunksJoin(data: bytes, n: nat)
    requires n > 0
    ensures Flatten(Chunks(data, n)) == data
  {
    ChunksPrefix(data, n, n);
    ChunkBounds(|data|, n, n - 1);
    assert Chunks(data, n)[..n] == Chunks(data, n);
  }

  /** As equal as possible: no chunk is more than an octet longer than another, and none longer than the first. */
  lemma ChunkSizes(data: bytes, n: nat, i: nat, cap: nat)
    requires i < n && |data| <= n * cap
    ensures |Chunk(data, n, i)| <= cap && |data| / n <= |Chunk(data, n, i)| <= |data| / n + 1
    ensures |Chunk(data, n, i)| <= |Chunk(data, n, 0)|
    ensures |data| >= n ==> |Chunk(data, n, i)| >= 1
  {
    ChunkBounds(|data|, n, i);
    ChunkBounds(|data|, n, 0);
    QuotientBounds(|data|, n, cap);
  }

  /** The first chunk is the longest, so that n of its length hold the data. */
  lemma FirstIsLongest(data: bytes, n: nat)
    requires n > 0
    ensures |data| <= |Chunk(data, n, 0)| * n
  {
    ChunkBounds(|data|, n, 0);
    var q, r := |data| / n, |data| % n;
    assert |data| == n * q + r;
    assert (q + 1) * n == q * n + n;
  }

  /** The data in n chunks, none of them longer than cap. */
  ghost predicate Splits(data: bytes, n: nat, cap: nat) {
    n > 0 && forall i :: 0 <= i < n ==> |Chunk(data, n, i)| <= cap
  }

  lemma SplitsExact(data: bytes, n: nat, cap: nat)
    requires n > 0
    ensures Splits(data, n, cap) <==> |data| <= n * cap
    ensures Splits(data, n, cap) <==> |Chunk(data, n, 0)| <= cap
  {
    hide Chunk;
    FirstIsLongest(data, n);
    if |Chunk(data, n, 0)| <= cap {
      TimesOrdered(|Chunk(data, n, 0)|, cap, n);
    }
    if |data| <= n * cap {
      forall i | 0 <= i < n
        ensures |Chunk(data, n, i)| <= cap
      {
        ChunkSizes(data, n, i, cap);
      }
    }
  }

  lemma QuotientBounds(len: nat, n: nat, cap: nat)
    requires n > 0 && len <= n * cap
    ensures len / n <= cap && (len / n == cap ==> len % n == 0) && (len >= n ==> len / n >= 1)
  {
    var q := len / n;
    assert len == n * q + len % n;
    TimesMore(q, cap, n);
    assert q == 0 ==> n * q == 0;
  }

  /** Segment i of n. Only the first asks for return on error. */
  function SegmentWith(node: Node, req: Request, n: nat, i: nat, ref: u32, chunk: bytes): Message
    requires i < n <= MAX_SEGMENTS
  {
    XUDT(ProtocolClass(1, req.returnOnError && i == 0), node.hop, req.called, req.calling, chunk,
         Some(Segmentation(i == 0, req.protocolClass == 1, n - 1 - i, ref)), LimitImportance(req.importance), [])
  }

  function SegmentOf(node: Node, req: Request, n: nat, i: nat, ref: u32): Message
    requires i < n <= MAX_SEGMENTS
  {
    SegmentWith(node, req, n, i, ref, Chunk(req.data, n, i))
  }

  // ----- What goes out -----

  datatype Plan = Whole | Pieces(n: nat) | Unsendable

  /** The greatest size up to hi that fits, 0 when none does. */
  function Largest(limit: int, m: Message, hi: nat): (n: nat)
    requires CarriesData(m)
    ensures n <= hi
  {
    hide FitsAt;
    if hi == 0 || FitsAt(limit, m, hi) then hi else Largest(limit, m, hi - 1)
  }

  lemma {:induction false} LargestExact(limit: int, m: Message, hi: nat)
    requires CarriesData(m)
    ensures var n := Largest(limit, m, hi);
            (n > 0 ==> FitsAt(limit, m, n)) && forall k: nat :: n < k <= hi ==> !FitsAt(limit, m, k)
  {
    hide FitsAt;
    if hi > 0 && !FitsAt(limit, m, hi) {
      LargestExact(limit, m, hi - 1);
    }
  }

  function CapacityOf(node: Node, req: Request): nat {
    Largest(node.maxMessageSize, Probe(node, req), MAX_DATA)
  }

  function Fitting(node: Node, m: Message): bool {
    Marshal(node.maxMessageSize, m).Octets?
  }

  /** User data that is sent in one message without a thought of segments. */
  predicate GoesWhole(node: Node, req: Request) {
    hide Fitting;
    (node.threshold == 0 || |req.data| < node.threshold) && Fitting(node, SingleMessage(node, req))
  }

  /** User data shorter than the threshold goes whole when it fits; longer user data in the fewest segments. */
  function PlanOf(node: Node, req: Request): Plan {
    if GoesWhole(node, req) then Whole
    else Divide(|req.data|, SegmentSize(node, req))
  }

  function SegmentSize(node: Node, req: Request): nat {
    if node.threshold == 0 then CapacityOf(node, req) else Min(CapacityOf(node, req), node.threshold)
  }

  function Divide(len: nat, cap: nat): Plan {
    if cap < 1 then Unsendable else
    var n := (len + cap - 1) / cap;
    if n > MAX_SEGMENTS then Unsendable
    else if n == 1 then Whole
    else Pieces(n)
  }

  lemma CapacityExact(node: Node, req: Request)
    ensures Sizes.Capacity(node.maxMessageSize, Probe(node, req), CapacityOf(node, req))
  {
    var m := Probe(node, req);
    hide FitsAt;
    LargestExact(node.maxMessageSize, m, MAX_DATA);
    forall k: nat | k > MAX_DATA
      ensures !FitsAt(node.maxMessageSize, m, k)
    {
      TooMuchData(node.maxMessageSize, m, k);
    }
  }

  lemma TooMuchData(limit: int, m: Message, k: nat)
    requires CarriesData(m) && k > (if m.LUDTS? then MAX_LONG_DATA else MAX_DATA)
    ensures !FitsAt(limit, m, k)
  {
    hide Marshal;
    if FitsAt(limit, m, k) {
      DataNeeded(limit, WithData(m, Zeros(k)));
    }
  }

  /** A segment of any size up to the capacity encodes within the maximum message size: no segment is refused. */
  lemma SegmentsFit(node: Node, req: Request, n: nat, i: nat, ref: u32)
    requires Refusal(req) == None && PlanOf(node, req) == Pieces(n) && ref <= MAX_LOCAL_REFERENCE
    ensures 2 <= n <= MAX_SEGMENTS && n <= |req.data|
    ensures i < n ==> Fitting(node, SegmentOf(node, req, n, i, ref)) && |Chunk(req.data, n, i)| >= 1
  {
    hide Marshal, Chunk;
    var cap := SegmentSize(node, req);
    PiecesNeeded(|req.data|, cap, n);
    if i < n {
      ChunkSizes(req.data, n, i, cap);
      LargestExact(node.maxMessageSize, Probe(node, req), MAX_DATA);
      var probe := WithData(Probe(node, req), Zeros(CapacityOf(node, req)));
      SegmentFits(node.maxMessageSize, probe, SegmentOf(node, req, n, i, ref));
    }
  }

  lemma PiecesNeeded(len: nat, cap: nat, n: nat)
    requires cap >= 1 && len >= 1 && n == (len + cap - 1) / cap
    ensures 1 <= n <= len && len <= n * cap
  {
    var s := len + cap - 1;
    assert s == n * cap + s % cap;
    assert n >= 1 by {
      assert n == 0 ==> n * cap == 0;
    }
    TimesMore(n, len, cap);
    TimesOrdered(1, cap, len);
  }

  // ----- How many segments -----

  /** Otherwise the number of segments is the least into which the data splits, and there is none up to 16 or it is sent. */
  lemma PlanExact(node: Node, req: Request)
    requires |req.data| > 0
    ensures GoesWhole(node, req) ==> PlanOf(node, req) == Whole
    ensures !GoesWhole(node, req) ==>
              var cap := SegmentSize(node, req);
              match PlanOf(node, req)
              case Whole => Splits(req.data, 1, cap)
              case Pieces(n) => 2 <= n <= MAX_SEGMENTS && Splits(req.data, n, cap) && forall m: nat :: 1 <= m < n ==> !Splits(req.data, m, cap)
              case Unsendable => forall m: nat :: 1 <= m <= MAX_SEGMENTS ==> !Splits(req.data, m, cap)
  {
    hide Fitting, SingleMessage, CapacityOf, Splits;
    var cap := SegmentSize(node, req);
    forall m: nat | 1 <= m
      ensures Splits(req.data, m, cap) <==> |req.data| <= m * cap
    {
      SplitsExact(req.data, m, cap);
    }
    if cap >= 1 {
      var n := (|req.data| + cap - 1) / cap;
      PiecesNeeded(|req.data|, cap, n);
      forall m: nat | 1 <= m < n
        ensures |req.data| > m * cap
      {
        FewerAreTooFew(|req.data|, cap, n, m);
      }
    }
  }

  lemma FewerAreTooFew(len: nat, cap: nat, n: nat, m: nat)
    requires cap >= 1 && len >= 1 && n == (len + cap - 1) / cap && m < n
    ensures len > m * cap
  {
    var s := len + cap - 1;
    assert s == n * cap + s % cap;
    TimesMore(n, m, cap);
  }

  /** The user data goes neither whole nor in up to 16 segments of the size that is allowed. */
  ghost predicate Undividable(node: Node, req: Request) {
    !GoesWhole(node, req) && forall m: nat :: 1 <= m <= MAX_SEGMENTS ==> !Splits(req.data, m, SegmentSize(node, req))
  }

  lemma UnsendableExact(node: Node, req: Request)
    requires |req.data| > 0
    ensures PlanOf(node, req) == Unsendable <==> Undividable(node, req)
  {
    hide GoesWhole, PlanOf, Splits, SegmentSize;
    PlanExact(node, req);
  }

  /** A segment longer than the capacity does not encode within the maximum message size. */
  lemma LongerSegmentFails(node: Node, req: Request, n: nat, i: nat, ref: u32)
    requires Refusal(req) == None && i < n <= MAX_SEGMENTS && |Chunk(req.data, n, i)| > CapacityOf(node, req)
    ensures !Fitting(node, SegmentOf(node, req, n, i, ref))
  {
    hide Chunk, CapacityOf, Fitting, FitsAt, SegmentOf, Probe, Refusal;
    CapacityExact(node, req);
    if Fitting(node, SegmentOf(node, req, n, i, ref)) {
      SegmentAsProbe(node, req, n, i, ref);
    }
  }

  lemma SegmentAsProbe(node: Node, req: Request, n: nat, i: nat, ref: u32)
    requires Refusal(req) == None && i < n <= MAX_SEGMENTS && Fitting(node, SegmentOf(node, req, n, i, ref)) && |Chunk(req.data, n, i)| > 0
    ensures FitsAt(node.maxMessageSize, Probe(node, req), |Chunk(req.data, n, i)|)
  {
    hide Marshal, Chunk, Routable, EncodeAddress;
    var probe := WithData(Probe(node, req), Zeros(|Chunk(req.data, n, i)|));
    SegmentFits(node.maxMessageSize, SegmentOf(node, req, n, i, ref), probe);
  }

  /**
   * Fewer segments than are sent, or 16 and fewer when nothing is sent, would not do: the first of them would be
   * longer than the threshold allows, or would not fit; nor would the one message, unless the threshold forbids it.
   */
  lemma FewestSegments(node: Node, req: Request, m: nat, ref: u32)
    requires Refusal(req) == None && 2 <= m <= MAX_SEGMENTS
    requires PlanOf(node, req) == Unsendable || (PlanOf(node, req).Pieces? && m < PlanOf(node, req).n)
    ensures (node.threshold != 0 && |Chunk(req.data, m, 0)| > node.threshold) || !Fitting(node, SegmentOf(node, req, m, 0, ref))
    ensures (node.threshold != 0 && |req.data| >= node.threshold) || !Fitting(node, SingleMessage(node, req))
  {
    hide Fitting, PlanOf, Refusal, Chunk, CapacityOf, Splits, SegmentOf, SingleMessage;
    NotEmpty(req);
    PlanExact(node, req);
    SplitsExact(req.data, m, SegmentSize(node, req));
    if |Chunk(req.data, m, 0)| > CapacityOf(node, req) {
      LongerSegmentFails(node, req, m, 0, ref);
    }
  }

  lemma NotEmpty(req: Request)
    requires Refusal(req) == None
    ensures |req.data| > 0
  {
  }

  /**
   * User data of the threshold or less that fits one message is meant to go whole. It does exactly when it is shorter
   * than the threshold, or fits a segment as well.
   */
  lemma ThresholdExact(node: Node, req: Request)
    requires Refusal(req) == None && node.threshold != 0 && |req.data| <= node.threshold && Fitting(node, SingleMessage(node, req))
    ensures PlanOf(node, req) == Whole <==> |req.data| < node.threshold || |req.data| <= CapacityOf(node, req)
  {
    hide Fitting, PlanOf, Refusal, CapacityOf, Splits, SingleMessage;
    NotEmpty(req);
    PlanExact(node, req);
    SplitsExact(req.data, 1, SegmentSize(node, req));
  }

  /** What goes whole fits: the single message is refused only when the request is segmented or refused. */
  lemma WholeFits(node: Node, req: Request)
    requires ValidNode(node) && Refusal(req) == None && PlanOf(node, req) == Whole
    ensures Fitting(node, SingleMessage(node, req))
  {
    hide Marshal, Refusal, Probe, CarriesData, SingleMessage, Largest;
    if !GoesWhole(node, req) {
      PiecesNeeded(|req.data|, SegmentSize(node, req), 1);
      LargestExact(node.maxMessageSize, Probe(node, req), MAX_DATA);
      ProbeCovers(node, req, WithData(Probe(node, req), Zeros(CapacityOf(node, req))));
    }
  }

  lemma ProbeCovers(node: Node, req: Request, probe: Message)
    requires ValidNode(node) && Refusal(req) == None && Fitting(node, probe)
    requires probe.XUDT? && probe == WithData(Probe(node, req), probe.data) && |req.data| <= |probe.data|
    ensures Fitting(node, SingleMessage(node, req))
  {
    SingleFrame(node, req, probe);
    hide FrameOf, ShapeOf, Marshal, NoLarger;
    FitsBySize(node.maxMessageSize, SingleMessage(node, req), probe);
  }

  lemma SingleFrame(node: Node, req: Request, probe: Message)
    requires ValidNode(node) && Refusal(req) == None && Fitting(node, probe)
    requires probe.XUDT? && probe == WithData(Probe(node, req), probe.data) && |req.data| <= |probe.data|
    ensures var m := SingleMessage(node, req);
            && FrameOf(m).Some?
            && NoLarger(ShapeOf(TypeOf(m)), FrameOf(m).value, ShapeOf(TypeOf(probe)), FrameOf(probe).value)
  {
    hide EncodeAddress, Wire.Representable, OptionsOf, Wire.OptionsLength, AddressContents, Wire.Render;
    var m := SingleMessage(node, req);
    ExtendedOptions(probe);
    if m.XUDT? {
      ExtendedOptions(m);
    } else {
      NoOptions(m);
    }
  }

  lemma NoOptions(m: Message)
    requires m.UDT?
    ensures OptionsOf(m) == Some([]) && Wire.OptionsLength([]) == 0 && Wire.ValidOptions([])
  {
    assert Collect([]) == Some([]);
    var none: seq<Wire.Param> := [];
    assert none + [] == none;
  }

  /** User data longer than the threshold never goes in one message, even when it would fit. */
  lemma AboveThreshold(node: Node, req: Request)
    requires Refusal(req) == None && node.threshold != 0 && |req.data| > node.threshold
    ensures PlanOf(node, req) != Whole
  {
    hide Fitting, PlanOf, Refusal, CapacityOf, Splits, SingleMessage;
    NotEmpty(req);
    PlanExact(node, req);
    SplitsExact(req.data, 1, SegmentSize(node, req));
  }

  // ----- A threshold that is met exactly -----

  /** A subsystem number and nothing else. */
  function PlainAddress(): PartyAddress { PartyAddress(true, false, false, 0, true, 8, None) }

  function PlainNode(): Node { Node(1, 0, 268, 15, false, 250, 1) }

  /** 250 octets, the threshold of PlainNode. */
  function PlainRequest(): Request { Request(PlainAddress(), PlainAddress(), 0, 0, false, None, Zeros(250), 2) }

  lemma PlainContents()
    ensures ValidAddress(PlainAddress()) && AddressContents(PlainAddress(), false) == AddressContents(PlainAddress(), true) == Some([0x42, 8])
  {
    var a := PlainAddress();
    assert EncodeAddress(a) == Some([Indicator(a)] + PointCodePart(a) + SSNPart(a) + TitlePart(a));
    assert [Indicator(a)] + PointCodePart(a) + SSNPart(a) + TitlePart(a) == [0x42, 8];
  }

  lemma {:induction false} ThreeBlocks(sh: Shape, vs: seq<bytes>)
    requires |vs| == 3 && !sh.longData
    ensures BlocksLength(sh, vs) == |vs[0]| + |vs[1]| + |vs[2]| + 3 && BlocksLength(sh, vs[..2]) == |vs[0]| + |vs[1]| + 2
    ensures BlocksLength(sh, vs[..1]) == |vs[0]| + 1 && BlocksLength(sh, vs[..0]) == 0
  {
    var one, two := vs[..1], vs[..2];
    assert two[..1] == one && one[..0] == vs[..0];
    assert BlocksLength(sh, one) == |vs[0]| + 1;
    assert BlocksLength(sh, two) == BlocksLength(sh, one) + BlockLength(sh, 1, vs[1]);
    assert BlocksLength(sh, vs) == BlocksLength(sh, two) + BlockLength(sh, 2, vs[2]);
  }

  /** The size of the segments: 21 octets and the user data, so that 247 octets are the most for 268. */
  lemma PlainSegment(k: nat)
    requires 1 <= k <= MAX_DATA
    ensures FitsAt(268, Probe(PlainNode(), PlainRequest()), k) <==> k <= 247
  {
    var m := WithData(Probe(PlainNode(), PlainRequest()), Zeros(k));
    PlainSegmentFrame(m);
    PlainSegmentSize(FrameOf(m).value, k);
    hide FrameOf, ShapeOf, Representable, RenderLength;
    if Encodable(m) {
      EncodedSize(m);
    }
  }

  lemma PlainSegmentFrame(m: Message)
    requires m.XUDT? && m == WithData(Probe(PlainNode(), PlainRequest()), m.data) && 1 <= |m.data| <= MAX_DATA
    ensures FrameOf(m).Some?
    ensures var fr := FrameOf(m).value;
            && |fr.fixed| == 2 && fr.variables == [[0x42, 8], [0x42, 8], m.data]
            && ValidOptions(fr.options) && fr.options != [] && OptionsLength(fr.options) == 6
  {
    PlainContents();
    ExtendedOptions(m);
    hide OptionsOf, AddressContents, ValidOptions, OptionsLength;
  }

  lemma PlainSegmentSize(fr: Frame, k: nat)
    requires |fr.fixed| == 2 && |fr.variables| == 3 && |fr.variables[0]| == |fr.variables[1]| == 2 && |fr.variables[2]| == k <= MAX_DATA
    requires ValidOptions(fr.options) && fr.options != [] && OptionsLength(fr.options) == 6
    ensures RenderLength(ShapeOf(TXUDT), fr) == 21 + k && (k <= 247 ==> Representable(ShapeOf(TXUDT), fr))
  {
    hide ValidOptions, OptionsLength;
    ThreeBlocks(ShapeOf(TXUDT), fr.variables);
    assert fr.variables[..3] == fr.variables;
  }

  /** The single message, a UDT, has 262 octets. */
  lemma PlainMessage()
    ensures Fitting(PlainNode(), SingleMessage(PlainNode(), PlainRequest()))
  {
    var m := SingleMessage(PlainNode(), PlainRequest());
    PlainMessageFrame(m);
    PlainMessageSize(FrameOf(m).value);
    hide FrameOf, ShapeOf, Representable, RenderLength;
    EncodedSize(m);
  }

  lemma PlainMessageFrame(m: Message)
    requires m == UDT(ProtocolClass(0, false), PlainAddress(), PlainAddress(), Zeros(250))
    ensures FrameOf(m).Some?
    ensures var fr := FrameOf(m).value; |fr.fixed| == 1 && fr.variables == [[0x42, 8], [0x42, 8], m.data] && fr.options == []
  {
    PlainContents();
    NoOptions(m);
    hide OptionsOf, AddressContents;
  }

  lemma PlainMessageSize(fr: Frame)
    requires |fr.fixed| == 1 && |fr.variables| == 3 && |fr.variables[0]| == |fr.variables[1]| == 2 && |fr.variables[2]| == 250
    requires fr.options == []
    ensures RenderLength(ShapeOf(TUDT), fr) == 262 && Representable(ShapeOf(TUDT), fr)
  {
    ThreeBlocks(ShapeOf(TUDT), fr.variables);
  }

  /** It is not quite so: 250 octets that fit a UDT of 262 go in two segments when the threshold is 250. */
  lemma ThresholdMissed()
    ensures var node, req := PlainNode(), PlainRequest();
            && ValidNode(node) && Refusal(req) == None && |req.data| <= node.threshold
            && Fitting(node, SingleMessage(node, req)) && PlanOf(node, req) == Pieces(2)
  {
    hide FitsAt, Fitting, SingleMessage, Probe, Refusal, GoesWhole, CapacityOf, Splits;
    var node, req := PlainNode(), PlainRequest();
    PlainMessage();
    PlainRequestValid();
    ThresholdExact(node, req);
    PlainCapacity();
    PlanExact(node, req);
    SplitsExact(req.data, 2, SegmentSize(node, req));
  }

  lemma PlainRequestValid()
    ensures Refusal(PlainRequest()) == None
  {
    PlainContents();
    hide EncodeAddress;
  }

  lemma PlainCapacity()
    ensures CapacityOf(PlainNode(), PlainRequest()) == 247
  {
    hide FitsAt, Probe;
    LargestExact(268, Probe(PlainNode(), PlainRequest()), MAX_DATA);
    PlainSegment(247);
    var n := CapacityOf(PlainNode(), PlainRequest());
    if n > 247 {
      PlainSegment(n);
    }
  }

  // ----- The procedures -----

  method SplitSegments(data: bytes, n: nat) returns (out: seq<bytes>)
    requires n > 0
    ensures out == Chunks(data, n)
  {
    var q, r := |data| / n, |data| % n;
    var off, i := 0, 0;
    out := [];
    while i < n
      invariant i <= n && off == ChunkStart(|data|, n, i) && |out| == i
      invariant forall k :: 0 <= k < i ==> out[k] == Chunk(data, n, k)
    {
      ChunkBounds(|data|, n, i);
      var size := q;
      if i < r {
        size := size + 1;
      }
      out := out + [data[off..off + size]];
      off := off + size;
      i := i + 1;
    }
  }

  /** The greatest length of user data that a segment of the request can carry, by binary search. */
  method SegmentCapacity(node: Node, req: Request) returns (n: nat)
    ensures n == CapacityOf(node, req)
  {
    hide FitsAt;
    var limit, probe := node.maxMessageSize, Probe(node, req);
    CapacityExact(node, req);
    var lo: nat, hi: nat := 0, MAX_DATA;
    while lo < hi
      invariant lo <= CapacityOf(node, req) <= hi
      decreases hi - lo
    {
      var mid := (lo + hi + 1) / 2;
      if FitsAt(limit, probe, mid) {
        lo := mid;
      } else {
        NotAbove(limit, probe, CapacityOf(node, req), mid);
        hi := mid - 1;
      }
    }
    n := lo;
  }

  /** A length that does not fit is above the capacity. */
  lemma NotAbove(limit: int, m: Message, cap: nat, k: nat)
    requires CarriesData(m) && Sizes.Capacity(limit, m, cap) && k > 0 && !FitsAt(limit, m, k)
    ensures cap < k
  {
    hide FitsAt;
    if k <= cap {
      FitsDownward(limit, m, cap, k);
    }
  }

  /** Class 1 keeps the signalling link of its sequence control; class 0 takes the next in rotation. */
  function LinkSelection(nextSLS: byte, protocolClass: byte, sequence: byte): byte {
    if protocolClass == 1 then sequence % 16 else nextSLS
  }

  function LabelOf(node: Node, req: Request, sls: byte): RoutingLabel
    requires Refusal(req) == None
  {
    RoutingLabel(node.pointCode, Destination(req).value, sls, node.ni)
  }

  /**
   * One request as the network sees it: every message goes from this node to the DPC of the request, or else to the
   * point code of the called address, on the link of the sequence control or the next in rotation; and what the
   * rotation is afterwards. A request that cannot be segmented uses up its turn in the rotation.
   */
  predicate Sends(node: Node, req: Request, link: byte, r: Sent, linkAfter: byte) {
    if Refusal(req).Some? then r == Failed(Refusal(req).value) && linkAfter == link
    else
      && linkAfter == (if req.protocolClass == 1 then link else (link + 1) % 16)
      && (r.Transfers? ==> |r.transfers| >= 1)
      && (r.Transfers? ==> forall t :: t in r.transfers ==>
            && t.routing.opc == node.pointCode && t.routing.ni == node.ni
            && t.routing.dpc == (if req.dpc != 0 then req.dpc else req.called.pointCode as int)
            && t.routing.sls == (if req.protocolClass == 1 then req.sequence % 16 else link))
  }

  /** A request is refused for what it asks, never for its size, except above 3952 octets of user data. */
  lemma RefusalExact(req: Request)
    ensures Refusal(req) == None <==>
            && req.protocolClass <= 1 && 1 <= |req.data| <= 3952
            && ValidAddress(req.called)
            && (req.called.routeOnSSN ==> req.called.hasSSN && req.called.ssn != 0)
            && (!req.called.routeOnSSN ==> req.called.globalTitle.Some?)
            && ValidAddress(req.calling)
            && (req.calling.routeOnSSN ==> req.calling.hasPointCode || req.calling.hasSSN || req.calling.globalTitle.Some?)
            && (req.importance.Some? ==> req.importance.value <= 7)
            && (if req.dpc != 0 then req.dpc <= 0x3fff else req.called.hasPointCode)
    ensures Refusal(req) == Some(SegmentationFailed) <==> req.protocolClass <= 1 && |req.data| > 3952
  {
    hide TitlePart, ValidTitle, Indicator;
  }

  /** Every message goes to the same place, as the octets of its encoding within the maximum message size. */
  predicate Sendable(node: Node, routing: RoutingLabel, ts: seq<Transfer>) {
    forall t :: t in ts ==> t.routing == routing && Marshal(node.maxMessageSize, t.message) == Octets(t.octets)
  }

  class Originator {
    const node: Node
    var nextSLS: byte
    const references: References.SegmentationReferences

    ghost predicate Valid()
      reads this, references
    {
      ValidNode(node) && nextSLS < 16 && references.Valid()
    }

    ghost function Pool(): References.Pool
      reads references
    {
      References.Pool(references.next, references.order)
    }

    constructor (node: Node)
      requires ValidNode(node)
      ensures Valid() && this.node == node && nextSLS == 0
    {
      this.node, nextSLS := node, 0;
      references := new References.SegmentationReferences();
    }

    /** An N-UNITDATA request. A segment is never refused once the number of segments is decided. */
    method Unitdata(now: nat, req: Request) returns (r: Sent)
      requires Valid()
      modifies this, references
      ensures Valid()
      ensures Refusal(req).Some? ==> r == Failed(Refusal(req).value) && nextSLS == old(nextSLS) && Pool() == old(Pool())
      ensures Refusal(req) == None ==>
                (r.Failed? <==> Undividable(node, req) || (PlanOf(node, req).Pieces? && References.AllFrozen(old(Pool()), now)))
      ensures Sends(node, req, old(nextSLS), r, nextSLS)
      ensures Refusal(req) == None && r.Transfers? ==> forall t :: t in r.transfers ==>
                && t.routing.opc == node.pointCode && t.routing.ni == node.ni
                && t.routing.dpc == (if req.dpc != 0 then req.dpc else req.called.pointCode as int)
                && t.routing.sls == (if req.protocolClass == 1 then req.sequence % 16 else old(nextSLS))
      ensures Refusal(req) == None ==>
                && nextSLS == (if req.protocolClass == 1 then old(nextSLS) else (old(nextSLS) + 1) % 16)
                && Answers(node, req, LabelOf(node, req, LinkSelection(old(nextSLS), req.protocolClass, req.sequence)), now, old(Pool()), r, Pool())
    {
      hide Answers, Sends, Refusal, LabelOf, LinkSelection, Undividable, PlanOf, References.AllFrozen;
      r := Originate(now, req);
      if Refusal(req).Some? {
        RefusedSends(node, req, nextSLS);
      } else {
        AnswersSend(node, req, old(nextSLS), nextSLS, now, old(Pool()), r, Pool());
        SentLabels(node, req, old(nextSLS), r, nextSLS);
      }
    }

    /** The decisions of a request in their order. */
    method Originate(now: nat, req: Request) returns (r: Sent)
      requires Valid()
      modifies this, references
      ensures Valid()
      ensures Refusal(req).Some? ==> r == Failed(Refusal(req).value) && nextSLS == old(nextSLS) && Pool() == old(Pool())
      ensures Refusal(req) == None ==>
                (r.Failed? <==> Undividable(node, req) || (PlanOf(node, req).Pieces? && References.AllFrozen(old(Pool()), now)))
      ensures Refusal(req) == None ==>
                && nextSLS == (if req.protocolClass == 1 then old(nextSLS) else (old(nextSLS) + 1) % 16)
                && Answers(node, req, LabelOf(node, req, LinkSelection(old(nextSLS), req.protocolClass, req.sequence)), now, old(Pool()), r, Pool())
    {
      hide Fitting, LabelOf, Sendable, Refusal, References.Allocated, References.AllFrozen, References.ValidPool, PlanOf, LinkSelection, SingleMessage, Undividable;
      var refusal := Refusal(req);
      if refusal.Some? {
        return Failed(refusal.value);
      }
      var routing := LabelOf(node, req, LinkSelection(nextSLS, req.protocolClass, req.sequence));
      if req.protocolClass != 1 {
        nextSLS := (nextSLS + 1) % 16;
      }
      var plan := DecidePlan(node, req);
      NotEmpty(req);
      UnsendableExact(node, req);
      match plan {
        case Whole =>
          WholeFits(node, req);
          r := Transfers([Sending(node, routing, SingleMessage(node, req))]);
          OneSendable(node, routing, SingleMessage(node, req));
        case Unsendable =>
          r := Failed(SegmentationFailed);
        case Pieces(n) =>
          PoolKept();
          References.AllocatedExact(Pool(), now, node.freeze);
          var ref := references.Allocate(now, node.freeze);
          if ref == None {
            return Failed(SegmentationFailed);
          }
          var ts := SendSegments(node, routing, req, n, ref.value);
          r := Transfers(ts);
      }
    }

    lemma PoolKept()
      requires Valid()
      ensures References.ValidPool(Pool())
    {
    }
  }

  function Sending(node: Node, routing: RoutingLabel, m: Message): Transfer
    requires Fitting(node, m)
  {
    Transfer(routing, m, Marshal(node.maxMessageSize, m).octets)
  }

  lemma OneSendable(node: Node, routing: RoutingLabel, m: Message)
    requires Fitting(node, m)
    ensures Sendable(node, routing, [Sending(node, routing, m)])
  {
    hide Marshal;
  }

  /** What a request that is not refused comes to. */
  ghost predicate Answers(node: Node, req: Request, routing: RoutingLabel, now: nat, before: References.Pool, r: Sent, after: References.Pool)
  {
    && (r.Transfers? ==> Sendable(node, routing, r.transfers))
    && match PlanOf(node, req)
       case Whole => after == before && r.Transfers? && |r.transfers| == 1 && r.transfers[0].message == SingleMessage(node, req)
       case Unsendable => after == before && r == Failed(SegmentationFailed)
       case Pieces(n) =>
         && References.ValidPool(before)
         && var (pool, ref) := References.Allocated(before, now, node.freeze);
         && after == pool
         && if ref == None then r == Failed(SegmentationFailed)
            else 2 <= n <= MAX_SEGMENTS && ref.value <= MAX_LOCAL_REFERENCE && r.Transfers? && SegmentsSent(node, req, n, ref.value, r.transfers)
  }

  lemma AnswersSend(node: Node, req: Request, link: byte, linkAfter: byte, now: nat, before: References.Pool, r: Sent, after: References.Pool)
    requires Refusal(req) == None && linkAfter == (if req.protocolClass == 1 then link else (link + 1) % 16)
    requires Answers(node, req, LabelOf(node, req, LinkSelection(link, req.protocolClass, req.sequence)), now, before, r, after)
    ensures Sends(node, req, link, r, linkAfter)
  {
    hide Marshal, Routable, EncodeAddress, PlanOf, References.Allocated, References.ValidPool, SingleMessage, SegmentOf;
  }

  lemma SentLabels(node: Node, req: Request, link: byte, r: Sent, linkAfter: byte)
    requires Refusal(req) == None && Sends(node, req, link, r, linkAfter)
    ensures r.Transfers? ==> forall t :: t in r.transfers ==>
              && t.routing.opc == node.pointCode && t.routing.ni == node.ni
              && t.routing.dpc == (if req.dpc != 0 then req.dpc else req.called.pointCode as int)
              && t.routing.sls == (if req.protocolClass == 1 then req.sequence % 16 else link)
  {
    hide Refusal;
  }

  lemma RefusedSends(node: Node, req: Request, link: byte)
    requires Refusal(req).Some?
    ensures Sends(node, req, link, Failed(Refusal(req).value), link)
  {
    hide Refusal;
  }

  predicate SegmentsSent(node: Node, req: Request, n: nat, ref: u32, ts: seq<Transfer>)
    requires n <= MAX_SEGMENTS
  {
    |ts| == n && forall i :: 0 <= i < n ==> ts[i].message == SegmentOf(node, req, n, i, ref)
  }

  method DecidePlan(node: Node, req: Request) returns (plan: Plan)
    ensures plan == PlanOf(node, req)
  {
    hide Fitting, SingleMessage, CapacityOf;
    if (node.threshold == 0 || |req.data| < node.threshold) && Fitting(node, SingleMessage(node, req)) {
      return Whole;
    }
    var capacity := SegmentCapacity(node, req);
    if node.threshold != 0 {
      capacity := Min(capacity, node.threshold);
    }
    if capacity < 1 {
      return Unsendable;
    }
    var n := (|req.data| + capacity - 1) / capacity;
    if n > MAX_SEGMENTS {
      return Unsendable;
    }
    plan := if n == 1 then Whole else Pieces(n);
  }

  method SendSegments(node: Node, routing: RoutingLabel, req: Request, n: nat, ref: nat) returns (ts: seq<Transfer>)
    requires Refusal(req) == None && PlanOf(node, req) == Pieces(n) && ref < References.SEGMENTATION_REFERENCES
    ensures 2 <= n <= MAX_SEGMENTS && Sendable(node, routing, ts) && SegmentsSent(node, req, n, ref, ts)
  {
    hide Fitting, PlanOf, Refusal, Marshal, SegmentWith, Chunk, Sendable;
    SegmentsFit(node, req, n, 0, ref);
    var chunks := SplitSegments(req.data, n);
    ts := [];
    NoneSendable(node, routing);
    var i := 0;
    while i < n
      invariant i <= n && |ts| == i && Sendable(node, routing, ts)
      invariant forall k :: 0 <= k < i ==> ts[k].message == SegmentOf(node, req, n, k, ref)
    {
      var m := SegmentWith(node, req, n, i, ref, chunks[i]);
      SegmentsFit(node, req, n, i, ref);
      MoreSendable(node, routing, ts, m);
      ts := ts + [Sending(node, routing, m)];
      i := i + 1;
    }
  }

  lemma NoneSendable(node: Node, routing: RoutingLabel)
    ensures Sendable(node, routing, [])
  {
  }

  lemma MoreSendable(node: Node, routing: RoutingLabel, ts: seq<Transfer>, m: Message)
    requires Fitting(node, m) && Sendable(node, routing, ts)
    ensures Sendable(node, routing, ts + [Sending(node, routing, m)])
  {
    hide Marshal;
  }
}
