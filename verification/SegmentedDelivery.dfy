/**
 * Segmentation and reassembly are inverse: the segments of an accepted request, encoded, carried in order and decoded,
 * come out of an idle reassembly as one indication of what was asked for.
 */
module SegmentedDelivery {
  import opened Basics
  import opened Fields
  import opened Address
  import opened Messages
  import opened Codec
  import opened Segmenting
  import References
  import opened Reassembly
  import opened ReassemblyRuns
  import opened ReassemblyKeys
  import opened Connectionless

  /** What segment i is to the receiver. */
  function Arriving(node: Node, req: Request, n: nat, ref: u32, routing: RoutingLabel, i: nat): Unitdata
    requires i < n <= MAX_SEGMENTS
  {
    UnitdataOf(routing, SegmentOf(node, req, n, i, ref))
  }

  function Arrivals(node: Node, req: Request, n: nat, ref: u32, routing: RoutingLabel): (us: seq<Unitdata>)
    requires n <= MAX_SEGMENTS
    ensures |us| == n && forall i :: 0 <= i < n ==> us[i] == Arriving(node, req, n, ref, routing, i)
  {
    seq(n, i requires 0 <= i < n => Arriving(node, req, n, ref, routing, i))
  }

  /** The indication that the request is for. */
  function Requested(req: Request, typ: MsgType, n: nat, routing: RoutingLabel): Indication {
    Indication(routing, typ, req.called, req.calling, req.protocolClass, req.returnOnError,
               LimitImportance(req.importance), req.data, n)
  }

  lemma {:induction false} DataOf(node: Node, req: Request, n: nat, ref: u32, routing: RoutingLabel, k: nat)
    requires 0 < n <= MAX_SEGMENTS && k <= n
    ensures ChunkStart(|req.data|, n, k) <= |req.data|
    ensures Data(Arrivals(node, req, n, ref, routing)[..k]) == req.data[..ChunkStart(|req.data|, n, k)]
    ensures AnyReturn(Arrivals(node, req, n, ref, routing)[..k]) == (k > 0 && req.returnOnError)
  {
    hide Data, AnyReturn, Arriving, ChunkStart, Chunk;
    var us := Arrivals(node, req, n, ref, routing);
    if k == 0 {
      assert us[..0] == [];
      NoData();
      ChunkBounds(|req.data|, n, 0);
    } else {
      DataOf(node, req, n, ref, routing, k - 1);
      ArrivingData(node, req, n, ref, routing, k - 1);
      assert us[..k] == us[..k - 1] + [us[k - 1]];
      DataPush(us[..k - 1], us[k - 1]);
    }
  }

  lemma NoData()
    ensures Data([]) == [] && !AnyReturn([])
  {
  }

  lemma ArrivingData(node: Node, req: Request, n: nat, ref: u32, routing: RoutingLabel, i: nat)
    requires i < n <= MAX_SEGMENTS
    ensures ChunkStart(|req.data|, n, i) <= ChunkStart(|req.data|, n, i + 1) <= |req.data|
    ensures var u := Arriving(node, req, n, ref, routing, i);
            && u.data == req.data[ChunkStart(|req.data|, n, i)..ChunkStart(|req.data|, n, i + 1)]
            && u.protocolClass.returnOnError == (i == 0 && req.returnOnError)
  {
    ChunkBounds(|req.data|, n, i);
    hide ChunkStart;
  }

  /** A request that is segmented, and its segmentation reference. */
  predicate Accepted(node: Node, req: Request, n: nat, ref: u32) {
    Refusal(req) == None && PlanOf(node, req) == Pieces(n) && 2 <= n <= MAX_SEGMENTS && ref <= MAX_LOCAL_REFERENCE
  }

  lemma AcceptedCount(node: Node, req: Request, n: nat, ref: u32)
    requires Accepted(node, req, n, ref)
    ensures 2 <= n <= MAX_SEGMENTS
  {
    hide PlanOf, Refusal;
  }

  function KeyFor(req: Request, ref: u32, routing: RoutingLabel): Key {
    Key(routing, if EncodeAddress(req.calling).Some? then EncodeAddress(req.calling).value else [], ref)
  }

  lemma ArrivalFacts(node: Node, req: Request, n: nat, ref: u32, routing: RoutingLabel, i: nat)
    requires Accepted(node, req, n, ref) && i < n
    ensures var u := Arriving(node, req, n, ref, routing, i);
            && IsSegment(u) && Seg(u) == Segmentation(i == 0, req.protocolClass == 1, n - 1 - i, ref)
            && KeyOf(u) == Some(KeyFor(req, ref, routing)) && u.data == Chunk(req.data, n, i)
            && u.routing == routing && u.typ == TXUDT && u.called == req.called && u.calling == req.calling
            && u.importance == LimitImportance(req.importance)
    ensures |req.data| <= MAX_LONG_DATA && req.protocolClass <= 1
  {
    hide PlanOf, Chunk, EncodeAddress, LimitImportance, Routable;
    SegmentsFit(node, req, n, i, ref);
  }

  lemma ArrivalsInSequence(node: Node, req: Request, n: nat, ref: u32, routing: RoutingLabel)
    requires Accepted(node, req, n, ref)
    ensures var us := Arrivals(node, req, n, ref, routing);
            && InSequence(us) && Announced(us) == n && Data(us) == req.data && AnyReturn(us) == req.returnOnError
  {
    hide Accepted, Data, AnyReturn, ChunkStart, Chunk, Arriving, KeyOf, IsSegment;
    AcceptedCount(node, req, n, ref);
    var us := Arrivals(node, req, n, ref, routing);
    DataOf(node, req, n, ref, routing, n);
    ChunkBounds(|req.data|, n, n - 1);
    assert us[..n] == us;
    FirstIsLongest(req.data, n);
    forall i | 0 <= i < n
      ensures Placed(us[i], n, i)
    {
      ArrivalFacts(node, req, n, ref, routing, i);
    }
    ArrivalFacts(node, req, n, ref, routing, 0);
    PlacedInSequence(us, n);
  }

  predicate Placed(u: Unitdata, n: nat, i: nat) {
    IsSegment(u) && Seg(u).first == (i == 0) && Seg(u).remaining as int == n - 1 - i
  }

  lemma PlacedInSequence(us: seq<Unitdata>, n: nat)
    requires |us| == n >= 2 && forall i :: 0 <= i < n ==> Placed(us[i], n, i)
    requires |Data(us)| <= |us[0].data| * n && |Data(us)| <= MAX_LONG_DATA
    ensures us[0].segmentation.Some? && InSequence(us) && Announced(us) == n
  {
    hide Data;
    assert Placed(us[0], n, 0);
    assert forall i :: 0 <= i < n ==> Placed(us[i], n, i) && IsSegment(us[i]);
  }

  lemma Segments(u: Unitdata)
    requires IsSegment(u)
    ensures u.segmentation.Some?
  {
  }

  /** The segments of a request are the whole of one message, which says what was requested. */
  lemma ArrivalsWhole(node: Node, req: Request, n: nat, ref: u32, routing: RoutingLabel)
    requires Accepted(node, req, n, ref)
    ensures var us := Arrivals(node, req, n, ref, routing);
            && WholeMessage(us, KeyFor(req, ref, routing)) && Data(us) == req.data
            && IndicationOf(us) == Requested(req, TXUDT, n, routing)
  {
    hide Accepted, Data, AnyReturn, Arriving, InSequence, KeyOf, Chunk, IsSegment;
    AcceptedCount(node, req, n, ref);
    var us := Arrivals(node, req, n, ref, routing);
    ArrivalsInSequence(node, req, n, ref, routing);
    forall i | 0 <= i < n
      ensures us[i].segmentation.Some? && KeyOf(us[i]) == Some(KeyFor(req, ref, routing))
    {
      ArrivalFacts(node, req, n, ref, routing, i);
      Segments(us[i]);
    }
    ArrivalFacts(node, req, n, ref, routing, 0);
  }

  /** The receiver takes the octets of each transfer in turn. */
  ghost function HandleAll(cfg: Config, t: Table, ts: seq<Transfer>, nows: seq<nat>, local: bool, subsystems: map<byte, bool>, i: nat)
    : (Table, seq<Out>)
    requires |nows| == |ts| && i <= |ts|
    decreases |ts| - i
  {
    if i == |ts| || !ValidTable(t) then (t, []) else
    match ParseMessage(ts[i].octets)
    case Rejected(_) => (t, [])
    case Decoded(m) =>
      if !(m.UDT? || m.XUDT? || m.LUDT?) then (t, []) else
      var (t1, outs) := Handle(cfg, t, nows[i], UnitdataOf(ts[i].routing, m), local, subsystems);
      var (t2, more) := HandleAll(cfg, t1, ts, nows, local, subsystems, i + 1);
      (t2, outs + more)
  }

  /** The receiving node delivers what is sent to the called address, to a subsystem that can receive. */
  predicate Reaches(node: Node, req: Request, local: bool, subsystems: map<byte, bool>) {
    var verdict := Route(req.called, node.hop, true, local);
    verdict.Deliver? && SubsystemCause(subsystems, verdict.ssn) == None
  }

  /** Each transfer is decoded to its message and goes to reassembly. */
  lemma TransferArrives(cfg: Config, t: Table, node: Node, req: Request, n: nat, ref: u32, routing: RoutingLabel,
                        ts: seq<Transfer>, now: nat, local: bool, subsystems: map<byte, bool>, i: nat)
    requires Accepted(node, req, n, ref) && Sendable(node, routing, ts) && SegmentsSent(node, req, n, ref, ts)
    requires Reaches(node, req, local, subsystems) && i < n && ValidTable(t)
    ensures ts[i].routing == routing && ParseMessage(ts[i].octets) == Decoded(SegmentOf(node, req, n, i, ref))
    ensures SegmentOf(node, req, n, i, ref).XUDT?
    ensures Arriving(node, req, n, ref, routing, i) == UnitdataOf(routing, SegmentOf(node, req, n, i, ref))
    ensures var u := Arriving(node, req, n, ref, routing, i);
            IsSegment(u) && Handle(cfg, t, now, u, local, subsystems) == Receive(cfg, t, now, u, None)
  {
    hide Marshal, ParseMessage, Receive, ValidTable, PlanOf, Refusal, Route, Chunk, SubsystemCause;
    assert ts[i] in ts;
    CodecRoundTrip(node.maxMessageSize, ts[i].message);
    SegmentsFit(node, req, n, i, ref);
  }

  lemma {:induction false} HandledIsFed(cfg: Config, t: Table, node: Node, req: Request, n: nat, ref: u32, routing: RoutingLabel,
                     ts: seq<Transfer>, nows: seq<nat>, local: bool, subsystems: map<byte, bool>, i: nat)
    requires Accepted(node, req, n, ref) && Sendable(node, routing, ts) && SegmentsSent(node, req, n, ref, ts)
    requires Reaches(node, req, local, subsystems) && i <= n && |nows| == n
    requires forall u :: u in Arrivals(node, req, n, ref, routing) ==> u.segmentation.Some?
    ensures HandleAll(cfg, t, ts, nows, local, subsystems, i) == Feed(cfg, t, Arrivals(node, req, n, ref, routing), nows, i)
    decreases n - i
  {
    hide ParseMessage, Receive, Handle, ValidTable, Accepted, Reaches, Sendable, Arriving, SegmentOf, HandleAll, Feed, UnitdataOf, SegmentsSent;
    AcceptedCount(node, req, n, ref);
    var us := Arrivals(node, req, n, ref, routing);
    SentLength(node, req, n, ref, ts);
    if i < n && ValidTable(t) {
      assert us[i] in us;
      TransferArrives(cfg, t, node, req, n, ref, routing, ts, nows[i], local, subsystems, i);
      HandleStep(cfg, t, ts, nows, local, subsystems, i, SegmentOf(node, req, n, i, ref), us[i]);
      FeedStep(cfg, t, us, nows, i);
      HandledIsFed(cfg, Receive(cfg, t, nows[i], us[i], None).0, node, req, n, ref, routing, ts, nows, local, subsystems, i + 1);
    } else {
      Nothing(cfg, t, ts, us, nows, local, subsystems, i);
    }
  }

  lemma SentLength(node: Node, req: Request, n: nat, ref: u32, ts: seq<Transfer>)
    requires n <= MAX_SEGMENTS && SegmentsSent(node, req, n, ref, ts)
    ensures |ts| == n
  {
    hide SegmentOf;
  }

  lemma HandleStep(cfg: Config, t: Table, ts: seq<Transfer>, nows: seq<nat>, local: bool, subsystems: map<byte, bool>, i: nat,
                   m: Message, u: Unitdata)
    requires |nows| == |ts| && i < |ts| && ValidTable(t) && ParseMessage(ts[i].octets) == Decoded(m) && (m.UDT? || m.XUDT?)
    requires UnitdataOf(ts[i].routing, m) == u
    ensures var (t1, outs) := Handle(cfg, t, nows[i], u, local, subsystems);
            var (t2, more) := HandleAll(cfg, t1, ts, nows, local, subsystems, i + 1);
            HandleAll(cfg, t, ts, nows, local, subsystems, i) == (t2, outs + more)
  {
    hide ParseMessage, Handle, ValidTable;
  }

  lemma FeedStep(cfg: Config, t: Table, us: seq<Unitdata>, nows: seq<nat>, i: nat)
    requires |nows| == |us| && i < |us| && ValidTable(t) && forall u :: u in us ==> u.segmentation.Some?
    ensures us[i] in us
    ensures var (t1, outs) := Receive(cfg, t, nows[i], us[i], None);
            var (t2, more) := Feed(cfg, t1, us, nows, i + 1);
            Feed(cfg, t, us, nows, i) == (t2, outs + more)
  {
    hide Receive, ValidTable;
  }

  lemma Nothing(cfg: Config, t: Table, ts: seq<Transfer>, us: seq<Unitdata>, nows: seq<nat>, local: bool, subsystems: map<byte, bool>, i: nat)
    requires |nows| == |ts| == |us| && i <= |ts| && (i == |ts| || !ValidTable(t)) && forall u :: u in us ==> u.segmentation.Some?
    ensures HandleAll(cfg, t, ts, nows, local, subsystems, i) == Feed(cfg, t, us, nows, i)
  {
  }

  /**
   * The transfers of a segmented request, handled in order by a node to whose subsystem they are routed, while the
   * key is idle and there is room: nothing comes of any but the last, which delivers the message that was
   * requested, once, in n segments. Reassembly is then as it was.
   */
  lemma SegmentedIsDelivered(cfg: Config, t: Table, node: Node, req: Request, n: nat, ref: u32, routing: RoutingLabel,
                             ts: seq<Transfer>, nows: seq<nat>, local: bool, subsystems: map<byte, bool>)
    requires Accepted(node, req, n, ref) && Sendable(node, routing, ts) && SegmentsSent(node, req, n, ref, ts) && |nows| == n
    requires Reaches(node, req, local, subsystems)
    requires ValidTable(t) && HasRoomFor(cfg, t, KeyFor(req, ref, routing), |req.data|)
    ensures HandleAll(cfg, t, ts, nows, local, subsystems, 0) == (t, [Delivered(Requested(req, TXUDT, n, routing))])
  {
    hide Accepted, Reaches, Sendable, WholeMessage, HasRoomFor, ValidTable, HandleAll, Feed, IndicationOf, Data, SegmentsSent, KeyFor;
    AcceptedCount(node, req, n, ref);
    ArrivalsWhole(node, req, n, ref, routing);
    FedInOrderIsDelivered(cfg, t, KeyFor(req, ref, routing), Arrivals(node, req, n, ref, routing), nows);
    HandledIsFed(cfg, t, node, req, n, ref, routing, ts, nows, local, subsystems, 0);
  }

  lemma HandledAll(cfg: Config, t: Table, ts: seq<Transfer>, nows: seq<nat>, local: bool, subsystems: map<byte, bool>)
    requires |nows| == |ts|
    ensures HandleAll(cfg, t, ts, nows, local, subsystems, |ts|) == (t, [])
  {
  }

  /** A request that goes whole is delivered as it is. */
  lemma WholeIsDelivered(cfg: Config, t: Table, node: Node, req: Request, routing: RoutingLabel, ts: seq<Transfer>, nows: seq<nat>,
                         local: bool, subsystems: map<byte, bool>)
    requires Refusal(req) == None && |ts| == |nows| == 1 && Sendable(node, routing, ts) && ts[0].message == SingleMessage(node, req)
    requires Reaches(node, req, local, subsystems) && ValidTable(t)
    ensures HandleAll(cfg, t, ts, nows, local, subsystems, 0)
            == (t, [Delivered(Requested(req, TypeOf(SingleMessage(node, req)), 1, routing))])
  {
    hide Marshal, ParseMessage, Receive, ValidTable, HandleAll;
    var m := SingleMessage(node, req);
    assert ts[0] in ts;
    CodecRoundTrip(node.maxMessageSize, m);
    HandleStep(cfg, t, ts, nows, local, subsystems, 0, m, UnitdataOf(routing, m));
    HandledAll(cfg, t, ts, nows, local, subsystems);
    var delivered: seq<Out> := [Delivered(Requested(req, TypeOf(m), 1, routing))];
    assert Handle(cfg, t, nows[0], UnitdataOf(routing, m), local, subsystems) == (t, delivered);
    assert delivered + [] == delivered;
  }

  /** The segmentation reference that transfers carry; 0 for a message that goes whole. */
  function ReferenceOf(ts: seq<Transfer>): u32 {
    if |ts| > 0 && ts[0].message.XUDT? && ts[0].message.segmentation.Some? then ts[0].message.segmentation.value.reference else 0
  }

  /**
   * Whatever is sent for a request, one message or up to 16 segments, carried in order to a node to whose subsystem it
   * is routed, comes out as one indication: the data, addresses, class and return option asked for, and the number of
   * messages it took. Segments need an idle key and room; the receiver is then as it was.
   */
  lemma RequestIsDelivered(cfg: Config, t: Table, node: Node, req: Request, routing: RoutingLabel, now: nat, before: References.Pool,
                           r: Sent, after: References.Pool, nows: seq<nat>, local: bool, subsystems: map<byte, bool>)
    requires Refusal(req) == None && Answers(node, req, routing, now, before, r, after) && r.Transfers? && |nows| == |r.transfers|
    requires Reaches(node, req, local, subsystems) && ValidTable(t)
    requires |r.transfers| > 1 ==> HasRoomFor(cfg, t, KeyFor(req, ReferenceOf(r.transfers), routing), |req.data|)
    ensures |r.transfers| > 0
    ensures HandleAll(cfg, t, r.transfers, nows, local, subsystems, 0)
            == (t, [Delivered(Requested(req, TypeOf(r.transfers[0].message), |r.transfers|, routing))])
  {
    hide Reaches, Sendable, HasRoomFor, ValidTable, HandleAll, KeyFor, PlanOf, Refusal, SingleMessage, References.Allocated, References.ValidPool;
    match PlanOf(node, req) {
      case Whole => WholeIsDelivered(cfg, t, node, req, routing, r.transfers, nows, local, subsystems);
      case Pieces(n) =>
        var ref := References.Allocated(before, now, node.freeze).1.value;
        FirstSegment(node, req, n, ref, r.transfers);
        SegmentedIsDelivered(cfg, t, node, req, n, ref, routing, r.transfers, nows, local, subsystems);
    }
  }

  lemma FirstSegment(node: Node, req: Request, n: nat, ref: u32, ts: seq<Transfer>)
    requires 2 <= n <= MAX_SEGMENTS && SegmentsSent(node, req, n, ref, ts)
    ensures ts[0].message.XUDT? && ReferenceOf(ts) == ref
  {
    hide Chunk;
  }
}
