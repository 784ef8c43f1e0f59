/**
 * Reassembly of segmented connectionless messages, unitdata.go 616-894, as a machine over values: what one segment
 * or one timeout does to the entry of its key, and from that what it does to the table of entries.
 *
 * A live entry is the list of segments accepted so far. What the code stores of them (data, count, bound, flags)
 * is computed here from the list.
 */
module Reassembly {
  import opened Basics
  import opened Fields
  import opened Address
  import opened Messages

  const NETWORK_CONGESTION: byte := 6
  const ERROR_IN_TRANSPORT: byte := 8
  const CANNOT_REASSEMBLE: byte := 10

  datatype Unitdata = Unitdata(
    routing: RoutingLabel, typ: MsgType, protocolClass: ProtocolClass, hop: byte, hasHop: bool,
    called: PartyAddress, calling: PartyAddress, data: bytes,
    segmentation: Option<Segmentation>, importance: Option<byte>)

  datatype Indication = Indication(
    routing: RoutingLabel, typ: MsgType, called: PartyAddress, calling: PartyAddress, protocolClass: byte,
    returnOnError: bool, importance: Option<byte>, data: bytes, segments: nat)

  datatype Reason =
    | SyntaxError | IncompleteAddress | Undeliverable(cause: byte) | CallingAddress | FailedMessage | NewFirstSegment | BusyReference | NoBuffer
    | NoProcess | WrongSegment | OutOfSequence | ExceedsBound | ExceedsMaximum | Expired | Unrecorded(of: Reason)

  /** Returned stands for one run of the message return procedure, Alerted for a report to maintenance. */
  datatype Out =
    | Alerted(routing: RoutingLabel, typ: MsgType)
    | Discarded(routing: RoutingLabel, typ: MsgType, reason: Reason)
    | Returned(u: Unitdata, cause: byte)
    | Delivered(indication: Indication)

  datatype Key = Key(routing: RoutingLabel, calling: bytes, reference: u32)

  datatype Peer = Peer(ni: byte, opc: u32)

  function PeerOf(k: Key): Peer { Peer(k.routing.ni, k.routing.opc) }

  datatype Entry =
    | Live(segments: seq<Unitdata>, deadline: nat)
    | Failed(orphan: bool, firstHash: Option<nat>, deadline: nat)

  type Table = map<Key, Entry>

  /** hash stands for the seeded hash of user data and remaining segment count; perPeer 0 sets no bound. */
  datatype Config = Config(maxReassemblies: nat, maxOctets: nat, perPeer: nat, timeout: nat, hash: (bytes, byte) -> nat)

  // ----- What the code stores of the accepted segments -----

  function Data(segs: seq<Unitdata>): bytes {
    if |segs| == 0 then [] else Data(segs[..|segs| - 1]) + segs[|segs| - 1].data
  }

  /** Some accepted segment asked for return on error. */
  function AnyReturn(segs: seq<Unitdata>): bool {
    |segs| > 0 && (AnyReturn(segs[..|segs| - 1]) || segs[|segs| - 1].protocolClass.returnOnError)
  }

  predicate IsSegment(u: Unitdata) {
    u.segmentation.Some? && (!u.segmentation.value.first || u.segmentation.value.remaining != 0) && |u.data| > 0
  }

  function Seg(u: Unitdata): Segmentation
    requires u.segmentation.Some?
  {
    u.segmentation.value
  }

  /** The number of segments the first one announces. */
  function Announced(segs: seq<Unitdata>): nat
    requires |segs| > 0 && segs[0].segmentation.Some?
  {
    Seg(segs[0]).remaining as int + 1
  }

  /** First segment length times number of segments. */
  function Bound(segs: seq<Unitdata>): nat
    requires |segs| > 0 && segs[0].segmentation.Some?
  {
    |segs[0].data| * Announced(segs)
  }

  /** The segments are the first ones of a message, in sequence. */
  ghost predicate InSequence(segs: seq<Unitdata>) {
    && |segs| > 0
    && (forall i :: 0 <= i < |segs| ==> IsSegment(segs[i]))
    && (forall i :: 0 <= i < |segs| ==> Seg(segs[i]).first == (i == 0))
    && (forall i :: 0 <= i < |segs| ==> Seg(segs[i]).remaining as int == Announced(segs) - 1 - i)
    && |Data(segs)| <= Bound(segs)
    && (|segs| > 1 ==> |Data(segs)| <= MAX_LONG_DATA)
  }

  function KeyOf(u: Unitdata): Option<Key>
    requires u.segmentation.Some?
  {
    match EncodeAddress(u.calling)
    case None => None
    case Some(b) => Some(Key(u.routing, b, Seg(u).reference))
  }

  function IndicationOf(segs: seq<Unitdata>): Indication
    requires |segs| > 0 && segs[0].segmentation.Some?
  {
    var f := segs[0];
    Indication(f.routing, f.typ, f.called, f.calling, if Seg(f).inSequence then 1 else 0, AnyReturn(segs), f.importance,
               Data(segs), Announced(segs))
  }

  function HashOf(cfg: Config, u: Unitdata): nat
    requires u.segmentation.Some?
  {
    cfg.hash(u.data, Seg(u).remaining)
  }

  // ----- One key -----

  /** What the shared bounds leave: a slot for a process, octets for this segment, an orphan record. */
  datatype Room = Room(slot: bool, octets: bool, record: bool)

  function Reject(u: Unitdata, returnOnError: bool, cause: byte, reason: Reason): seq<Out> {
    [Discarded(u.routing, u.typ, reason)] + (if returnOnError then [Returned(u, cause)] else [])
  }

  /** A segment of a message that has no process is returned, and recorded so that it is returned once. */
  function KeyReject(cfg: Config, room: Room, now: nat, u: Unitdata, cause: byte, reason: Reason): (Option<Entry>, seq<Out>)
    requires u.segmentation.Some?
  {
    if !room.record then (None, [Discarded(u.routing, u.typ, Unrecorded(reason))])
    else (Some(Failed(true, if Seg(u).first then Some(HashOf(cfg, u)) else None, now + cfg.timeout)),
          Reject(u, u.protocolClass.returnOnError, cause, reason))
  }

  /** A process that fails returns its first segment and becomes the record of its message. */
  function KeyFail(cfg: Config, segs: seq<Unitdata>, now: nat, returnOnError: bool, cause: byte, reason: Reason): (Option<Entry>, seq<Out>)
    requires |segs| > 0 && segs[0].segmentation.Some?
  {
    (Some(Failed(false, Some(HashOf(cfg, segs[0])), now + cfg.timeout)), Reject(segs[0], returnOnError, cause, reason))
  }

  /** A first segment that is known to differ from the one of the failed message starts a new message. */
  predicate StartsAfresh(cfg: Config, e: Entry, u: Unitdata)
    requires e.Failed? && u.segmentation.Some?
  {
    Seg(u).first && e.firstHash.Some? && e.firstHash.value != HashOf(cfg, u)
  }

  function Also(r: (Option<Entry>, seq<Out>), o: Out): (Option<Entry>, seq<Out>) {
    (r.0, r.1 + [o])
  }

  /** Segment u of a process in progress. */
  function Continue(cfg: Config, segs: seq<Unitdata>, deadline: nat, room: Room, now: nat, u: Unitdata, barrier: Option<byte>)
    : (Option<Entry>, seq<Out>)
    requires |segs| > 0 && segs[0].segmentation.Some? && u.segmentation.Some?
  {
    var roe := AnyReturn(segs) || u.protocolClass.returnOnError;
    var total := |Data(segs)| + |u.data|;
    if barrier.Some? then
      Also(KeyFail(cfg, segs, now, roe, barrier.value, Undeliverable(barrier.value)), Discarded(u.routing, u.typ, Undeliverable(barrier.value)))
    else if Seg(u).remaining as int != Announced(segs) - 1 - |segs| then
      Also(KeyFail(cfg, segs, now, roe, ERROR_IN_TRANSPORT, WrongSegment), Discarded(u.routing, u.typ, OutOfSequence))
    else if total > Bound(segs) then
      Also(KeyFail(cfg, segs, now, roe, ERROR_IN_TRANSPORT, ExceedsBound), Discarded(u.routing, u.typ, ExceedsBound))
    else if total > MAX_LONG_DATA then
      Also(KeyFail(cfg, segs, now, roe, CANNOT_REASSEMBLE, ExceedsMaximum), Discarded(u.routing, u.typ, ExceedsMaximum))
    else if !room.octets then
      Also(KeyFail(cfg, segs, now, roe, NETWORK_CONGESTION, NoBuffer), Discarded(u.routing, u.typ, NoBuffer))
    else if Seg(u).remaining > 0 then (Some(Live(segs + [u], deadline)), [])
    else (None, [Delivered(IndicationOf(segs + [u]))])
  }

  /** Segment u of a message with neither process nor record. */
  function Start(cfg: Config, room: Room, now: nat, u: Unitdata, barrier: Option<byte>): (Option<Entry>, seq<Out>)
    requires u.segmentation.Some?
  {
    if barrier.Some? then KeyReject(cfg, room, now, u, barrier.value, Undeliverable(barrier.value))
    else if !Seg(u).first then KeyReject(cfg, room, now, u, ERROR_IN_TRANSPORT, NoProcess)
    else if !room.slot || !room.octets then KeyReject(cfg, room, now, u, NETWORK_CONGESTION, NoBuffer)
    else (Some(Live([u], now + cfg.timeout)), [])
  }

  /** A first segment for a busy reference ends the process and rejects the new message. */
  function Collide(cfg: Config, segs: seq<Unitdata>, room: Room, now: nat, u: Unitdata, barrier: Option<byte>): (Option<Entry>, seq<Out>)
    requires |segs| > 0 && u.segmentation.Some?
  {
    var r := match barrier
      case Some(cause) => KeyReject(cfg, room, now, u, cause, Undeliverable(cause))
      case None => KeyReject(cfg, room, now, u, ERROR_IN_TRANSPORT, BusyReference);
    (r.0, [Discarded(segs[0].routing, segs[0].typ, NewFirstSegment)] + r.1)
  }

  /** What a segment does to the entry of its key. barrier is the cause for which the subsystem cannot receive. */
  function KeyReceive(cfg: Config, e: Option<Entry>, room: Room, now: nat, u: Unitdata, barrier: Option<byte>): (Option<Entry>, seq<Out>)
    requires u.segmentation.Some? && ValidEntry(e)
  {
    match e
    case None => Start(cfg, room, now, u, barrier)
    case Some(Failed(_, _, _)) =>
      if StartsAfresh(cfg, e.value, u) then Start(cfg, room, now, u, barrier)
      else (e, [Discarded(u.routing, u.typ, FailedMessage)])
    case Some(Live(segs, deadline)) =>
      if Seg(u).first then Collide(cfg, segs, room, now, u, barrier)
      else Continue(cfg, segs, deadline, room, now, u, barrier)
  }

  /** What its timer does to an entry: T(reassembly) fails a process, and ends the record of a failed message. */
  function KeyTimeout(cfg: Config, e: Entry, now: nat): (Option<Entry>, seq<Out>)
    requires ValidEntry(Some(e))
  {
    match e
    case Live(segs, _) => KeyFail(cfg, segs, now, AnyReturn(segs), ERROR_IN_TRANSPORT, Expired)
    case Failed(_, _, _) => (None, [])
  }

  predicate ValidEntry(e: Option<Entry>) {
    e.Some? && e.value.Live? ==> |e.value.segments| > 0 && e.value.segments[0].segmentation.Some?
  }

  // ----- The table -----

  function Get(t: Table, k: Key): Option<Entry> {
    if k in t then Some(t[k]) else None
  }

  function Put(t: Table, k: Key, e: Option<Entry>): Table {
    if e.Some? then t[k := e.value] else t - {k}
  }

  function SlotWeight(k: Key, e: Entry): nat { if e.Failed? && e.orphan then 0 else 1 }

  function OrphanWeight(k: Key, e: Entry): nat { if e.Failed? && e.orphan then 1 else 0 }

  function OctetWeight(k: Key, e: Entry): nat { if e.Live? then |Data(e.segments)| else 0 }

  function PeerWeight(peer: Peer): (Key, Entry) -> nat {
    (k, e) => if PeerOf(k) == peer then OctetWeight(k, e) else 0
  }

  /** Processes and the records of failed processes. */
  ghost function Slots(t: Table): nat { Weigh(t, SlotWeight) }

  /** Records of messages that failed with no process. */
  ghost function Orphans(t: Table): nat { Weigh(t, OrphanWeight) }

  /** User data held. */
  ghost function Octets(t: Table): nat { Weigh(t, OctetWeight) }

  ghost function PeerOctets(t: Table, peer: Peer): nat { Weigh(t, PeerWeight(peer)) }

  ghost function RoomFor(cfg: Config, t: Table, k: Key, n: nat): Room {
    Room(Slots(t - {k}) < cfg.maxReassemblies,
         Octets(t) + n <= cfg.maxOctets && (cfg.perPeer == 0 || PeerOctets(t, PeerOf(k)) + n <= cfg.perPeer),
         Orphans(t - {k}) < cfg.maxReassemblies)
  }

  ghost predicate ValidTable(t: Table) {
    forall k :: k in t ==> ValidEntry(Some(t[k]))
  }

  /** The whole table, one segment. */
  ghost function Receive(cfg: Config, t: Table, now: nat, u: Unitdata, barrier: Option<byte>): (Table, seq<Out>)
    requires u.segmentation.Some? && ValidTable(t)
  {
    match KeyOf(u)
    case None => (t, [Discarded(u.routing, u.typ, CallingAddress)])
    case Some(k) =>
      var r := KeyReceive(cfg, Get(t, k), RoomFor(cfg, t, k, |u.data|), now, u, barrier);
      (Put(t, k, r.0), r.1)
  }

  /** The whole table, the timer of one entry. */
  ghost function Timeout(cfg: Config, t: Table, now: nat, k: Key): (Table, seq<Out>)
    requires ValidTable(t) && k in t
  {
    var r := KeyTimeout(cfg, t[k], now);
    (Put(t, k, r.0), r.1)
  }
}
