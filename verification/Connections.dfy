/**
 * The connection-oriented procedures of protocol class 2, connection.go, connection_procedures.go and
 * connection_timers.go, as a machine over values: what a message, a timer or a request does to one connection section.
 *
 * A section is one of five states with the timers that run in it, given by their deadlines.
 */
module Connections {
  import opened Basics
  import opened Fields
  import opened Address
  import opened Messages
  import Segmenting
  import opened Connectionless

  const UNASSIGNED_DESTINATION: byte := 0
  const INCONSISTENT_SOURCE: byte := 1
  const POINT_CODE_MISMATCH: byte := 2
  const SERVICE_CLASS_MISMATCH: byte := 3

  const REMOTE_PROCEDURE_ERROR: byte := 0x04
  const INCONSISTENT_CONNECTION_DATA: byte := 0x05
  const RELEASE_NETWORK_CONGESTION: byte := 0x0b
  const EXPIRATION_OF_RECEIVE_INACTIVITY: byte := 0x0d

  const RESOURCE_NOT_AVAILABLE_TRANSIENT: byte := 0x07
  const EXPIRATION_OF_ESTABLISHMENT: byte := 0x0c
  const REFUSAL_UNQUALIFIED: byte := 0x0f

  /** fits tells whether the codec encodes a message within the maximum message size. */
  datatype Config = Config(
    pointCode: u32, ni: byte, hop: byte, maxMessageSize: int, fits: Message -> bool,
    establishment: nat, release: nat, repeat: nat, giveUp: nat, ias: nat, iar: nat, freeze: nat,
    maxConnections: nat, maxDataLength: nat, maxOctets: nat)

  /** What initConnections leaves: every timer positive, T(iar) longer than T(ias). */
  predicate ValidConfig(cfg: Config) {
    && cfg.establishment > 0 && cfg.release > 0 && cfg.repeat > 0 && cfg.giveUp > 0 && cfg.freeze > 0
    && 0 < cfg.ias < cfg.iar
  }

  /** A user's N-DISCONNECT, as far as the RLSD is concerned. */
  datatype Disconnection = Disconnection(cause: byte, data: bytes, importance: Option<byte>)

  /** Until the first T(rel) expiry, then until T(int) with repetitions in between. */
  datatype Wait = First(rel: nat) | Repeating(giveUp: nat, repeat: Option<nat>)

  /** c2, c3, c4 and c6 of ITU-T Q.714 (05/01) Table B.3, and a released reference that is not free yet. */
  datatype Section =
    | Incoming(remoteRef: u32, remote: RoutingLabel)
    | Outgoing(remote: RoutingLabel, establishment: nat, disconnect: Option<Disconnection>)
    | Established(remoteRef: u32, remote: RoutingLabel, ias: nat, iar: nat, data: bytes, capacity: nat)
    | Releasing(remoteRef: u32, remote: RoutingLabel, release: Message, wait: Wait)
    | Frozen(unfreeze: nat)

  datatype Originator = Provider | Refuser(refusal: byte) | Releaser(release: byte)

  datatype Indication =
    | ConnectIndication(routing: RoutingLabel, ref: nat, called: PartyAddress, calling: Option<PartyAddress>, data: bytes, importance: Option<byte>)
    | ConnectConfirmation(ref: nat, responding: Option<PartyAddress>, data: bytes)
    | DataIndication(ref: nat, data: bytes)
    | DisconnectIndication(ref: nat, originator: Originator, refused: bool, cause: byte, responding: Option<PartyAddress>, data: bytes)
    | ReleaseIncomplete(ref: nat, routing: RoutingLabel, remoteRef: u32)
    | HopCounterAlert(routing: RoutingLabel)

  datatype Reason = NotSupported | SyntaxError | IncompleteAddress | NotFound | ReferenceMismatch | WrongState
    | TooLong | NoCapacity | Undeliverable

  /** What an event produces, in order. */
  datatype Out =
    | Sent(routing: RoutingLabel, message: Message)
    | Indicated(indication: Indication)
    | Discarded(routing: RoutingLabel, typ: MsgType, reason: Reason)

  // ----- Sending -----

  function Transfer(cfg: Config, routing: RoutingLabel, m: Message): seq<Out> {
    [if cfg.fits(m) then Sent(routing, m) else Discarded(routing, TypeOf(m), Undeliverable)]
  }

  /** A reply that cannot be sent is reported against the message it answers. */
  function Reply(cfg: Config, routing: RoutingLabel, m: Message, received: RoutingLabel, typ: MsgType): seq<Out> {
    [if cfg.fits(m) then Sent(routing, m) else Discarded(received, typ, Undeliverable)]
  }

  function ReleaseOf(ref: u32, remoteRef: u32, d: Disconnection): Message {
    RLSD(remoteRef, ref, d.cause, d.data, Segmenting.LimitImportance(d.importance), [])
  }

  function ProcedureRelease(ref: u32, remoteRef: u32, cause: byte): Message {
    ReleaseOf(ref, remoteRef, Disconnection(cause, [], None))
  }

  function DisconnectedBy(ref: nat, cause: byte): Out {
    Indicated(DisconnectIndication(ref, Provider, false, cause, None, []))
  }

  function RefusedBy(ref: nat, cause: byte): Out {
    Indicated(DisconnectIndication(ref, Provider, true, cause, None, []))
  }

  // ----- Changes of state -----

  function Freeze(cfg: Config, now: nat): Section { Frozen(now + cfg.freeze) }

  /** RLSD is sent, T(rel) starts, and the user is told unless it asked. */
  function BeginRelease(cfg: Config, ref: u32, remoteRef: u32, remote: RoutingLabel, m: Message, notify: bool, now: nat): (Section, seq<Out>)
    requires m.RLSD?
  {
    (Releasing(remoteRef, remote, m, First(now + cfg.release)),
     Transfer(cfg, remote, m) + (if notify then [DisconnectedBy(ref, m.cause)] else []))
  }

  /** The release that the provider starts, with a cause of its own. */
  function ProviderRelease(cfg: Config, ref: u32, remoteRef: u32, remote: RoutingLabel, cause: byte, now: nat): (Section, seq<Out>) {
    BeginRelease(cfg, ref, remoteRef, remote, ProcedureRelease(ref, remoteRef, cause), true, now)
  }

  function Establish(cfg: Config, remoteRef: u32, remote: RoutingLabel, now: nat): Section {
    Established(remoteRef, remote, now + cfg.ias, now + cfg.iar, [], 0)
  }

  // ----- Received messages -----

  function DestinationOf(m: Message): u32 {
    if m.CR? || m.UDT? || m.UDTS? || m.XUDT? || m.XUDTS? || m.LUDT? || m.LUDTS? then 0 else m.destination
  }

  function SourceOf(m: Message): Option<u32> {
    if m.CC? || m.RLSD? || m.RLC? || m.RSR? || m.RSC? || m.IT? then Some(m.source) else None
  }

  /** The messages of protocol class 3, which are discarded in any state. */
  predicate ClassThree(m: Message) {
    m.DT2? || m.AK? || m.ED? || m.EA? || m.RSR? || m.RSC?
  }

  /** The messages that go to a section. */
  predicate SectionMessage(m: Message) {
    m.CC? || m.CREF? || m.RLSD? || m.RLC? || m.DT1? || m.ERR? || m.IT?
  }

  predicate InvalidParameter(m: Message) {
    ((m.CC? || m.IT?) && m.protocolClass.number != 2 && m.protocolClass.number != 3) || (m.DT1? && |m.data| == 0)
  }

  predicate ReservedReference(m: Message) {
    DestinationOf(m) >= LOCAL_REFERENCE_RESERVED || (SourceOf(m).Some? && SourceOf(m).value >= LOCAL_REFERENCE_RESERVED)
  }

  /** A message whose destination reference no section has. */
  function Unassigned(cfg: Config, routing: RoutingLabel, m: Message): seq<Out>
    requires SectionMessage(m)
  {
    var back := ReplyLabel(routing);
    [Discarded(routing, TypeOf(m), NotFound)]
    + if m.CC? || m.IT? then Reply(cfg, back, ERR(m.source, UNASSIGNED_DESTINATION, []), routing, TERR)
      else if m.RLSD? then Reply(cfg, back, RLC(m.source, m.destination), routing, TRLC)
      else []
  }

  /** A message from another signalling point than the section's leaves the section as it is. */
  function WrongPeer(cfg: Config, routing: RoutingLabel, m: Message): seq<Out>
    requires SectionMessage(m)
  {
    [Discarded(routing, TypeOf(m), ReferenceMismatch)]
    + if m.RLSD? then Reply(cfg, ReplyLabel(routing), ERR(m.source, POINT_CODE_MISMATCH, []), routing, TERR) else []
  }

  /** A message with another source reference: an IT releases the section. */
  function WrongSource(cfg: Config, ref: u32, c: Section, now: nat, routing: RoutingLabel, m: Message): (Section, seq<Out>)
    requires SectionMessage(m) && !c.Frozen? && !c.Outgoing? && (c.Releasing? ==> c.release.RLSD?)
  {
    var back, outs := ReplyLabel(routing), [Discarded(routing, TypeOf(m), ReferenceMismatch)];
    if m.RLSD? then (c, outs + Reply(cfg, back, ERR(m.source, INCONSISTENT_SOURCE, []), routing, TERR))
    else if !m.IT? then (c, outs)
    else
      var answered := outs + Reply(cfg, back, RLSD(m.source, m.destination, INCONSISTENT_CONNECTION_DATA, [], None, []), routing, TRLSD);
      if c.Releasing? then (c, answered + Transfer(cfg, c.remote, c.release))
      else
        var r := ProviderRelease(cfg, ref, c.remoteRef, c.remote, INCONSISTENT_CONNECTION_DATA, now);
        (r.0, answered + r.1)
  }

  /** c3: the peer confirms, refuses, or breaks the procedure. */
  function Setup(cfg: Config, ref: u32, c: Section, now: nat, routing: RoutingLabel, m: Message): (Section, seq<Out>)
    requires SectionMessage(m) && c.Outgoing?
  {
    match m
    case CREF(_, cause, responding, data, _, _) =>
      (Freeze(cfg, now),
       if c.disconnect == None then [Indicated(DisconnectIndication(ref, Refuser(cause), true, cause, responding, data))] else [])
    case CC(_, source, pc, _, responding, data, _, _) =>
      var remote := c.remote.(dpc := routing.opc, ni := routing.ni);
      var early := if pc.number != 2 then [Discarded(routing, TCC, WrongState)] else [];
      if c.disconnect.Some? then
        var r := BeginRelease(cfg, ref, source, remote, ReleaseOf(ref, source, c.disconnect.value), false, now);
        (r.0, early + r.1)
      else if pc.number != 2 then
        var r := ProviderRelease(cfg, ref, source, remote, REMOTE_PROCEDURE_ERROR, now);
        (r.0, early + r.1)
      else (Establish(cfg, source, remote, now), [Indicated(ConnectConfirmation(ref, responding, data))])
    case _ =>
      (Freeze(cfg, now),
       [Discarded(routing, TypeOf(m), WrongState)]
       + (if m.RLSD? then Reply(cfg, ReplyLabel(routing), RLC(m.source, m.destination), routing, TRLSD) else [])
       + (if c.disconnect == None then [RefusedBy(ref, REFUSAL_UNQUALIFIED)] else []))
  }

  /** How much the buffer grows to: doubling, capped, or exactly what is needed when room is short; None without room. */
  function Grown(cfg: Config, capacity: nat, length: nat, available: nat): Option<nat> {
    if length <= capacity then Some(capacity) else
    var wanted := if capacity <= cfg.maxDataLength / 2 then Max(length, 2 * capacity) else cfg.maxDataLength;
    if wanted - capacity <= available then Some(wanted)
    else if length - capacity <= available then Some(length)
    else None
  }

  /** c4: data, release, error and inactivity test. Whatever arrives has restarted T(iar). */
  function Transferring(cfg: Config, ref: u32, c: Section, now: nat, routing: RoutingLabel, m: Message, available: nat): (Section, seq<Out>)
    requires SectionMessage(m) && c.Established?
  {
    var heard := c.(iar := now + cfg.iar);
    match m
    case DT1(_, more, data) =>
      if |data| + |c.data| > cfg.maxDataLength then
        var r := ProviderRelease(cfg, ref, c.remoteRef, c.remote, REMOTE_PROCEDURE_ERROR, now);
        (r.0, [Discarded(routing, TDT1, TooLong)] + r.1)
      else
        (match Grown(cfg, c.capacity, |c.data| + |data|, available)
         case None =>
           var r := ProviderRelease(cfg, ref, c.remoteRef, c.remote, RELEASE_NETWORK_CONGESTION, now);
           (r.0, [Discarded(routing, TDT1, NoCapacity)] + r.1)
         case Some(n) =>
           if more then (heard.(data := c.data + data, capacity := n), [])
           else (heard.(data := [], capacity := 0), [Indicated(DataIndication(ref, c.data + data))]))
    case RLSD(_, _, cause, data, _, _) =>
      (Freeze(cfg, now),
       Transfer(cfg, c.remote, RLC(c.remoteRef, ref))
       + [Indicated(DisconnectIndication(ref, Releaser(cause), false, cause, None, data))])
    case ERR(_, cause, _) =>
      if cause == SERVICE_CLASS_MISMATCH then ProviderRelease(cfg, ref, c.remoteRef, c.remote, INCONSISTENT_CONNECTION_DATA, now)
      else (Freeze(cfg, now), [DisconnectedBy(ref, REMOTE_PROCEDURE_ERROR)])
    case IT(_, _, pc, _, _) =>
      if pc.number == 2 then (heard, []) else
      var r := ProviderRelease(cfg, ref, c.remoteRef, c.remote, INCONSISTENT_CONNECTION_DATA, now);
      (r.0, [Discarded(routing, TIT, WrongState)] + r.1)
    case _ => (heard, [Discarded(routing, TypeOf(m), WrongState)])
  }

  /** c6: RLSD, RLC and ERR end the release. */
  function Completing(cfg: Config, c: Section, now: nat, routing: RoutingLabel, m: Message): (Section, seq<Out>)
    requires SectionMessage(m) && c.Releasing?
  {
    if m.RLSD? || m.RLC? then (Freeze(cfg, now), [])
    else if m.ERR? then (Freeze(cfg, now), [Discarded(routing, TERR, WrongState)])
    else (c, [Discarded(routing, TypeOf(m), WrongState)])
  }

  function Dispatch(cfg: Config, ref: u32, c: Section, now: nat, routing: RoutingLabel, m: Message, available: nat): (Section, seq<Out>)
    requires SectionMessage(m) && !c.Frozen?
  {
    match c
    case Incoming(_, _) => (c, [Discarded(routing, TypeOf(m), WrongState)])
    case Outgoing(_, _, _) => Setup(cfg, ref, c, now, routing, m)
    case Established(_, _, _, _, _, _) => Transferring(cfg, ref, c, now, routing, m, available)
    case Releasing(_, _, _, _) => Completing(cfg, c, now, routing, m)
  }

  /** A section message for section c of local reference ref. available is what the buffers of all sections leave. */
  function Receive(cfg: Config, ref: u32, c: Section, now: nat, routing: RoutingLabel, m: Message, available: nat): (Section, seq<Out>)
    requires SectionMessage(m) && !c.Frozen? && (c.Releasing? ==> c.release.RLSD?)
  {
    var checkPeer := !c.Outgoing? && !m.CC? && !m.CREF?;
    if checkPeer && (routing.opc != c.remote.dpc || routing.ni != c.remote.ni) then (c, WrongPeer(cfg, routing, m))
    else if checkPeer && SourceOf(m).Some? && SourceOf(m).value != c.remoteRef then WrongSource(cfg, ref, c, now, routing, m)
    else Dispatch(cfg, ref, c, now, routing, m, available)
  }

  // ----- Timers -----

  datatype TimerKind = TEstablishment | TRelease | TRepeat | TGiveUp | TSend | TReceive | TUnfreeze

  /** The timers that run, with their deadlines. */
  function Deadlines(c: Section): map<TimerKind, nat> {
    match c
    case Incoming(_, _) => map[]
    case Outgoing(_, t, _) => map[TEstablishment := t]
    case Established(_, _, ias, iar, _, _) => map[TSend := ias, TReceive := iar]
    case Releasing(_, _, _, First(rel)) => map[TRelease := rel]
    case Releasing(_, _, _, Repeating(giveUp, None)) => map[TGiveUp := giveUp]
    case Releasing(_, _, _, Repeating(giveUp, Some(t))) => map[TGiveUp := giveUp, TRepeat := t]
    case Frozen(t) => map[TUnfreeze := t]
  }

  /** The next repetition, strictly before T(int) ends. */
  function NextRepeat(cfg: Config, now: nat, giveUp: nat): Option<nat> {
    if now + cfg.repeat < giveUp then Some(now + cfg.repeat) else None
  }

  /** What a timer does when it fires; None when the reference becomes free. */
  function Fire(cfg: Config, ref: u32, c: Section, kind: TimerKind, now: nat): (Option<Section>, seq<Out>)
    requires kind in Deadlines(c)
  {
    match c
    case Outgoing(_, _, disconnect) =>
      (Some(Freeze(cfg, now)), if disconnect == None then [RefusedBy(ref, EXPIRATION_OF_ESTABLISHMENT)] else [])
    case Established(remoteRef, remote, _, _, _, _) =>
      if kind == TSend then
        (Some(c.(ias := now + cfg.ias)), Transfer(cfg, remote, IT(remoteRef, ref, ProtocolClass(2, false), Sequencing(0, 0, false), 0)))
      else
        var r := ProviderRelease(cfg, ref, remoteRef, remote, EXPIRATION_OF_RECEIVE_INACTIVITY, now);
        (Some(r.0), r.1)
    case Releasing(remoteRef, remote, m, First(_)) =>
      var giveUp := now + cfg.giveUp;
      (Some(c.(wait := Repeating(giveUp, NextRepeat(cfg, now, giveUp)))), Transfer(cfg, remote, m))
    case Releasing(remoteRef, remote, m, Repeating(giveUp, _)) =>
      if kind == TRepeat then (Some(c.(wait := Repeating(giveUp, NextRepeat(cfg, now, giveUp)))), Transfer(cfg, remote, m))
      else (Some(Freeze(cfg, now)), [Indicated(ReleaseIncomplete(ref, remote, remoteRef))])
    case Frozen(_) => (None, [])
  }

  // ----- Requests of the user -----

  datatype RequestError = InvalidRequest | NotFoundError | StateError

  datatype Answer<T> = Done(value: T) | Refused(error: RequestError)

  datatype ConnectRequest = ConnectRequest(called: PartyAddress, calling: Option<PartyAddress>, data: bytes, importance: Option<byte>, dpc: u32)

  function ImportanceFits(i: Option<byte>): bool { i.Some? ==> i.value <= MAX_IMPORTANCE }

  /** Importance is 4 at most in CR, CC and CREF. */
  function SetupImportance(i: Option<byte>): Option<byte> {
    if i.Some? then Some(Min(i.value, 4)) else None
  }

  function RequestedDestination(req: ConnectRequest): Option<u32> {
    if req.dpc != 0 then Some(req.dpc) else if req.called.hasPointCode then Some(req.called.pointCode) else None
  }

  /** The label of the messages of a connection that is asked for. */
  function CalledNode(cfg: Config, req: ConnectRequest, sls: byte): RoutingLabel
    requires RequestedDestination(req).Some?
  {
    RoutingLabel(cfg.pointCode, RequestedDestination(req).value, sls, cfg.ni)
  }

  function RequestOf(cfg: Config, req: ConnectRequest, ref: u32): Message {
    CR(ref, ProtocolClass(2, false), req.called, None, req.calling, req.data,
       if req.called.routeOnSSN then None else Some(cfg.hop), SetupImportance(req.importance), [])
  }

  /** What Connect checks before it looks for a reference. */
  predicate Connectable(cfg: Config, req: ConnectRequest) {
    && RequestedDestination(req).Some? && RequestedDestination(req).value <= MAX_POINT_CODE
    && Segmenting.Routable(req.called) && ImportanceFits(req.importance) && cfg.fits(RequestOf(cfg, req, 0))
  }

  function Connect(cfg: Config, req: ConnectRequest, ref: u32, sls: byte, now: nat): Answer<(Section, seq<Out>)>
    requires Connectable(cfg, req)
  {
    var remote := CalledNode(cfg, req, sls);
    if !cfg.fits(RequestOf(cfg, req, ref)) then Refused(InvalidRequest)
    else Done((Outgoing(remote, now + cfg.establishment, None), [Sent(remote, RequestOf(cfg, req, ref))]))
  }

  function Accept(cfg: Config, ref: u32, c: Section, responding: Option<PartyAddress>, data: bytes, importance: Option<byte>, now: nat)
    : Answer<(Section, seq<Out>)>
  {
    if c.Frozen? then Refused(NotFoundError)
    else if !c.Incoming? then Refused(StateError)
    else if !ImportanceFits(importance) then Refused(InvalidRequest)
    else
      var m := CC(c.remoteRef, ref, ProtocolClass(2, false), None, responding, data, SetupImportance(importance), []);
      if !cfg.fits(m) then Refused(InvalidRequest)
      else Done((Establish(cfg, c.remoteRef, c.remote, now), [Sent(c.remote, m)]))
  }

  /** The most user data a DT1 carries. */
  function DataSize(cfg: Config): int { Min(MAX_DATA, cfg.maxMessageSize - 7) }

  /** The DT1 messages for the data from offset off on. Only the last has the M bit clear. */
  function DataMessages(remoteRef: u32, data: bytes, size: nat, off: nat): (ms: seq<Message>)
    requires size > 0
    decreases |data| - off
  {
    if off >= |data| then [] else
    var end := Min(off + size, |data|);
    [DT1(remoteRef, end < |data|, data[off..end])] + DataMessages(remoteRef, data, size, off + size)
  }

  function AllSent(routing: RoutingLabel, ms: seq<Message>): (outs: seq<Out>)
    ensures |outs| == |ms| && forall i :: 0 <= i < |ms| ==> outs[i] == Sent(routing, ms[i])
  {
    seq(|ms|, i requires 0 <= i < |ms| => Sent(routing, ms[i]))
  }

  function SendData(cfg: Config, c: Section, data: bytes, now: nat): Answer<(Section, seq<Out>)> {
    if c.Frozen? then Refused(NotFoundError)
    else if !c.Established? then Refused(StateError)
    else if |data| == 0 || |data| > cfg.maxDataLength || DataSize(cfg) <= 0 then Refused(InvalidRequest)
    else
      var ms := DataMessages(c.remoteRef, data, DataSize(cfg), 0);
      if exists m :: m in ms && !cfg.fits(m) then Refused(InvalidRequest)
      else Done((c.(ias := now + cfg.ias), AllSent(c.remote, ms)))
  }

  datatype DisconnectRequest = DisconnectRequest(release: Disconnection, refusalCause: byte)

  function Disconnect(cfg: Config, ref: u32, c: Section, req: DisconnectRequest, now: nat): Answer<(Section, seq<Out>)> {
    if c.Frozen? then Refused(NotFoundError)
    else if c.Releasing? then Refused(StateError)
    else if !ImportanceFits(req.release.importance) then Refused(InvalidRequest)
    else if c.Incoming? then
      var m := CREF(c.remoteRef, req.refusalCause, None, req.release.data, SetupImportance(req.release.importance), []);
      if !cfg.fits(m) then Refused(InvalidRequest) else Done((Freeze(cfg, now), [Sent(c.remote, m)]))
    else
      var m := ReleaseOf(ref, if c.Outgoing? then 0 else c.remoteRef, req.release);
      if !cfg.fits(m) then Refused(InvalidRequest)
      else if c.Outgoing? then Done((c.(disconnect := Some(req.release)), []))
      else Done(BeginRelease(cfg, ref, c.remoteRef, c.remote, m, false, now))
  }

  // ----- Connection requests of the peer -----

  function RoutingRefusal(cause: byte): byte {
    if cause == 0 then 0x12
    else if cause == NO_TRANSLATION then 0x04
    else if cause == 2 then 0x09
    else if cause == SUBSYSTEM_FAILURE then 0x0a
    else if cause == UNEQUIPPED_USER then 0x13
    else if cause == 5 then 0x05
    else if cause == 6 then RESOURCE_NOT_AVAILABLE_TRANSIENT
    else if cause == 0x0b then 0x11
    else if cause == HOP_COUNTER_VIOLATION then 0x10
    else REFUSAL_UNQUALIFIED
  }

  /** The node a connection request comes from: the point code of its calling address, or the OPC. */
  function RequestOrigin(routing: RoutingLabel, m: Message): RoutingLabel
    requires m.CR?
  {
    var remote := ReplyLabel(routing);
    if m.originating.Some? && m.originating.value.hasPointCode then remote.(dpc := m.originating.value.pointCode) else remote
  }

  datatype Admission = Dropped(outs: seq<Out>) | RefuseWith(cause: byte, alert: seq<Out>) | Admit

  /** What is decided about a connection request before a reference is looked for. */
  function Admits(routing: RoutingLabel, m: Message, local: bool, subsystems: map<byte, bool>): Admission
    requires m.CR?
  {
    if (m.protocolClass.number != 2 && m.protocolClass.number != 3) || m.source >= LOCAL_REFERENCE_RESERVED then
      Dropped([Discarded(routing, TCR, SyntaxError)])
    else
      match Route(m.called, if m.hopParam.Some? then m.hopParam.value else 0, m.hopParam.Some?, local)
      case Discard(reason) => Dropped([Discarded(routing, TCR, if reason.IncompleteAddress? then IncompleteAddress else SyntaxError)])
      case Return(cause) =>
        RefuseWith(RoutingRefusal(cause), if cause == HOP_COUNTER_VIOLATION then [Indicated(HopCounterAlert(routing))] else [])
      case Deliver(ssn) =>
        match SubsystemCause(subsystems, ssn)
        case Some(cause) => RefuseWith(RoutingRefusal(cause), [])
        case None => Admit
  }

  function Refuse(cfg: Config, routing: RoutingLabel, m: Message, cause: byte): seq<Out>
    requires m.CR?
  {
    Reply(cfg, RequestOrigin(routing, m), CREF(m.source, cause, None, [], None, []), routing, TCR)
  }

  function Offered(routing: RoutingLabel, m: Message, ref: nat): (Section, seq<Out>)
    requires m.CR?
  {
    (Incoming(m.source, RequestOrigin(routing, m)),
     [Indicated(ConnectIndication(routing, ref, m.called, m.originating, m.data, m.importance))])
  }
}
