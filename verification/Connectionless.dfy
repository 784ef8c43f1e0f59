/**
 * A received UDT, XUDT or LUDT, unitdata.go 337-565: routing at the end node, delivery or reassembly, and the message
 * return procedure.
 */
module Connectionless {
  import opened Basics
  import opened Fields
  import opened Address
  import opened Messages
  import opened Codec
  import opened Sizes
  import opened Segmenting
  import opened Reassembly
  import opened ReassemblyRuns
  import Reassemblers

  const NO_TRANSLATION: byte := 1
  const SUBSYSTEM_FAILURE: byte := 3
  const UNEQUIPPED_USER: byte := 4
  const HOP_COUNTER_VIOLATION: byte := 12

  function UnitdataOf(routing: RoutingLabel, m: Message): Unitdata
    requires m.UDT? || m.XUDT? || m.LUDT?
  {
    if m.UDT? then Unitdata(routing, TUDT, m.protocolClass, 0, false, m.called, m.calling, m.data, None, None)
    else Unitdata(routing, TypeOf(m), m.protocolClass, m.hop, true, m.called, m.calling, m.data, m.segmentation, m.importance)
  }

  // ----- Routing -----

  datatype Verdict = Deliver(ssn: byte) | Return(cause: byte) | Discard(reason: Reason)

  /** local tells whether a called address routed on global title addresses this node. */
  function Route(called: PartyAddress, hop: byte, hasHop: bool, local: bool): Verdict {
    if called.routeOnSSN && !called.hasSSN then Discard(SyntaxError)
    else if called.routeOnSSN && called.ssn != 0 then Deliver(called.ssn)
    else if called.globalTitle == None then Discard(if called.routeOnSSN then IncompleteAddress else SyntaxError)
    else if hasHop && hop <= 1 then Return(HOP_COUNTER_VIOLATION)
    else if !local || !called.hasSSN || called.ssn == 0 then Return(NO_TRANSLATION)
    else Deliver(called.ssn)
  }

  /** subsystems holds the registered subsystems and whether they are available. */
  function SubsystemCause(subsystems: map<byte, bool>, ssn: byte): Option<byte> {
    if ssn !in subsystems then Some(UNEQUIPPED_USER)
    else if !subsystems[ssn] then Some(SUBSYSTEM_FAILURE)
    else None
  }

  /** A message goes to a subsystem of this node exactly when its called address names one that it can reach. */
  lemma DeliveredWhere(called: PartyAddress, hop: byte, hasHop: bool, local: bool, ssn: byte)
    requires called.hasSSN || called.ssn == 0
    ensures Route(called, hop, hasHop, local) == Deliver(ssn) <==>
            ssn != 0 && called.ssn == ssn
            && (called.routeOnSSN || (called.globalTitle.Some? && local && !(hasHop && hop <= 1)))
  {
  }

  // ----- Reception -----

  function SingleIndication(u: Unitdata): Indication {
    Indication(u.routing, u.typ, u.called, u.calling, u.protocolClass.number, u.protocolClass.returnOnError,
               u.importance, u.data, 1)
  }

  function Alert(u: Unitdata, cause: byte): seq<Out> {
    if cause == HOP_COUNTER_VIOLATION then [Alerted(u.routing, u.typ)] else []
  }

  /** What a message that is not a segment, or is not for a subsystem here, comes to. */
  function Unsegmented(u: Unitdata, local: bool, subsystems: map<byte, bool>): seq<Out> {
    if u.protocolClass.number > 1 || |u.data| == 0 then [Discarded(u.routing, u.typ, SyntaxError)] else
    match Route(u.called, u.hop, u.hasHop, local)
    case Discard(reason) => [Discarded(u.routing, u.typ, reason)]
    case Return(cause) =>
      Reject(u, u.protocolClass.returnOnError, cause, Undeliverable(cause)) + Alert(u, cause)
    case Deliver(ssn) =>
      match SubsystemCause(subsystems, ssn)
      case Some(cause) => Reject(u, u.protocolClass.returnOnError, cause, Undeliverable(cause))
      case None => [Delivered(SingleIndication(u))]
  }

  /** The message is a segment for a subsystem here. */
  predicate Reassembled(u: Unitdata, local: bool) {
    && u.protocolClass.number <= 1 && |u.data| > 0 && Route(u.called, u.hop, u.hasHop, local).Deliver?
    && u.segmentation.Some? && (!Seg(u).first || Seg(u).remaining != 0)
  }

  ghost function Handle(cfg: Config, t: Table, now: nat, u: Unitdata, local: bool, subsystems: map<byte, bool>): (Table, seq<Out>)
    requires ValidTable(t)
  {
    if Reassembled(u, local) then
      Receive(cfg, t, now, u, SubsystemCause(subsystems, Route(u.called, u.hop, u.hasHop, local).ssn))
    else (t, Unsegmented(u, local, subsystems))
  }

  method HandleUnitdata(r: Reassemblers.Reassembler, now: nat, routing: RoutingLabel, m: Message, local: bool, subsystems: map<byte, bool>)
    returns (outs: seq<Out>)
    requires r.Valid() && (m.UDT? || m.XUDT? || m.LUDT?)
    modifies r, r.queue, r.queue.all, r.reassemblies.Values
    ensures r.Valid() && (r.table, outs) == Handle(r.cfg, old(r.table), now, UnitdataOf(routing, m), local, subsystems)
  {
    hide Receive, r.Consistent, Good, ValidTable;
    var u := UnitdataOf(routing, m);
    if u.protocolClass.number > 1 || |u.data| == 0 {
      return [Discarded(routing, u.typ, SyntaxError)];
    }
    var verdict := Route(u.called, u.hop, u.hasHop, local);
    if verdict.Discard? {
      return [Discarded(routing, u.typ, verdict.reason)];
    }
    if verdict.Return? {
      return Reject(u, u.protocolClass.returnOnError, verdict.cause, Undeliverable(verdict.cause)) + Alert(u, verdict.cause);
    }
    var barrier := SubsystemCause(subsystems, verdict.ssn);
    if u.segmentation.Some? && (!Seg(u).first || Seg(u).remaining != 0) {
      outs := r.Reassemble(now, u, barrier);
      return;
    }
    if barrier.Some? {
      return Reject(u, u.protocolClass.returnOnError, barrier.value, Undeliverable(barrier.value));
    }
    outs := [Delivered(SingleIndication(u))];
  }

  // ----- The message return procedure -----

  /** To the node that a calling address routed on SSN identifies, or to the OPC. */
  function OriginLabel(received: RoutingLabel, calling: PartyAddress): RoutingLabel {
    var l := ReplyLabel(received);
    if calling.routeOnSSN && calling.hasPointCode then l.(dpc := calling.pointCode) else l
  }

  function XUDTSOf(node: Node, u: Unitdata, cause: byte): (m: Message)
    ensures CarriesData(m) && m.XUDTS?
  {
    XUDTS(cause, node.hop, u.calling, u.called, [], u.segmentation, None, [])
  }

  /** The service message that answers a message: addresses swapped, a fresh hop counter, the same segmentation. */
  function ServiceOf(node: Node, u: Unitdata, cause: byte): (m: Message)
    ensures CarriesData(m)
  {
    if u.typ == TUDT then UDTS(cause, u.calling, u.called, [])
    else if u.typ == TLUDT then LUDTS(cause, node.hop, u.calling, u.called, [], u.segmentation, None, [])
    else XUDTSOf(node, u, cause)
  }

  /** How much of the data goes into the message: all of it, or the longest part that fits. */
  function Fit(limit: int, m: Message, data: bytes): Option<nat>
    requires CarriesData(m)
  {
    hide FitsAt;
    if |data| == 0 then None
    else if FitsAt(limit, m, |data|) then Some(|data|)
    else
      var n := Largest(limit, m, Min(|data|, MAX_LONG_DATA));
      if n == 0 then None else Some(n)
  }

  /** The part that is returned is the longest that fits, and nothing is returned only when not an octet fits. */
  lemma FitLongest(limit: int, m: Message, data: bytes)
    requires CarriesData(m)
    ensures match Fit(limit, m, data)
            case Some(n) => 1 <= n <= |data| && FitsAt(limit, m, n) && forall k: nat :: n < k <= |data| ==> !FitsAt(limit, m, k)
            case None => forall k: nat :: 1 <= k <= |data| ==> !FitsAt(limit, m, k)
  {
    hide FitsAt;
    var hi := Min(|data|, MAX_LONG_DATA);
    LargestExact(limit, m, hi);
    forall k: nat | hi < k <= |data|
      ensures !FitsAt(limit, m, k)
    {
      TooMuchData(limit, m, k);
    }
  }

  method FitReturn(limit: int, m: Message, data: bytes) returns (r: Option<(Message, bytes)>)
    requires CarriesData(m)
    ensures r.Some? <==> Fit(limit, m, data).Some?
    ensures r.Some? ==>
              && r.value.0 == WithData(m, data[..Min(Fit(limit, m, data).value, |data|)])
              && Marshal(limit, r.value.0) == Octets(r.value.1)
  {
    hide FitsAt, Marshal;
    if |data| == 0 {
      return None;
    }
    FitLongest(limit, m, data);
    FitsAtLength(limit, m, data);
    assert data[..|data|] == data;
    var whole := Marshal(limit, WithData(m, data));
    if whole.Octets? {
      return Some((WithData(m, data), whole.octets));
    }
    ghost var best := Largest(limit, m, Min(|data|, MAX_LONG_DATA));
    LargestExact(limit, m, Min(|data|, MAX_LONG_DATA));
    var lo: nat, hi: nat := 0, Min(|data|, MAX_LONG_DATA);
    while lo < hi
      invariant lo <= best <= hi <= Min(|data|, MAX_LONG_DATA)
      decreases hi - lo
    {
      var mid := (lo + hi + 1) / 2;
      FitsAtLength(limit, m, data[..mid]);
      if Marshal(limit, WithData(m, data[..mid])).Octets? {
        lo := mid;
      } else {
        BestBelow(limit, m, best, mid);
        hi := mid - 1;
      }
    }
    if lo == 0 {
      return None;
    }
    FitsAtLength(limit, m, data[..lo]);
    r := Some((WithData(m, data[..lo]), Marshal(limit, WithData(m, data[..lo])).octets));
  }

  lemma BestBelow(limit: int, m: Message, best: nat, k: nat)
    requires CarriesData(m) && (best > 0 ==> FitsAt(limit, m, best)) && k > 0 && !FitsAt(limit, m, k)
    ensures best < k
  {
    hide FitsAt;
    if k <= best {
      FitsDownward(limit, m, best, k);
    }
  }

  /** The service message, with the data that fits; an LUDT that no LUDTS can answer is answered by an XUDTS. */
  function AnswerTo(node: Node, u: Unitdata, cause: byte): Option<Message> {
    hide FitsAt;
    var m := ServiceOf(node, u, cause);
    var x := XUDTSOf(node, u, cause);
    match Fit(node.maxMessageSize, m, u.data)
    case Some(n) => Some(WithData(m, u.data[..Min(n, |u.data|)]))
    case None =>
      if u.typ != TLUDT then None else
      match Fit(node.maxMessageSize, x, u.data)
      case Some(n) => Some(WithData(x, u.data[..Min(n, |u.data|)]))
      case None => None
  }

  method ReturnMessage(node: Node, u: Unitdata, cause: byte) returns (r: Option<Transfer>)
    ensures r.Some? <==> AnswerTo(node, u, cause).Some?
    ensures r.Some? ==> r.value.message == AnswerTo(node, u, cause).value && Sendable(node, OriginLabel(u.routing, u.calling), [r.value])
    ensures r.Some? ==>
              && r.value.routing.opc == u.routing.dpc && r.value.routing.sls == u.routing.sls && r.value.routing.ni == u.routing.ni
              && r.value.routing.dpc
                 == (if u.calling.routeOnSSN && u.calling.hasPointCode then u.calling.pointCode as int else u.routing.opc)
  {
    hide FitsAt, Marshal;
    var built := FitReturn(node.maxMessageSize, ServiceOf(node, u, cause), u.data);
    if built == None && u.typ == TLUDT {
      built := FitReturn(node.maxMessageSize, XUDTSOf(node, u, cause), u.data);
    }
    if built == None {
      return None;
    }
    r := Some(Transfer(OriginLabel(u.routing, u.calling), built.value.0, built.value.1));
  }

  /** A service message never asks for a return, carries a prefix of the data, and names the parties the other way round. */
  lemma AnswerSwaps(node: Node, u: Unitdata, cause: byte)
    requires AnswerTo(node, u, cause).Some?
    ensures var m := AnswerTo(node, u, cause).value;
            && (m.UDTS? || m.XUDTS? || m.LUDTS?) && m.cause == cause && m.called == u.calling && m.calling == u.called
            && 1 <= |m.data| <= |u.data| && m.data == u.data[..|m.data|]
            && (!m.UDTS? ==> m.segmentation == u.segmentation && m.hop == node.hop && m.importance == None && m.raw == [])
            && (m.UDTS? <==> u.typ == TUDT) && (m.LUDTS? ==> u.typ == TLUDT)
            && Fitting(node, m)
  {
    hide FitsAt, Marshal;
    var limit, m, x := node.maxMessageSize, ServiceOf(node, u, cause), XUDTSOf(node, u, cause);
    FitLongest(limit, m, u.data);
    FitLongest(limit, x, u.data);
    var a := AnswerTo(node, u, cause).value;
    FitsAtLength(limit, m, a.data);
    FitsAtLength(limit, x, a.data);
  }

  /** No longer part of the data would fit the same service message. */
  lemma AnswerLongest(node: Node, u: Unitdata, cause: byte, k: nat)
    requires AnswerTo(node, u, cause).Some? && |AnswerTo(node, u, cause).value.data| < k <= |u.data|
    ensures !Fitting(node, WithData(AnswerTo(node, u, cause).value, u.data[..k]))
  {
    hide FitsAt, Marshal;
    var limit, m, x := node.maxMessageSize, ServiceOf(node, u, cause), XUDTSOf(node, u, cause);
    FitLongest(limit, m, u.data);
    FitLongest(limit, x, u.data);
    FitsAtLength(limit, m, u.data[..k]);
    FitsAtLength(limit, x, u.data[..k]);
  }
}
