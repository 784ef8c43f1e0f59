/** Where a received message goes, said of its called address, the hops it has left and the subsystems that are there. */
module Reception {
  import opened Basics
  import opened Fields
  import opened Address
  import opened Messages
  import opened Reassembly
  import opened ReassemblyRuns
  import opened ReassemblyReturns
  import opened Connectionless

  /** A hop counter, if the message has one, does not end its way here. */
  predicate HopsLeft(hops: Option<byte>) { hops.Some? ==> hops.value > 1 }

  /** The called address names a subsystem of this node. */
  predicate Names(called: PartyAddress, hops: Option<byte>, local: bool) {
    called.hasSSN && called.ssn != 0 && (called.routeOnSSN || (called.globalTitle.Some? && local && HopsLeft(hops)))
  }

  /** The called address is to be translated: it is routed on its global title, or on SSN 0. */
  predicate Translates(called: PartyAddress) {
    called.globalTitle.Some? && (called.routeOnSSN ==> called.hasSSN && called.ssn == 0)
  }

  /** The message reaches a subsystem that can receive. */
  predicate Deliverable(called: PartyAddress, hops: Option<byte>, local: bool, subsystems: map<byte, bool>) {
    Names(called, hops, local) && called.ssn in subsystems && subsystems[called.ssn]
  }

  /** It does not, for the reason that has this return cause: hop counter, translation, missing or failed subsystem. */
  predicate Fails(called: PartyAddress, hops: Option<byte>, local: bool, subsystems: map<byte, bool>, cause: byte) {
    match cause
    case 12 => Translates(called) && !HopsLeft(hops)
    case 1 => Translates(called) && HopsLeft(hops) && (!local || !called.hasSSN || called.ssn == 0)
    case 4 => Names(called, hops, local) && called.ssn !in subsystems
    case 3 => Names(called, hops, local) && called.ssn in subsystems && !subsystems[called.ssn]
    case _ => false
  }

  /** The address is neither: it names no subsystem and has nothing to translate. */
  predicate Incomplete(called: PartyAddress, hops: Option<byte>, local: bool) {
    !Names(called, hops, local) && !Translates(called)
  }

  /** What is decided about an address, in these terms; each of them excludes the others. */
  lemma RouteExact(called: PartyAddress, hop: byte, hasHop: bool, local: bool, subsystems: map<byte, bool>)
    ensures var hops := if hasHop then Some(hop) else None;
            match Route(called, hop, hasHop, local)
            case Discard(_) => Incomplete(called, hops, local)
            case Return(cause) => Fails(called, hops, local, subsystems, cause) && (cause == 12 || cause == 1)
            case Deliver(ssn) =>
              && ssn == called.ssn && Names(called, hops, local)
              && match SubsystemCause(subsystems, ssn)
                 case None => Deliverable(called, hops, local, subsystems)
                 case Some(cause) => Fails(called, hops, local, subsystems, cause) && (cause == 4 || cause == 3)
  {
  }

  lemma OneFate(called: PartyAddress, hops: Option<byte>, local: bool, subsystems: map<byte, bool>, cause: byte, other: byte)
    ensures Fails(called, hops, local, subsystems, cause) ==>
              && !Deliverable(called, hops, local, subsystems) && !Incomplete(called, hops, local)
              && (Fails(called, hops, local, subsystems, other) ==> other == cause)
    ensures Deliverable(called, hops, local, subsystems) ==> !Incomplete(called, hops, local)
  {
  }

  function HopsOf(u: Unitdata): Option<byte> { if u.hasHop then Some(u.hop) else None }

  /** The message is one of the segments of a longer one. */
  predicate OneOfMany(u: Unitdata) {
    u.segmentation.Some? && (!u.segmentation.value.first || u.segmentation.value.remaining != 0)
  }

  /** Protocol class and user data are as they must be. */
  predicate WellFormed(u: Unitdata) {
    u.protocolClass.number <= 1 && |u.data| > 0
  }

  /**
   * A received message is delivered exactly when it is well formed and deliverable; it is returned exactly when it is
   * well formed, fails and asks for it, with the cause for which it fails; maintenance is told of a hop counter that
   * has run out. A message that is one of many goes to reassembly instead, once its address names a subsystem.
   */
  lemma HandledExactly(cfg: Config, t: Table, now: nat, u: Unitdata, local: bool, subsystems: map<byte, bool>, cause: byte)
    requires ValidTable(t)
    ensures var (t', outs) := Handle(cfg, t, now, u, local, subsystems);
            && (!WellFormed(u) || Incomplete(u.called, HopsOf(u), local) ==> t' == t && |outs| == 1 && outs[0].Discarded?)
            && (WellFormed(u) && Deliverable(u.called, HopsOf(u), local, subsystems) ==>
                  if OneOfMany(u) then (t', outs) == Receive(cfg, t, now, u, None)
                  else t' == t && outs == [Delivered(Indication(u.routing, u.typ, u.called, u.calling, u.protocolClass.number,
                                                               u.protocolClass.returnOnError, u.importance, u.data, 1))])
            && (WellFormed(u) && Fails(u.called, HopsOf(u), local, subsystems, cause) ==>
                  if OneOfMany(u) && (cause == 3 || cause == 4) then (t', outs) == Receive(cfg, t, now, u, Some(cause))
                  else && t' == t && ReturnsIf(outs, u.protocolClass.returnOnError, u, cause)
                       && (Alerted(u.routing, u.typ) in outs <==> cause == 12))
  {
    hide Receive, ValidTable, Route, SubsystemCause, Fails, Deliverable, Incomplete, Names;
    RouteExact(u.called, u.hop, u.hasHop, local, subsystems);
    OneFate(u.called, HopsOf(u), local, subsystems, cause, 0);
    match Route(u.called, u.hop, u.hasHop, local) {
      case Return(c) =>
        OneFate(u.called, HopsOf(u), local, subsystems, c, cause);
        RejectReturned(u, u.protocolClass.returnOnError, c, Undeliverable(c), Alert(u, c));
      case Deliver(ssn) =>
        var c := SubsystemCause(subsystems, ssn);
        if c.Some? {
          OneFate(u.called, HopsOf(u), local, subsystems, c.value, cause);
          RejectReturned(u, u.protocolClass.returnOnError, c.value, Undeliverable(c.value), []);
          var outs := Reject(u, u.protocolClass.returnOnError, c.value, Undeliverable(c.value));
          assert outs + [] == outs;
        }
      case Discard(_) =>
    }
  }
}
