/** What becomes of a connection request that arrives: offered to a user, refused with a cause, or discarded. */
module ConnectionOffers {
  import opened Basics
  import opened Fields
  import opened Address
  import opened Messages
  import opened Reception
  import opened Connections
  import opened ConnectionRuns
  import Connectionless
  import ConnectionSending
  import References

  /** Class and source reference are as they must be. */
  predicate Proper(m: Message)
    requires m.CR?
  {
    (m.protocolClass.number == 2 || m.protocolClass.number == 3) && m.source < 0xff_ffff
  }

  /** The refusal cause that stands for a return cause. */
  function RefusalOf(cause: byte): byte {
    match cause
    case 12 => 0x10
    case 1 => 0x04
    case 4 => 0x13
    case 3 => 0x0a
    case _ => 0x0f
  }

  /** There is room for one more connection. */
  ghost predicate Room(cfg: Config, s: Sections) {
    Active(s) < cfg.maxConnections && exists ref: nat :: ref < 0xff_ffff && ref !in s
  }

  /** The label back to the node that the calling address names, or else to the one that sent the request. */
  predicate Back(routing: RoutingLabel, m: Message, l: RoutingLabel)
    requires m.CR?
  {
    && l.opc == routing.dpc && l.sls == routing.sls && l.ni == routing.ni
    && l.dpc as int
       == (if m.originating.Some? && m.originating.value.hasPointCode then m.originating.value.pointCode as int else routing.opc as int)
  }

  /** The request is answered by a CREF with the cause, and more is said. */
  predicate RefusedWith(routing: RoutingLabel, m: Message, outs: seq<Out>, cause: byte, more: seq<Out>)
    requires m.CR?
  {
    && |outs| > 0 && outs[1..] == more
    && outs[0].Sent? && Back(routing, m, outs[0].routing) && outs[0].message == CREF(m.source, cause, None, [], None, [])
  }

  lemma RoomExact(cfg: Config, s: Stack)
    ensures Candidate(cfg, s).Reference? <==> Room(cfg, s.sections)
    ensures var c := Candidate(cfg, s); c.Reference? ==> c.ref < LOCAL_REFERENCE_RESERVED && c.ref !in s.sections
  {
    hide Active, References.Candidates;
    References.CandidateExact(Active(s.sections), cfg.maxConnections, s.sections.Keys, s.next, LOCAL_REFERENCE_RESERVED);
  }

  /** A section in c2 for the peer that asks, and the indication that says what it asks for. */
  ghost predicate OfferedAs(s: Sections, s': Sections, outs: seq<Out>, ev: Event, ref: nat)
    requires ev.Arrival? && ev.m.CR?
  {
    && ref < 0xff_ffff && ref !in s && s'.Keys == s.Keys + {ref} && s' - {ref} == s
    && s'[ref].Incoming? && s'[ref].remoteRef == ev.m.source && Back(ev.routing, ev.m, s'[ref].remote)
    && outs == [Indicated(ConnectIndication(ev.routing, ref, ev.m.called, ev.m.originating, ev.m.data, ev.m.importance))]
  }

  /** What is due to a request, given the sections before and after. */
  ghost predicate Due(cfg: Config, s: Sections, s': Sections, outs: seq<Out>, ev: Event)
    requires ev.Arrival? && ev.m.CR?
  {
    var m, called, hops := ev.m, ev.m.called, ev.m.hopParam;
    if !Proper(m) || Incomplete(called, hops, ev.local) then s' == s && |outs| == 1 && outs[0].Discarded?
    else if Deliverable(called, hops, ev.local, ev.subsystems) then
      if Room(cfg, s) then exists ref :: OfferedAs(s, s', outs, ev, ref)
      else s' == s && RefusedWith(ev.routing, m, outs, 0x07, [])
    else
      exists cause ::
        && Fails(called, hops, ev.local, ev.subsystems, cause) && s' == s
        && RefusedWith(ev.routing, m, outs, RefusalOf(cause), if cause == 12 then [Indicated(HopCounterAlert(ev.routing))] else [])
  }

  /**
   * A connection request is offered to the user, under a reference that was free, exactly when its class and source
   * are proper, its called address names a subsystem here that can receive, and there is room for it. A request that
   * is not proper or whose address is incomplete is discarded; any other is answered by a CREF, for the first of the
   * conditions that fails: hop counter, translation, subsystem, room.
   */
  lemma OfferedExactly(cfg: Config, s: Stack, ev: Event)
    requires ConnectionSending.Real(cfg) && ValidSections(s.sections) && ev.Arrival? && ev.m.CR?
    ensures var (s', outs) := Step(cfg, s, ev); Due(cfg, s.sections, s'.sections, outs, ev)
  {
    hide ConnectionSending.Real, ValidSections, Candidate, Admits, Step, Fails, Deliverable, Incomplete, Room, Proper, Refuse, Offered;
    var m := ev.m;
    Decided(ev.routing, m, ev.local, ev.subsystems);
    RequestStep(cfg, s, ev);
    RoomExact(cfg, s);
    match Admits(ev.routing, m, ev.local, ev.subsystems) {
      case Dropped(_) =>
      case RefuseWith(c, alert) =>
        var cause :| Fails(m.called, m.hopParam, ev.local, ev.subsystems, cause) && Refuses(ev.routing, cause, c, alert);
        OneFate(m.called, m.hopParam, ev.local, ev.subsystems, cause, cause);
        SourceProper(m);
        RefusalAnswers(cfg, ev.routing, m, c);
        FirstOf(Refuse(cfg, ev.routing, m, c), alert);
      case Admit =>
        OneFate(m.called, m.hopParam, ev.local, ev.subsystems, 0, 0);
        SourceProper(m);
        if Candidate(cfg, s).Reference? {
          OfferedHere(cfg, s, ev, Candidate(cfg, s).ref);
        } else {
          RefusalAnswers(cfg, ev.routing, m, 0x07);
        }
    }
  }

  lemma SourceProper(m: Message)
    requires m.CR? && Proper(m)
    ensures m.source < LOCAL_REFERENCE_RESERVED
  {
  }

  lemma FirstOf(one: seq<Out>, more: seq<Out>)
    requires |one| == 1
    ensures (one + more)[0] == one[0] && (one + more)[1..] == more
  {
  }

  /** The refusal cause and the alert that go with a return cause. */
  predicate Refuses(routing: RoutingLabel, cause: byte, refusal: byte, alert: seq<Out>) {
    refusal == RefusalOf(cause) && refusal != 0xff && alert == if cause == 12 then [Indicated(HopCounterAlert(routing))] else []
  }

  /** What is decided before a reference is looked for, in terms of the request. */
  lemma Decided(routing: RoutingLabel, m: Message, local: bool, subsystems: map<byte, bool>)
    requires m.CR?
    ensures match Admits(routing, m, local, subsystems)
            case Dropped(outs) => (!Proper(m) || Incomplete(m.called, m.hopParam, local)) && |outs| == 1 && outs[0].Discarded?
            case RefuseWith(c, alert) =>
              Proper(m) && exists cause :: Fails(m.called, m.hopParam, local, subsystems, cause) && Refuses(routing, cause, c, alert)
            case Admit => Proper(m) && Deliverable(m.called, m.hopParam, local, subsystems)
  {
    hide Connectionless.Route, Connectionless.SubsystemCause, Fails, Deliverable, Incomplete;
    var hop: byte := if m.hopParam.Some? then m.hopParam.value else 0;
    RouteExact(m.called, hop, m.hopParam.Some?, local, subsystems);
    if Proper(m) {
      match Connectionless.Route(m.called, hop, m.hopParam.Some?, local) {
        case Discard(_) =>
        case Return(c) =>
          assert Refuses(routing, c, RoutingRefusal(c), if c == 12 then [Indicated(HopCounterAlert(routing))] else []);
        case Deliver(ssn) =>
          var c := Connectionless.SubsystemCause(subsystems, ssn);
          if c.Some? { assert Refuses(routing, c.value, RoutingRefusal(c.value), []); }
      }
    }
  }

  /** The step that a decision leads to. */
  lemma RequestStep(cfg: Config, s: Stack, ev: Event)
    requires ValidSections(s.sections) && ev.Arrival? && ev.m.CR?
    ensures match Admits(ev.routing, ev.m, ev.local, ev.subsystems)
            case Dropped(outs) => Step(cfg, s, ev) == (s, outs)
            case RefuseWith(cause, alert) => Step(cfg, s, ev) == (s, Refuse(cfg, ev.routing, ev.m, cause) + alert)
            case Admit =>
              match Candidate(cfg, s)
              case Refused(_) => Step(cfg, s, ev) == (s, Refuse(cfg, ev.routing, ev.m, RESOURCE_NOT_AVAILABLE_TRANSIENT))
              case Reference(ref) =>
                var r := Offered(ev.routing, ev.m, ref);
                Step(cfg, s, ev).0.sections == s.sections[ref := r.0] && Step(cfg, s, ev).1 == r.1
  {
    hide ValidSections, Candidate, Admits, Refuse, Offered;
  }

  lemma OfferedHere(cfg: Config, s: Stack, ev: Event, ref: nat)
    requires ev.Arrival? && ev.m.CR? && ref < LOCAL_REFERENCE_RESERVED && ref !in s.sections
    ensures var r := Offered(ev.routing, ev.m, ref); OfferedAs(s.sections, s.sections[ref := r.0], r.1, ev, ref)
  {
  }

  lemma RefusalAnswers(cfg: Config, routing: RoutingLabel, m: Message, cause: byte)
    requires ConnectionSending.Real(cfg) && m.CR? && m.source < LOCAL_REFERENCE_RESERVED && cause != 0xff
    ensures var outs := Refuse(cfg, routing, m, cause); |outs| == 1 && RefusedWith(routing, m, outs, cause, [])
  {
    hide ConnectionSending.Real;
    ConnectionSending.ShortFit(cfg, m.source, m.source, cause);
  }
}
