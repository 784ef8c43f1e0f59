/** All the connection sections of a node, and what every run of messages, timers and requests keeps. */
module ConnectionRuns {
  import opened Basics
  import opened Fields
  import opened Address
  import opened Messages
  import opened Connections
  import References

  type Sections = map<nat, Section>

  /** next is the reference after the last one registered, sls the next signalling link selection. */
  datatype Stack = Stack(sections: Sections, next: nat, sls: byte)

  datatype Event =
    | Arrival(now: nat, routing: RoutingLabel, m: Message, local: bool, subsystems: map<byte, bool>)
    | Timeout(now: nat, ref: nat, kind: TimerKind)
    | ConnectRequested(now: nat, request: ConnectRequest)
    | Accepted(now: nat, ref: nat, responding: Option<PartyAddress>, data: bytes, importance: Option<byte>)
    | DataRequested(now: nat, ref: nat, data: bytes)
    | DisconnectRequested(now: nat, ref: nat, disconnect: DisconnectRequest)

  // ----- Accounting -----

  function ActiveWeight(ref: nat, c: Section): nat { if c.Frozen? then 0 else 1 }

  function HeldWeight(ref: nat, c: Section): nat { if c.Established? then c.capacity else 0 }

  /** The sections in use. */
  ghost function Active(s: Sections): nat { Weigh(s, ActiveWeight) }

  /** The buffer capacity of all sections. */
  ghost function Held(s: Sections): nat { Weigh(s, HeldWeight) }

  ghost function Available(cfg: Config, s: Sections): nat {
    Max(cfg.maxOctets - Held(s), 0)
  }

  ghost function Candidate(cfg: Config, s: Stack): References.Chosen {
    References.Candidates(Active(s.sections), cfg.maxConnections, s.sections.Keys, s.next, LOCAL_REFERENCE_RESERVED)
  }

  // ----- One step -----

  /** What becomes of the section of one reference. */
  datatype Change = Change(ref: nat, section: Option<Section>)

  /** registered: the section is new. error: the request was refused. */
  datatype Effect = Effect(change: Option<Change>, registered: bool, outs: seq<Out>, error: Option<RequestError>)

  function Outputs(outs: seq<Out>): Effect { Effect(None, false, outs, None) }

  function Becomes(ref: nat, r: (Section, seq<Out>)): Effect { Effect(Some(Change(ref, Some(r.0))), false, r.1, None) }

  function Registers(ref: nat, r: (Section, seq<Out>)): Effect { Effect(Some(Change(ref, Some(r.0))), true, r.1, None) }

  function Error(e: RequestError): Effect { Effect(None, false, [], Some(e)) }

  function Answered(ref: nat, a: Answer<(Section, seq<Out>)>): Effect {
    match a
    case Done(r) => Becomes(ref, r)
    case Refused(e) => Error(e)
  }

  predicate ConnectionOriented(m: Message) {
    m.CR? || SectionMessage(m) || ClassThree(m)
  }

  ghost predicate ValidSections(s: Sections) {
    forall ref :: ref in s ==> ref < LOCAL_REFERENCE_RESERVED && (s[ref].Releasing? ==> s[ref].release.RLSD?)
  }

  ghost function RequestArrives(cfg: Config, s: Stack, ev: Event): Effect
    requires ev.Arrival? && ev.m.CR?
  {
    match Admits(ev.routing, ev.m, ev.local, ev.subsystems)
    case Dropped(outs) => Outputs(outs)
    case RefuseWith(cause, alert) => Outputs(Refuse(cfg, ev.routing, ev.m, cause) + alert)
    case Admit =>
      match Candidate(cfg, s)
      case Refused(_) => Outputs(Refuse(cfg, ev.routing, ev.m, RESOURCE_NOT_AVAILABLE_TRANSIENT))
      case Reference(ref) => Registers(ref, Offered(ev.routing, ev.m, ref))
  }

  ghost function MessageArrives(cfg: Config, s: Stack, ev: Event): Effect
    requires ev.Arrival? && SectionMessage(ev.m) && ValidSections(s.sections)
  {
    var ref: nat := DestinationOf(ev.m);
    if ref !in s.sections || s.sections[ref].Frozen? then Outputs(Unassigned(cfg, ev.routing, ev.m))
    else Becomes(ref, Connections.Receive(cfg, ref, s.sections[ref], ev.now, ev.routing, ev.m, Available(cfg, s.sections)))
  }

  ghost function Arrives(cfg: Config, s: Stack, ev: Event): Effect
    requires ev.Arrival? && ValidSections(s.sections)
  {
    if !ConnectionOriented(ev.m) then Outputs([])
    else if ClassThree(ev.m) then Outputs([Discarded(ev.routing, TypeOf(ev.m), NotSupported)])
    else if InvalidParameter(ev.m) then Outputs([Discarded(ev.routing, TypeOf(ev.m), SyntaxError)])
    else if ev.m.CR? then RequestArrives(cfg, s, ev)
    else if ReservedReference(ev.m) then Outputs([Discarded(ev.routing, TypeOf(ev.m), SyntaxError)])
    else MessageArrives(cfg, s, ev)
  }

  predicate Due(s: Sections, now: nat, ref: nat, kind: TimerKind) {
    ref in s && kind in Deadlines(s[ref]) && Deadlines(s[ref])[kind] <= now
  }

  ghost function Connects(cfg: Config, s: Stack, ev: Event): Effect
    requires ev.ConnectRequested?
  {
    if !Connectable(cfg, ev.request) then Error(InvalidRequest)
    else match Candidate(cfg, s)
         case Refused(_) => Error(InvalidRequest)
         case Reference(ref) =>
           match Connections.Connect(cfg, ev.request, ref, s.sls, ev.now)
           case Refused(e) => Error(e)
           case Done(r) => Registers(ref, r)
  }

  /** A timer that is not running, or not due, does nothing. */
  ghost function EffectOf(cfg: Config, s: Stack, ev: Event): Effect
    requires ValidSections(s.sections)
  {
    match ev
    case Arrival(_, _, _, _, _) => Arrives(cfg, s, ev)
    case Timeout(now, ref, kind) =>
      if !Due(s.sections, now, ref, kind) then Outputs([]) else
      var r := Connections.Fire(cfg, ref, s.sections[ref], kind, now);
      Effect(Some(Change(ref, r.0)), false, r.1, None)
    case ConnectRequested(_, _) => Connects(cfg, s, ev)
    case Accepted(now, ref, responding, data, importance) =>
      if ref !in s.sections then Error(NotFoundError)
      else Answered(ref, Connections.Accept(cfg, ref, s.sections[ref], responding, data, importance, now))
    case DataRequested(now, ref, data) =>
      if ref !in s.sections then Error(NotFoundError)
      else Answered(ref, Connections.SendData(cfg, s.sections[ref], data, now))
    case DisconnectRequested(now, ref, req) =>
      if ref !in s.sections then Error(NotFoundError)
      else Answered(ref, Connections.Disconnect(cfg, ref, s.sections[ref], req, now))
  }

  function Apply(s: Stack, ev: Event, e: Effect): Stack {
    match e.change
    case None => s
    case Some(Change(ref, c)) =>
      Stack(if c.Some? then s.sections[ref := c.value] else s.sections - {ref},
            if e.registered then ref + 1 else s.next,
            if ev.ConnectRequested? then (s.sls + 1) % 16 else s.sls)
  }

  ghost function Step(cfg: Config, s: Stack, ev: Event): (Stack, seq<Out>)
    requires ValidSections(s.sections)
  {
    (Apply(s, ev, EffectOf(cfg, s, ev)), EffectOf(cfg, s, ev).outs)
  }

  // ----- What every step keeps -----

  /** References are never the reserved one; buffers stay within their bound; T(int) outlasts every repetition. */
  predicate GoodSection(cfg: Config, ref: nat, c: Section) {
    && ref < LOCAL_REFERENCE_RESERVED
    && match c
       case Incoming(remoteRef, _) => remoteRef < LOCAL_REFERENCE_RESERVED
       case Outgoing(_, _, _) => true
       case Established(remoteRef, _, _, _, data, capacity) =>
         remoteRef < LOCAL_REFERENCE_RESERVED && |data| <= capacity <= cfg.maxDataLength
       case Releasing(remoteRef, _, m, wait) =>
         && remoteRef < LOCAL_REFERENCE_RESERVED && m.RLSD? && m.destination == remoteRef && m.source == ref && m.raw == []
         && (wait.Repeating? && wait.repeat.Some? ==> wait.repeat.value < wait.giveUp)
       case Frozen(_) => true
  }

  /** The sections in use and the octets they hold stay within their bounds. */
  ghost predicate Bounded(cfg: Config, s: Sections) {
    Active(s) <= cfg.maxConnections && Held(s) <= cfg.maxOctets
  }

  ghost predicate Good(cfg: Config, s: Stack) {
    && s.sls < 16 && Bounded(cfg, s.sections)
    && forall ref :: ref in s.sections ==> GoodSection(cfg, ref, s.sections[ref])
  }

  lemma GoodIsValid(cfg: Config, s: Stack)
    requires Good(cfg, s)
    ensures ValidSections(s.sections)
  {
    forall ref | ref in s.sections
      ensures ref < LOCAL_REFERENCE_RESERVED && (s.sections[ref].Releasing? ==> s.sections[ref].release.RLSD?)
    {
      assert GoodSection(cfg, ref, s.sections[ref]);
    }
  }

  // The section after one event about it.

  lemma GrownBounds(cfg: Config, capacity: nat, length: nat, available: nat)
    requires capacity <= cfg.maxDataLength && length <= cfg.maxDataLength
    ensures match Grown(cfg, capacity, length, available)
            case Some(n) => capacity <= n <= cfg.maxDataLength && length <= n && n - capacity <= available
            case None => length > capacity && length - capacity > available
  {
  }

  /** A DT1 is refused for want of room exactly when the octets themselves do not fit. */
  lemma RefusedExactly(cfg: Config, capacity: nat, length: nat, available: nat)
    requires capacity <= cfg.maxDataLength && length <= cfg.maxDataLength
    ensures Grown(cfg, capacity, length, available) == None <==> length > capacity + available
  {
  }

  lemma ReceiveGood(cfg: Config, ref: u32, c: Section, now: nat, routing: RoutingLabel, m: Message, available: nat)
    requires SectionMessage(m) && !c.Frozen? && GoodSection(cfg, ref, c) && !ReservedReference(m)
    ensures var c' := Connections.Receive(cfg, ref, c, now, routing, m, available).0;
            && GoodSection(cfg, ref, c')
            && HeldWeight(ref, c') <= HeldWeight(ref, c) + available
  {
    if c.Established? && m.DT1? && |m.data| + |c.data| <= cfg.maxDataLength {
      GrownBounds(cfg, c.capacity, |c.data| + |m.data|, available);
    }
  }

  lemma FireGood(cfg: Config, ref: u32, c: Section, kind: TimerKind, now: nat)
    requires GoodSection(cfg, ref, c) && kind in Deadlines(c)
    ensures var r := Connections.Fire(cfg, ref, c, kind, now).0;
            && (r == None <==> c.Frozen?)
            && (r.Some? ==> GoodSection(cfg, ref, r.value) && HeldWeight(ref, r.value) <= HeldWeight(ref, c))
            && (r.Some? ==> ActiveWeight(ref, r.value) <= ActiveWeight(ref, c))
  {
  }

  lemma RequestGood(cfg: Config, ref: u32, c: Section, ev: Event)
    requires GoodSection(cfg, ref, c)
    ensures match ev
            case Accepted(now, _, responding, data, importance) =>
              Kept(cfg, ref, c, Connections.Accept(cfg, ref, c, responding, data, importance, now))
            case DataRequested(now, _, data) => Kept(cfg, ref, c, Connections.SendData(cfg, c, data, now))
            case DisconnectRequested(now, _, req) => Kept(cfg, ref, c, Connections.Disconnect(cfg, ref, c, req, now))
            case _ => true
  {
  }

  /** A request that is accepted leaves a good section, no larger, that was in use. */
  predicate Kept(cfg: Config, ref: u32, c: Section, a: Answer<(Section, seq<Out>)>) {
    a.Done? ==> !c.Frozen? && GoodSection(cfg, ref, a.value.0) && HeldWeight(ref, a.value.0) <= HeldWeight(ref, c)
  }

  function WeightAt(s: Sections, ref: nat, w: (nat, Section) -> nat): nat {
    if ref in s then w(ref, s[ref]) else 0
  }

  /** An effect that keeps the stack good: what it puts at a reference is good and finds room. */
  ghost predicate Acceptable(cfg: Config, s: Sections, e: Effect) {
    e.change.Some? ==>
      var (ref, c) := (e.change.value.ref, e.change.value.section);
      && (e.registered ==> ref !in s && c.Some? && Active(s) < cfg.maxConnections)
      && (!e.registered ==> ref in s && (s[ref].Frozen? <==> c == None))
      && (c.Some? ==>
            && GoodSection(cfg, ref, c.value)
            && HeldWeight(ref, c.value) <= WeightAt(s, ref, HeldWeight) + Available(cfg, s))
  }

  lemma ArrivalAcceptable(cfg: Config, s: Stack, ev: Event)
    requires Good(cfg, s) && ev.Arrival? && ValidSections(s.sections)
    ensures Acceptable(cfg, s.sections, Arrives(cfg, s, ev))
  {
    hide Connections.Receive, Active, Held, Admits;
    References.CandidateExact(Active(s.sections), cfg.maxConnections, s.sections.Keys, s.next, LOCAL_REFERENCE_RESERVED);
    if SectionMessage(ev.m) && !ReservedReference(ev.m) {
      var ref: nat := DestinationOf(ev.m);
      if ref in s.sections && !s.sections[ref].Frozen? {
        assert GoodSection(cfg, ref, s.sections[ref]);
        ReceiveGood(cfg, ref, s.sections[ref], ev.now, ev.routing, ev.m, Available(cfg, s.sections));
      }
    } else if ev.m.CR? {
      AdmittedGood(cfg, ev.routing, ev.m, ev.local, ev.subsystems);
    }
  }

  lemma AdmittedGood(cfg: Config, routing: RoutingLabel, m: Message, local: bool, subsystems: map<byte, bool>)
    requires m.CR?
    ensures Admits(routing, m, local, subsystems).Admit? ==> m.source < LOCAL_REFERENCE_RESERVED
  {
  }

  lemma EffectAcceptable(cfg: Config, s: Stack, ev: Event)
    requires Good(cfg, s) && ValidSections(s.sections)
    ensures Acceptable(cfg, s.sections, EffectOf(cfg, s, ev))
  {
    hide Connections.Connect, Connections.Accept, Connections.SendData, Connections.Disconnect, Connections.Fire, Active, Held, Arrives, Connectable;
    match ev {
      case Arrival(_, _, _, _, _) => ArrivalAcceptable(cfg, s, ev);
      case Timeout(now, ref, kind) =>
        if Due(s.sections, now, ref, kind) {
          assert GoodSection(cfg, ref, s.sections[ref]);
          FireGood(cfg, ref, s.sections[ref], kind, now);
        }
      case ConnectRequested(now, req) =>
        References.CandidateExact(Active(s.sections), cfg.maxConnections, s.sections.Keys, s.next, LOCAL_REFERENCE_RESERVED);
        if Connectable(cfg, req) {
          ConnectGood(cfg, s, req, now);
        }
      case Accepted(_, ref, _, _, _) =>
        if ref in s.sections {
          assert GoodSection(cfg, ref, s.sections[ref]);
          RequestGood(cfg, ref, s.sections[ref], ev);
        }
      case DataRequested(_, ref, _) =>
        if ref in s.sections {
          assert GoodSection(cfg, ref, s.sections[ref]);
          RequestGood(cfg, ref, s.sections[ref], ev);
        }
      case DisconnectRequested(_, ref, _) =>
        if ref in s.sections {
          assert GoodSection(cfg, ref, s.sections[ref]);
          RequestGood(cfg, ref, s.sections[ref], ev);
        }
    }
  }

  lemma ConnectGood(cfg: Config, s: Stack, req: ConnectRequest, now: nat)
    requires Connectable(cfg, req)
    ensures forall ref: u32 :: ref < LOCAL_REFERENCE_RESERVED ==>
              var a := Connections.Connect(cfg, req, ref, s.sls, now);
              a.Done? ==> GoodSection(cfg, ref, a.value.0) && HeldWeight(ref, a.value.0) == 0
  {
  }

  lemma StepKeepsGood(cfg: Config, s: Stack, ev: Event)
    requires Good(cfg, s) && ValidSections(s.sections)
    ensures Good(cfg, Step(cfg, s, ev).0)
  {
    hide EffectOf, ActiveWeight, HeldWeight, GoodSection;
    EffectAcceptable(cfg, s, ev);
    var e := EffectOf(cfg, s, ev);
    if e.change.Some? {
      var (ref, c) := (e.change.value.ref, e.change.value.section);
      WeighPut(s.sections, ref, c, ActiveWeight);
      WeighPut(s.sections, ref, c, HeldWeight);
      ActiveWeights(s.sections, ref, c);
    }
  }

  lemma ActiveWeights(s: Sections, ref: nat, c: Option<Section>)
    ensures c.Some? ==> ActiveWeight(ref, c.value) <= 1
    ensures ref in s && !s[ref].Frozen? ==> ActiveWeight(ref, s[ref]) == 1
  {
  }

  // ----- Runs -----

  /** The stack after the first i events, from one with no connections. */
  ghost function StackAt(cfg: Config, evs: seq<Event>, i: nat): (s: Stack)
    requires i <= |evs|
    ensures Good(cfg, s) && ValidSections(s.sections)
  {
    if i == 0 then
      NothingGood(cfg);
      Stack(map[], 1, 0)
    else
      var before := StackAt(cfg, evs, i - 1);
      StepKeepsGood(cfg, before, evs[i - 1]);
      GoodIsValid(cfg, Step(cfg, before, evs[i - 1]).0);
      Step(cfg, before, evs[i - 1]).0
  }

  lemma NothingGood(cfg: Config)
    ensures Good(cfg, Stack(map[], 1, 0)) && ValidSections(map[])
  {
  }

  ghost function OutsAt(cfg: Config, evs: seq<Event>, i: nat): seq<Out>
    requires i < |evs|
  {
    Step(cfg, StackAt(cfg, evs, i), evs[i]).1
  }

  lemma NextStack(cfg: Config, evs: seq<Event>, i: nat)
    requires i < |evs|
    ensures StackAt(cfg, evs, i + 1) == Step(cfg, StackAt(cfg, evs, i), evs[i]).0
  {
    hide Step;
  }

  /**
   * Accounting in every reachable state: the sections in use are at most maxConnections, the buffers of all sections
   * together at most maxOctets and each at most maxDataLength, and no reference is the reserved one.
   */
  lemma ReachableIsGood(cfg: Config, evs: seq<Event>)
    ensures var s := StackAt(cfg, evs, |evs|).sections;
            && Active(s) <= cfg.maxConnections && Held(s) <= cfg.maxOctets
            && forall ref :: ref in s ==> GoodSection(cfg, ref, s[ref])
  {
  }

  /**
   * The timers of each state, in every reachable state: c2 runs none, c3 T(conn est), c4 both inactivity timers, c6
   * either T(rel) alone or T(int) with at most one repetition, which is due strictly before T(int) ends.
   */
  lemma TimersOfStates(cfg: Config, evs: seq<Event>, ref: nat)
    requires ref in StackAt(cfg, evs, |evs|).sections
    ensures var c := StackAt(cfg, evs, |evs|).sections[ref];
            var d := Deadlines(c);
            && (c.Incoming? <==> d.Keys == {})
            && (c.Outgoing? <==> d.Keys == {TEstablishment})
            && (c.Established? <==> d.Keys == {TSend, TReceive})
            && (c.Releasing? <==> d.Keys == {TRelease} || d.Keys == {TGiveUp} || d.Keys == {TGiveUp, TRepeat})
            && (c.Frozen? <==> d.Keys == {TUnfreeze})
            && (TRepeat in d ==> TGiveUp in d && d[TRepeat] < d[TGiveUp])
  {
    hide StackAt;
    var c := StackAt(cfg, evs, |evs|).sections[ref];
    assert GoodSection(cfg, ref, c);
    KeysOfStates(c);
  }

  lemma KeysOfStates(c: Section)
    ensures match c
            case Incoming(_, _) => Deadlines(c).Keys == {}
            case Outgoing(_, _, _) => Deadlines(c).Keys == {TEstablishment}
            case Established(_, _, _, _, _, _) => Deadlines(c).Keys == {TSend, TReceive}
            case Releasing(_, _, _, First(_)) => Deadlines(c).Keys == {TRelease}
            case Releasing(_, _, _, Repeating(_, None)) => Deadlines(c).Keys == {TGiveUp}
            case Releasing(_, _, _, Repeating(_, Some(_))) => Deadlines(c).Keys == {TGiveUp, TRepeat}
            case Frozen(_) => Deadlines(c).Keys == {TUnfreeze}
  {
  }

  /** A section that leaves data transfer gives its whole capacity back to the others in that very step. */
  lemma ReleaseGivesBack(cfg: Config, s: Stack, ev: Event, ref: nat)
    requires ValidSections(s.sections) && ref in s.sections && s.sections[ref].Established?
    ensures var s' := Step(cfg, s, ev).0.sections;
            !(ref in s' && s'[ref].Established?) ==> Held(s') + s.sections[ref].capacity == Held(s.sections)
  {
    hide EffectOf, ValidSections;
    var e := EffectOf(cfg, s, ev);
    if e.change.Some? {
      WeighPut(s.sections, e.change.value.ref, e.change.value.section, HeldWeight);
    }
  }
}
