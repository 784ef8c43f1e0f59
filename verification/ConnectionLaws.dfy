/**
 * What each event does to a connection, said of the event itself: when a connection ends and what its user is told,
 * what is sent to the peer, and which timers run from when.
 */
module ConnectionLaws {
  import opened Basics
  import opened Fields
  import opened Address
  import opened Messages
  import opened Connections
  import opened ConnectionRuns
  import opened ConnectionSending
  import ConnectionUsers
  import References

  // ----- Events -----

  /** A message that is as it must be arrives for the section of reference r. */
  predicate Addressed(ev: Event, r: nat) {
    && ev.Arrival?
    && match ev.m
       case CC(destination, source, pc, _, _, _, _, _) =>
         destination as nat == r && source < 0xff_ffff && (pc.number == 2 || pc.number == 3)
       case CREF(destination, _, _, _, _, _) => destination as nat == r
       case RLSD(destination, source, _, _, _, _) => destination as nat == r && source < 0xff_ffff
       case RLC(destination, source) => destination as nat == r && source < 0xff_ffff
       case DT1(destination, _, data) => destination as nat == r && |data| > 0
       case ERR(destination, _, _) => destination as nat == r
       case IT(destination, source, pc, _, _) => destination as nat == r && source < 0xff_ffff && (pc.number == 2 || pc.number == 3)
       case _ => false
  }

  /** It comes from the node of the section's peer. */
  predicate FromNode(ev: Event, c: Section)
    requires ev.Arrival? && (c.Incoming? || c.Established? || c.Releasing?)
  {
    ev.routing.opc == c.remote.dpc && ev.routing.ni == c.remote.ni
  }

  /** Timer kind of section r fires. */
  predicate Fires(s: Sections, ev: Event, r: nat, kind: TimerKind) {
    ev.Timeout? && ev.ref == r && ev.kind == kind && Due(s, ev.now, r, kind)
  }

  // ----- The end of a connection -----

  /** The event ends the connection of section c for its user, who did not ask for it. */
  ghost predicate EndsBy(cfg: Config, s: Sections, r: nat, ev: Event)
    requires r in s
  {
    var c := s[r];
    match c
    case Incoming(remoteRef, _) =>
      Addressed(ev, r) && FromNode(ev, c) && ev.m.IT? && ev.m.source != remoteRef
    case Outgoing(_, _, _) =>
      Fires(s, ev, r, TEstablishment) || (Addressed(ev, r) && !(ev.m.CC? && ev.m.protocolClass.number == 2))
    case Established(remoteRef, _, _, _, data, capacity) =>
      || Fires(s, ev, r, TReceive)
      || (Addressed(ev, r) && FromNode(ev, c)
          && match ev.m
             case RLSD(_, source, _, _, _, _) => source == remoteRef
             case ERR(_, _, _) => true
             case IT(_, source, pc, _, _) => source != remoteRef || pc.number != 2
             case DT1(_, _, more) => |data| + |more| > cfg.maxDataLength || |data| + |more| > capacity + Available(cfg, s)
             case _ => false)
    case _ => false
  }

  /** What an N-DISCONNECT indication says. */
  datatype Ending = Ending(originator: Originator, refused: bool, cause: byte, responding: Option<PartyAddress>, data: bytes)

  /** What the user is told of an end that such an event brings. */
  function EndOf(cfg: Config, c: Section, ev: Event): Ending {
    if ev.Timeout? then Ending(Provider, c.Outgoing?, if c.Outgoing? then 0x0c else 0x0d, None, [])
    else if !ev.Arrival? then Ending(Provider, false, 0, None, [])
    else if c.Outgoing? then
      match ev.m
      case CREF(_, cause, responding, data, _, _) => Ending(Refuser(cause), true, cause, responding, data)
      case CC(_, _, _, _, _, _, _, _) => Ending(Provider, false, 0x04, None, [])
      case _ => Ending(Provider, true, 0x0f, None, [])
    else
      match ev.m
      case RLSD(_, _, cause, data, _, _) => Ending(Releaser(cause), false, cause, None, data)
      case ERR(_, cause, _) => Ending(Provider, false, if cause == 3 then 0x05 else 0x04, None, [])
      case IT(_, _, _, _, _) => Ending(Provider, false, 0x05, None, [])
      case DT1(_, _, data) =>
        Ending(Provider, false, if c.Established? && |c.data| + |data| > cfg.maxDataLength then 0x04 else 0x0b, None, [])
      case _ => Ending(Provider, false, 0, None, [])
  }

  function Told(r: nat, e: Ending): Out {
    Indicated(DisconnectIndication(r, e.originator, e.refused, e.cause, e.responding, e.data))
  }

  /** The provider's release of section r: RLSD with the cause goes to the peer, T(rel) runs, and the user is told. */
  predicate ProviderReleases(cfg: Config, r: u32, remoteRef: u32, remote: RoutingLabel, now: nat, cause: byte, c': Section, outs: seq<Out>) {
    var m := RLSD(remoteRef, r, cause, [], None, []);
    && c' == Releasing(remoteRef, remote, m, First(now + cfg.release))
    && |outs| >= 2 && outs[|outs| - 2..] == [Sent(remote, m), Told(r, Ending(Provider, false, cause, None, []))]
  }

  /** What becomes of the section, and what its peer is sent, at such an end. */
  predicate EndsAs(cfg: Config, r: u32, c: Section, ev: Event, c': Section, outs: seq<Out>)
  {
    if c.Outgoing? && ev.Arrival? && ev.m.CC? then
      ProviderReleases(cfg, r, ev.m.source, c.remote.(dpc := ev.routing.opc, ni := ev.routing.ni), ev.now, 0x04, c', outs)
    else if c.Outgoing? then
      && c' == Frozen(ev.now + cfg.freeze)
      && (ev.Arrival? && ev.m.RLSD? ==> Sent(ReplyLabel(ev.routing), RLC(ev.m.source, r)) in outs)
    else if c.Established? && ev.Arrival? && ev.m.RLSD? then
      c' == Frozen(ev.now + cfg.freeze) && Sent(c.remote, RLC(c.remoteRef, r)) in outs
    else if c.Established? && ev.Arrival? && ev.m.ERR? && ev.m.cause != 3 then
      c' == Frozen(ev.now + cfg.freeze)
    else
      (c.Established? || c.Incoming?) && ProviderReleases(cfg, r, c.remoteRef, c.remote, ev.now, EndOf(cfg, c, ev).cause, c', outs)
  }

  lemma ReleaseSends(cfg: Config, r: u32, remoteRef: u32, remote: RoutingLabel, now: nat, cause: byte, before: seq<Out>)
    requires Real(cfg) && r < LOCAL_REFERENCE_RESERVED && remoteRef < LOCAL_REFERENCE_RESERVED && cause != 0xff
    ensures var (c', outs) := ProviderRelease(cfg, r, remoteRef, remote, cause, now);
            && ProviderReleases(cfg, r, remoteRef, remote, now, cause, c', before + outs)
            && ProviderReleases(cfg, r, remoteRef, remote, now, cause, c', outs)
            && Told(r, Ending(Provider, false, cause, None, [])) in before + outs
  {
    hide Real;
    ShortFit(cfg, remoteRef, r, cause);
    var outs := ProviderRelease(cfg, r, remoteRef, remote, cause, now).1;
    assert |outs| == 2 && outs[0..] == outs;
    assert (before + outs)[|before + outs| - 2..] == outs;
    assert (before + outs)[|before| + 1] == outs[1];
  }

  /** In c3. */
  lemma SetupEnds(cfg: Config, r: u32, c: Section, ev: Event)
    requires Real(cfg) && r < LOCAL_REFERENCE_RESERVED && c.Outgoing? && c.disconnect == None && Addressed(ev, r)
    ensures var (c', outs) := Setup(cfg, r, c, ev.now, ev.routing, ev.m);
            if ev.m.CC? && ev.m.protocolClass.number == 2 then !ConnectionUsers.Quiet(c')
            else ConnectionUsers.Quiet(c') && EndsAs(cfg, r, c, ev, c', outs) && Told(r, EndOf(cfg, c, ev)) in outs
  {
    hide Real, ProviderRelease, ProviderReleases;
    if ev.m.CC? {
      ReleaseSends(cfg, r, ev.m.source, c.remote.(dpc := ev.routing.opc, ni := ev.routing.ni), ev.now, 0x04,
                   [Discarded(ev.routing, TCC, WrongState)]);
      IsReleasing(cfg, r, ev.m.source, c.remote.(dpc := ev.routing.opc, ni := ev.routing.ni), 0x04, ev.now);
    } else if ev.m.RLSD? {
      ShortFit(cfg, ev.m.source, r, 0);
      var outs := Setup(cfg, r, c, ev.now, ev.routing, ev.m).1;
      assert outs[1] == Sent(ReplyLabel(ev.routing), RLC(ev.m.source, r));
      assert outs[2] == Told(r, EndOf(cfg, c, ev));
    } else if ev.m.CREF? {
      assert Setup(cfg, r, c, ev.now, ev.routing, ev.m).1[0] == Told(r, EndOf(cfg, c, ev));
    } else {
      assert Setup(cfg, r, c, ev.now, ev.routing, ev.m).1[1] == Told(r, EndOf(cfg, c, ev));
    }
  }

  lemma IsReleasing(cfg: Config, r: u32, remoteRef: u32, remote: RoutingLabel, cause: byte, now: nat)
    ensures ProviderRelease(cfg, r, remoteRef, remote, cause, now).0.Releasing?
  {
  }

  /** In c4, from the peer's node and with its reference. */
  lemma TransferEnds(cfg: Config, r: u32, c: Section, ev: Event, available: nat)
    requires Real(cfg) && r < LOCAL_REFERENCE_RESERVED && c.Established? && c.remoteRef < LOCAL_REFERENCE_RESERVED
    requires c.capacity <= cfg.maxDataLength && Addressed(ev, r)
    ensures var (c', outs) := Transferring(cfg, r, c, ev.now, ev.routing, ev.m, available);
            var ends := match ev.m
                        case RLSD(_, _, _, _, _, _) => true
                        case ERR(_, _, _) => true
                        case IT(_, _, pc, _, _) => pc.number != 2
                        case DT1(_, _, data) => |c.data| + |data| > cfg.maxDataLength || |c.data| + |data| > c.capacity + available
                        case _ => false;
            if ends then ConnectionUsers.Quiet(c') && EndsAs(cfg, r, c, ev, c', outs) && Told(r, EndOf(cfg, c, ev)) in outs
            else c'.Established?
  {
    hide Real, ProviderRelease, ProviderReleases;
    match ev.m {
      case DT1(_, _, data) =>
        if |c.data| + |data| <= cfg.maxDataLength {
          RefusedExactly(cfg, c.capacity, |c.data| + |data|, available);
        }
        ReleaseSends(cfg, r, c.remoteRef, c.remote, ev.now, 0x04, [Discarded(ev.routing, TDT1, TooLong)]);
        ReleaseSends(cfg, r, c.remoteRef, c.remote, ev.now, 0x0b, [Discarded(ev.routing, TDT1, NoCapacity)]);
        IsReleasing(cfg, r, c.remoteRef, c.remote, 0x04, ev.now);
        IsReleasing(cfg, r, c.remoteRef, c.remote, 0x0b, ev.now);
      case RLSD(_, _, _, _, _, _) =>
        ShortFit(cfg, c.remoteRef, r, 0);
        var outs := Transferring(cfg, r, c, ev.now, ev.routing, ev.m, available).1;
        assert outs[0] == Sent(c.remote, RLC(c.remoteRef, r)) && outs[1] == Told(r, EndOf(cfg, c, ev));
      case ERR(_, cause, _) =>
        ReleaseSends(cfg, r, c.remoteRef, c.remote, ev.now, 0x05, []);
        IsReleasing(cfg, r, c.remoteRef, c.remote, 0x05, ev.now);
        var outs := ProviderRelease(cfg, r, c.remoteRef, c.remote, 0x05, ev.now).1;
        assert [] + outs == outs;
      case IT(_, _, _, _, _) =>
        ReleaseSends(cfg, r, c.remoteRef, c.remote, ev.now, 0x05, [Discarded(ev.routing, TIT, WrongState)]);
        IsReleasing(cfg, r, c.remoteRef, c.remote, 0x05, ev.now);
      case _ =>
    }
  }

  /** With another reference than the peer's, only an IT ends the connection. */
  lemma WrongSourceEnds(cfg: Config, r: u32, c: Section, ev: Event)
    requires Real(cfg) && r < LOCAL_REFERENCE_RESERVED && (c.Established? || c.Incoming?) && c.remoteRef < LOCAL_REFERENCE_RESERVED
    requires Addressed(ev, r)
    ensures var (c', outs) := WrongSource(cfg, r, c, ev.now, ev.routing, ev.m);
            if ev.m.IT? then ConnectionUsers.Quiet(c') && EndsAs(cfg, r, c, ev, c', outs) && Told(r, EndOf(cfg, c, ev)) in outs
            else c' == c
  {
    hide Real, ProviderRelease, ProviderReleases, Reply;
    if ev.m.IT? {
      var before := [Discarded(ev.routing, TIT, ReferenceMismatch)]
        + Reply(cfg, ReplyLabel(ev.routing), RLSD(ev.m.source, ev.m.destination, 0x05, [], None, []), ev.routing, TRLSD);
      ReleaseSends(cfg, r, c.remoteRef, c.remote, ev.now, 0x05, before);
      IsReleasing(cfg, r, c.remoteRef, c.remote, 0x05, ev.now);
    }
  }

  /** What a message does to a section that has not ended for its user. */
  ghost predicate Law(cfg: Config, r: u32, c: Section, ev: Event, ends: bool, c': Section, outs: seq<Out>) {
    && (ConnectionUsers.Quiet(c') <==> ends)
    && (ends ==> EndsAs(cfg, r, c, ev, c', outs) && Told(r, EndOf(cfg, c, ev)) in outs)
  }

  lemma ReceiveEnds(cfg: Config, s: Sections, r: u32, ev: Event)
    requires Real(cfg) && r as nat in s && GoodSection(cfg, r, s[r]) && !ConnectionUsers.Quiet(s[r]) && Addressed(ev, r)
    ensures SectionMessage(ev.m)
    ensures var (c', outs) := Connections.Receive(cfg, r, s[r], ev.now, ev.routing, ev.m, Available(cfg, s));
            Law(cfg, r, s[r], ev, EndsBy(cfg, s, r, ev), c', outs)
  {
    hide Real, Setup, Transferring, WrongSource, EndsAs, Available, Told, EndOf;
    var c := s[r];
    if c.Outgoing? {
      SetupEnds(cfg, r, c, ev);
    } else {
      WrongSourceEnds(cfg, r, c, ev);
      if c.Established? {
        TransferEnds(cfg, r, c, ev, Available(cfg, s));
      }
    }
  }

  lemma FireEnds(cfg: Config, s: Sections, r: u32, ev: Event)
    requires Real(cfg) && r as nat in s && GoodSection(cfg, r, s[r]) && !ConnectionUsers.Quiet(s[r])
    requires ev.Timeout? && ev.ref == r as nat && Due(s, ev.now, r, ev.kind)
    ensures var (c', outs) := Connections.Fire(cfg, r, s[r], ev.kind, ev.now);
            c'.Some? && Law(cfg, r, s[r], ev, EndsBy(cfg, s, r, ev), c'.value, outs)
  {
    hide Real, ProviderRelease, ProviderReleases;
    var c := s[r];
    if c.Established? {
      ReleaseSends(cfg, r, c.remoteRef, c.remote, ev.now, 0x0d, []);
      IsReleasing(cfg, r, c.remoteRef, c.remote, 0x0d, ev.now);
      var outs := ProviderRelease(cfg, r, c.remoteRef, c.remote, 0x0d, ev.now).1;
      assert [] + outs == outs;
    } else {
      assert Connections.Fire(cfg, r, c, ev.kind, ev.now).1[0] == Told(r, EndOf(cfg, c, ev));
    }
  }

  /**
   * When a connection ends, exactly. For a section whose user has not been told of an end, nor asked for one: the
   * connection ends at an event other than the user's own N-DISCONNECT if and only if it is one of those that EndsBy
   * lists; then the user is told what EndOf says, and the section and its peer are left as EndsAs says.
   */
  lemma EndsExactly(cfg: Config, s: Stack, ev: Event, r: nat)
    requires Real(cfg) && Good(cfg, s) && ValidSections(s.sections)
    requires r in s.sections && !ConnectionUsers.Quiet(s.sections[r]) && !ConnectionUsers.Asks(ev, r)
    ensures var (s', outs) := Step(cfg, s, ev);
            r in s'.sections && Law(cfg, r, s.sections[r], ev, EndsBy(cfg, s.sections, r, ev), s'.sections[r], outs)
  {
    assert GoodSection(cfg, r, s.sections[r]);
    hide Real, Good, ValidSections, Step, Connections.Fire, Connections.Receive, Connections.Accept, Connections.SendData, Available, Law, EndsBy, Deadlines;
    NotEnded(cfg, s.sections, r, ev, Step(cfg, s, ev).1);
    match ev {
      case Arrival(_, _, m, _, _) =>
        ArrivalHere(cfg, s, ev, r);
        if Addressed(ev, r) { ReceiveEnds(cfg, s.sections, r, ev); }
      case Timeout(now, ref, kind) =>
        TimeoutHere(cfg, s, ev, r);
        if ref == r && Due(s.sections, now, ref, kind) { FireEnds(cfg, s.sections, r, ev); }
      case ConnectRequested(_, _) => ConnectHere(cfg, s, ev, r);
      case _ =>
        RequestHere(cfg, s, ev, r);
        if !ev.DisconnectRequested? { StaysOpen(cfg, s, ev, r); }
    }
  }

  /** An event that is not one of those, and leaves the section open, obeys the law. */
  lemma NotEnded(cfg: Config, s: Sections, r: u32, ev: Event, outs: seq<Out>)
    requires r as nat in s && !ConnectionUsers.Quiet(s[r])
    ensures (ev.Arrival? && !Addressed(ev, r)) || (ev.Timeout? && !(ev.ref == r as nat && Due(s, ev.now, r, ev.kind)))
            || (!ev.Arrival? && !ev.Timeout?) ==>
              && !EndsBy(cfg, s, r, ev)
              && forall c': Section :: !ConnectionUsers.Quiet(c') ==> Law(cfg, r, s[r], ev, EndsBy(cfg, s, r, ev), c', outs)
  {
    hide EndsAs, EndOf, Told, Available;
  }

  // The part of a step that concerns one section.

  lemma ArrivalHere(cfg: Config, s: Stack, ev: Event, r: nat)
    requires ValidSections(s.sections) && ev.Arrival? && r in s.sections && !s.sections[r].Frozen?
    ensures Addressed(ev, r) ==> SectionMessage(ev.m)
    ensures var (s', outs) := Step(cfg, s, ev);
            && r in s'.sections
            && if Addressed(ev, r) then
                 (s'.sections[r], outs) == Connections.Receive(cfg, r, s.sections[r], ev.now, ev.routing, ev.m, Available(cfg, s.sections))
               else s'.sections[r] == s.sections[r]
  {
    hide Connections.Receive, Available, Active, Admits, Refuse, Unassigned;
    References.CandidateExact(Active(s.sections), cfg.maxConnections, s.sections.Keys, s.next, LOCAL_REFERENCE_RESERVED);
  }

  lemma TimeoutHere(cfg: Config, s: Stack, ev: Event, r: nat)
    requires ValidSections(s.sections) && ev.Timeout? && r in s.sections
    ensures var (s', outs) := Step(cfg, s, ev);
            if ev.ref == r && Due(s.sections, ev.now, r, ev.kind) then
              var f := Connections.Fire(cfg, r, s.sections[r], ev.kind, ev.now);
              outs == f.1 && (if f.0.Some? then r in s'.sections && s'.sections[r] == f.0.value else r !in s'.sections)
            else r in s'.sections && s'.sections[r] == s.sections[r]
  {
    hide Connections.Fire;
  }

  lemma ConnectHere(cfg: Config, s: Stack, ev: Event, r: nat)
    requires ValidSections(s.sections) && ev.ConnectRequested? && r in s.sections
    ensures var s' := Step(cfg, s, ev).0.sections; r in s' && s'[r] == s.sections[r]
  {
    hide Connections.Connect, Active, Connectable;
    References.CandidateExact(Active(s.sections), cfg.maxConnections, s.sections.Keys, s.next, LOCAL_REFERENCE_RESERVED);
  }

  /** What a request comes to at its own section. */
  function AnswerTo(cfg: Config, c: Section, ev: Event, r: u32): Answer<(Section, seq<Out>)>
    requires ev.Accepted? || ev.DataRequested? || ev.DisconnectRequested?
  {
    match ev
    case Accepted(now, _, responding, data, importance) => Connections.Accept(cfg, r, c, responding, data, importance, now)
    case DataRequested(now, _, data) => Connections.SendData(cfg, c, data, now)
    case DisconnectRequested(now, _, req) => Connections.Disconnect(cfg, r, c, req, now)
  }

  lemma RequestHere(cfg: Config, s: Stack, ev: Event, r: nat)
    requires ValidSections(s.sections) && r in s.sections && (ev.Accepted? || ev.DataRequested? || ev.DisconnectRequested?)
    ensures var (s', outs) := Step(cfg, s, ev);
            && r in s'.sections
            && if ev.ref != r then s'.sections[r] == s.sections[r]
               else match AnswerTo(cfg, s.sections[r], ev, r)
                    case Done(a) => (s'.sections[r], outs) == a
                    case Refused(_) => s'.sections[r] == s.sections[r] && outs == []
  {
    hide Connections.Accept, Connections.SendData, Connections.Disconnect;
  }

  lemma StaysOpen(cfg: Config, s: Stack, ev: Event, r: nat)
    requires ValidSections(s.sections) && r in s.sections && !ConnectionUsers.Quiet(s.sections[r]) && (ev.Accepted? || ev.DataRequested?)
    ensures var a := AnswerTo(cfg, s.sections[r], ev, r); a.Done? ==> !ConnectionUsers.Quiet(a.value.0)
  {
  }
}
