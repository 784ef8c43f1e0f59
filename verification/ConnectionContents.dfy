/** What the messages of a connection say and when its timers run out, in terms of the requests and messages behind them. */
module ConnectionContents {
  import opened Basics
  import opened Fields
  import opened Address
  import opened Messages
  import opened Connections
  import opened ConnectionRuns
  import opened ConnectionSending
  import opened ConnectionLaws
  import ConnectionPairs
  import ConnectionData
  import References
  import Codec

  // ----- Timers -----

  /** The message counts as a sign of life of section c: it goes with what is known of the peer. */
  predicate Heard(ev: Event, r: nat, c: Section)
    requires c.Established? || c.Releasing?
  {
    && Addressed(ev, r)
    && (ev.m.CC? || ev.m.CREF? || (FromNode(ev, c) && (ev.m.RLSD? || ev.m.RLC? || ev.m.IT? ==> ev.m.source == c.remoteRef)))
  }

  /** The next repetition of a release, if there is one before T(int) ends. */
  function Again(cfg: Config, now: nat, giveUp: nat): Option<nat> {
    if now + cfg.repeat < giveUp then Some(now + cfg.repeat) else None
  }

  /** How the timers of a section go on over an event, given the section before and after. */
  predicate Timed(cfg: Config, s: Sections, r: nat, ev: Event, c': Section)
    requires r in s
  {
    var c, now := s[r], ev.now;
    && (c'.Frozen? && !c.Frozen? ==> c'.unfreeze == now + cfg.freeze)
    && (c'.Releasing? && !c.Releasing? ==> c'.wait == First(now + cfg.release))
    && (c'.Established? && !c.Established? ==> c'.ias == now + cfg.ias && c'.iar == now + cfg.iar)
    && (c'.Outgoing? && c.Outgoing? ==> c'.establishment == c.establishment)
    && (c'.Established? && c.Established? ==>
          && c'.ias == (if Fires(s, ev, r, TSend) || (ev.DataRequested? && ev.ref == r && 1 <= |ev.data| <= cfg.maxDataLength)
                        then now + cfg.ias else c.ias)
          && c'.iar == (if Heard(ev, r, c) then now + cfg.iar else c.iar))
    && (c'.Releasing? && c.Releasing? ==>
          c'.wait == if Fires(s, ev, r, TRelease) then Repeating(now + cfg.giveUp, Again(cfg, now, now + cfg.giveUp))
                     else if Fires(s, ev, r, TRepeat) && c.wait.Repeating? then Repeating(c.wait.giveUp, Again(cfg, now, c.wait.giveUp))
                     else c.wait)
  }

  /** Every timer runs for its own time from the event that starts it, and no event but those moves it. */
  lemma TimersRun(cfg: Config, s: Stack, ev: Event, r: nat)
    requires Real(cfg) && Good(cfg, s) && ValidSections(s.sections) && r in s.sections && r in Step(cfg, s, ev).0.sections
    ensures Timed(cfg, s.sections, r, ev, Step(cfg, s, ev).0.sections[r])
  {
    assert GoodSection(cfg, r, s.sections[r]);
    hide Real, Good, ValidSections, Step, Connections.Fire, Connections.Receive, Connections.Accept, Connections.SendData, Connections.Disconnect,
      Available, Addressed, Deadlines, Timed;
    var c := s.sections[r];
    TimesKept(cfg, s.sections, r, ev);
    match ev {
      case Arrival(_, _, m, _, _) =>
        if c.Frozen? {
          FrozenStays(cfg, s, ev, r);
        } else {
          ArrivalHere(cfg, s, ev, r);
          if Addressed(ev, r) { ReceiveTimes(cfg, s.sections, r, ev, Available(cfg, s.sections)); }
        }
      case Timeout(now, ref, kind) =>
        TimeoutHere(cfg, s, ev, r);
        if ref == r && Due(s.sections, now, ref, kind) { FireTimes(cfg, s.sections, r, ev); }
      case ConnectRequested(_, _) => ConnectHere(cfg, s, ev, r);
      case _ =>
        RequestHere(cfg, s, ev, r);
        if ev.ref == r { RequestTimes(cfg, s, ev, r); }
    }
  }

  lemma FrozenStays(cfg: Config, s: Stack, ev: Event, r: nat)
    requires ValidSections(s.sections) && ev.Arrival? && r in s.sections && s.sections[r].Frozen?
    ensures r in Step(cfg, s, ev).0.sections && Step(cfg, s, ev).0.sections[r] == s.sections[r]
  {
    ConnectionPairs.StepFollows(cfg, s, ev, r);
    hide Arrives;
    ArrivalRemovesNothing(cfg, s, ev);
  }

  lemma ArrivalRemovesNothing(cfg: Config, s: Stack, ev: Event)
    requires ValidSections(s.sections) && ev.Arrival?
    ensures s.sections.Keys <= Step(cfg, s, ev).0.sections.Keys
  {
    hide Connections.Receive, Candidate, Admits, Refuse;
  }

  /** A section that an event leaves as it is keeps its timers, unless one of them fires or its user sends data. */
  lemma TimesKept(cfg: Config, s: Sections, r: nat, ev: Event)
    requires r in s
    ensures !Addressed(ev, r) && !(ev.Timeout? && ev.ref == r && Due(s, ev.now, r, ev.kind)) && !(ev.DataRequested? && ev.ref == r) ==>
              Timed(cfg, s, r, ev, s[r])
    ensures s[r].Frozen? ==> Timed(cfg, s, r, ev, s[r])
  {
    hide Addressed;
  }

  lemma ReceiveTimes(cfg: Config, s: Sections, r: u32, ev: Event, available: nat)
    requires r as nat in s && GoodSection(cfg, r, s[r]) && !s[r].Frozen? && Addressed(ev, r) && SectionMessage(ev.m)
    ensures Timed(cfg, s, r, ev, Connections.Receive(cfg, r, s[r], ev.now, ev.routing, ev.m, available).0)
  {
    hide Grown, Reply, ReleaseOf, Deadlines;
  }

  lemma FireTimes(cfg: Config, s: Sections, r: u32, ev: Event)
    requires r as nat in s && ev.Timeout? && ev.ref == r as nat && Due(s, ev.now, r, ev.kind)
    ensures var c' := Connections.Fire(cfg, r, s[r], ev.kind, ev.now).0; c'.Some? ==> Timed(cfg, s, r, ev, c'.value)
  {
    hide ReleaseOf, Transfer;
  }

  lemma RequestTimes(cfg: Config, s: Stack, ev: Event, r: nat)
    requires Real(cfg) && ValidSections(s.sections) && r in s.sections && GoodSection(cfg, r, s.sections[r])
    requires (ev.Accepted? || ev.DataRequested? || ev.DisconnectRequested?) && ev.ref == r
    ensures match AnswerTo(cfg, s.sections[r], ev, r)
            case Done(a) => Timed(cfg, s.sections, r, ev, a.0)
            case Refused(_) => Timed(cfg, s.sections, r, ev, s.sections[r])
  {
    hide Real;
    if ev.DataRequested? && s.sections[r].Established? {
      ConnectionData.SendDataExact(cfg, s.sections[r], ev.data, ev.now);
      hide Connections.SendData;
    }
    hide ReleaseOf, DataMessages;
  }

  // ----- Requests -----

  /** An importance above the most that the message may have is lowered to it. */
  function AtMost(importance: Option<byte>, most: byte): Option<byte> {
    if importance.Some? && importance.value > most then Some(most) else importance
  }

  /** A destination is named, by the request or else by the called address, and it is a point code. */
  predicate NamesNode(dpc: u32, called: PartyAddress) {
    if dpc != 0 then dpc <= 0x3fff else called.hasPointCode && called.pointCode <= 0x3fff
  }

  /** A called address that can be sent: valid, and with what it is routed on. */
  predicate Callable(called: PartyAddress) {
    ValidAddress(called) && if called.routeOnSSN then called.hasSSN && called.ssn != 0 else called.globalTitle.Some?
  }

  lemma ConnectableExact(cfg: Config, req: ConnectRequest)
    ensures Connectable(cfg, req) <==>
            && NamesNode(req.dpc, req.called) && Callable(req.called)
            && (req.importance.Some? ==> req.importance.value <= 7) && cfg.fits(RequestOf(cfg, req, 0))
  {
    hide RequestOf, ValidAddress;
  }

  /** A CR that says what the user asks for. */
  predicate SaysRequest(cfg: Config, req: ConnectRequest, ref: nat, m: Message) {
    && m.CR? && m.source as nat == ref && m.protocolClass == ProtocolClass(2, false) && m.called == req.called
    && m.originating == req.calling && m.data == req.data && m.importance == AtMost(req.importance, 4)
    && m.hopParam == (if req.called.routeOnSSN then None else Some(cfg.hop)) && m.creditParam == None && m.raw == []
  }

  /** Its label: from this node to the one that is named, on the next signalling link in rotation. */
  predicate LabelledFor(cfg: Config, sls: byte, dpc: u32, called: PartyAddress, l: RoutingLabel) {
    && l.opc == cfg.pointCode && l.ni == cfg.ni && l.sls == sls
    && l.dpc as int == (if dpc != 0 then dpc as int else called.pointCode as int)
  }

  /** A connection request that succeeds sends one CR, with what the user asked for, to the node that it names. */
  lemma ConnectSays(cfg: Config, s: Stack, now: nat, req: ConnectRequest) returns (ref: nat)
    requires ValidSections(s.sections) && EffectOf(cfg, s, ConnectRequested(now, req)).error == None
    ensures var (s', outs) := Step(cfg, s, ConnectRequested(now, req));
            && ref !in s.sections && ref < 0xff_ffff && s'.sections.Keys == s.sections.Keys + {ref} && s'.sections - {ref} == s.sections
            && |outs| == 1 && outs[0].Sent? && SaysRequest(cfg, req, ref, outs[0].message)
            && LabelledFor(cfg, s.sls, req.dpc, req.called, outs[0].routing)
            && s'.sections[ref] == Outgoing(outs[0].routing, now + cfg.establishment, None) && s'.sls as int == (s.sls as int + 1) % 16
  {
    hide EffectOf, Step, ValidSections, RequestOf, CalledNode;
    ref := ConnectionPairs.RequestSent(cfg, s, now, req);
    RequestSays(cfg, req, ref);
    LabelSays(cfg, req, s.sls);
    LinkRotates(cfg, s, now, req);
  }

  lemma RequestSays(cfg: Config, req: ConnectRequest, ref: u32)
    ensures SaysRequest(cfg, req, ref, RequestOf(cfg, req, ref))
  {
  }

  lemma LabelSays(cfg: Config, req: ConnectRequest, sls: byte)
    requires RequestedDestination(req).Some?
    ensures LabelledFor(cfg, sls, req.dpc, req.called, CalledNode(cfg, req, sls))
  {
  }

  lemma LinkRotates(cfg: Config, s: Stack, now: nat, req: ConnectRequest)
    requires ValidSections(s.sections) && EffectOf(cfg, s, ConnectRequested(now, req)).error == None
    ensures Step(cfg, s, ConnectRequested(now, req)).0.sls as int == (s.sls as int + 1) % 16
  {
    hide Candidate, Connectable, ValidSections, Connections.Connect;
  }

  /** A response that succeeds sends one CC, with what the user said, to the peer. */
  lemma AcceptSays(cfg: Config, s: Stack, ev: Event)
    requires ValidSections(s.sections) && ev.Accepted? && EffectOf(cfg, s, ev).error == None
    ensures ev.ref in s.sections && s.sections[ev.ref].Incoming?
    ensures var (c, outs) := (s.sections[ev.ref], Step(cfg, s, ev).1);
            && |outs| == 1 && outs[0].Sent? && outs[0].routing == c.remote && outs[0].message.CC?
            && var m := outs[0].message;
               && m.destination == c.remoteRef && m.source as nat == ev.ref && m.protocolClass == ProtocolClass(2, false)
               && m.responding == ev.responding && m.data == ev.data && m.importance == AtMost(ev.importance, 4)
               && m.creditParam == None && m.raw == []
  {
  }

  /**
   * A disconnect request that succeeds: in c2 the request of the peer is refused with the cause and data of the user;
   * in c3 it is kept for later; in c4 the RLSD goes out with the cause and data of the user.
   */
  lemma DisconnectSays(cfg: Config, s: Stack, ev: Event)
    requires ValidSections(s.sections) && ev.DisconnectRequested? && EffectOf(cfg, s, ev).error == None
    ensures ev.ref in s.sections && ev.ref < 0xff_ffff && ev.ref in Step(cfg, s, ev).0.sections
    ensures var c, c', outs := s.sections[ev.ref], Step(cfg, s, ev).0.sections[ev.ref], Step(cfg, s, ev).1;
            var d := ev.disconnect.release;
            match c
            case Incoming(remoteRef, remote) =>
              && c'.Frozen?
              && outs == [Sent(remote, CREF(remoteRef, ev.disconnect.refusalCause, None, d.data, AtMost(d.importance, 4), []))]
            case Outgoing(remote, t, _) => c' == Outgoing(remote, t, Some(d)) && outs == []
            case Established(remoteRef, remote, _, _, _, _) =>
              var m := RLSD(remoteRef, ev.ref, d.cause, d.data, AtMost(d.importance, 6), []);
              c' == Releasing(remoteRef, remote, m, First(ev.now + cfg.release)) && outs == [Sent(remote, m)]
            case _ => false
  {
  }

  /** The error of a response, data or disconnect request says whether the connection is there and in the right state. */
  lemma RequestErrors(cfg: Config, s: Stack, ev: Event)
    requires ValidSections(s.sections) && (ev.Accepted? || ev.DataRequested? || ev.DisconnectRequested?)
    ensures var error := EffectOf(cfg, s, ev).error;
            && (error == Some(NotFoundError) <==> ev.ref !in s.sections || s.sections[ev.ref].Frozen?)
            && (error == Some(StateError) <==>
                  && ev.ref in s.sections && !s.sections[ev.ref].Frozen?
                  && if ev.Accepted? then !s.sections[ev.ref].Incoming?
                     else if ev.DataRequested? then !s.sections[ev.ref].Established?
                     else s.sections[ev.ref].Releasing?)
            && (error.Some? ==> Step(cfg, s, ev) == (s, []))
  {
    hide DataMessages, ReleaseOf;
  }

  // ----- Messages and timers -----

  /** A CC of class 2 that is waited for establishes the connection, and its user is told what it says. */
  lemma ConfirmSays(cfg: Config, s: Stack, ev: Event, r: nat)
    requires ValidSections(s.sections) && r in s.sections && s.sections[r].Outgoing? && s.sections[r].disconnect == None
    requires Addressed(ev, r) && ev.m.CC? && ev.m.protocolClass.number == 2
    ensures r in Step(cfg, s, ev).0.sections
    ensures var (c, c', outs) := (s.sections[r], Step(cfg, s, ev).0.sections[r], Step(cfg, s, ev).1);
            && c'.Established? && c'.remoteRef == ev.m.source && c'.data == [] && c'.capacity == 0
            && c'.remote == c.remote.(dpc := ev.routing.opc, ni := ev.routing.ni)
            && outs == [Indicated(ConnectConfirmation(r, ev.m.responding, ev.m.data))]
  {
    ArrivalHere(cfg, s, ev, r);
    hide Step, Available, ValidSections;
  }

  /** What becomes of a connection that is ending already, be its user's disconnect deferred, a release, or a freeze. */
  ghost predicate EndsOn(cfg: Config, s: Sections, r: nat, ev: Event, c': Option<Section>, outs: seq<Out>)
    requires r in s && r < 0xff_ffff
  {
    match s[r]
    case Outgoing(remote, _, Some(d)) =>
      if Addressed(ev, r) && ev.m.CC? then
        var to := remote.(dpc := ev.routing.opc, ni := ev.routing.ni);
        var m := RLSD(ev.m.source, r, d.cause, d.data, AtMost(d.importance, 6), []);
        c' == Some(Releasing(ev.m.source, to, m, First(ev.now + cfg.release))) && Sent(to, m) in outs
      else if Addressed(ev, r) || Fires(s, ev, r, TEstablishment) then c' == Some(Frozen(ev.now + cfg.freeze))
      else c'.Some? && c'.value.Outgoing?
    case Releasing(remoteRef, remote, m, _) =>
      if Addressed(ev, r) && FromNode(ev, s[r]) && (ev.m.ERR? || ((ev.m.RLSD? || ev.m.RLC?) && ev.m.source == remoteRef)) then
        c' == Some(Frozen(ev.now + cfg.freeze))
      else if Fires(s, ev, r, TGiveUp) then
        c' == Some(Frozen(ev.now + cfg.freeze)) && outs == [Indicated(ReleaseIncomplete(r, remote, remoteRef))]
      else
        && c'.Some? && c'.value.Releasing? && c'.value.release == m
        && (Fires(s, ev, r, TRelease) || Fires(s, ev, r, TRepeat) ==> outs == [Sent(remote, m)])
    case Frozen(_) => c' == if Fires(s, ev, r, TUnfreeze) then None else Some(s[r])
    case _ => true
  }

  /** The section of r after an event, if there is one. */
  ghost function After(cfg: Config, s: Stack, ev: Event, r: nat): Option<Section>
    requires ValidSections(s.sections)
  {
    var s' := Step(cfg, s, ev).0.sections; if r in s' then Some(s'[r]) else None
  }

  /**
   * Release, exactly: a deferred disconnect goes out when the CC comes, with the user's own cause and data; a release
   * ends when the peer completes it or T(int) ends, and a reference is free when its freeze ends, and not before.
   */
  lemma ReleaseExactly(cfg: Config, s: Stack, ev: Event, r: nat)
    requires Real(cfg) && Good(cfg, s) && ValidSections(s.sections) && AllReady(cfg, s.sections) && r in s.sections
    ensures EndsOn(cfg, s.sections, r, ev, After(cfg, s, ev, r), Step(cfg, s, ev).1)
  {
    var c := s.sections[r];
    assert GoodSection(cfg, r, c) && Ready(cfg, r, c);
    hide Real, Good, ValidSections, Step, Connections.Fire, Connections.Receive, Connections.Accept, Connections.SendData, Connections.Disconnect,
      Available, Addressed, Deadlines, EndsOn, AllReady, Ready;
    NotConcerned(cfg, s.sections, r, ev, Step(cfg, s, ev).1);
    match ev {
      case Arrival(_, _, _, _, _) =>
        if c.Frozen? {
          FrozenStays(cfg, s, ev, r);
        } else {
          ArrivalHere(cfg, s, ev, r);
          if Addressed(ev, r) { ReceiveEndsOn(cfg, s.sections, r, ev, Available(cfg, s.sections)); }
        }
      case Timeout(now, ref, kind) =>
        TimeoutHere(cfg, s, ev, r);
        if ref == r && Due(s.sections, now, ref, kind) { FireEndsOn(cfg, s.sections, r, ev); }
      case ConnectRequested(_, _) => ConnectHere(cfg, s, ev, r);
      case _ =>
        RequestHere(cfg, s, ev, r);
        if ev.ref == r { RequestEndsOn(cfg, s, ev, r); }
    }
  }

  lemma NotConcerned(cfg: Config, s: Sections, r: nat, ev: Event, outs: seq<Out>)
    requires r in s && r < 0xff_ffff
    ensures !Addressed(ev, r) && !(ev.Timeout? && ev.ref == r && Due(s, ev.now, r, ev.kind)) ==> EndsOn(cfg, s, r, ev, Some(s[r]), outs)
    ensures s[r].Frozen? && ev.Arrival? ==> EndsOn(cfg, s, r, ev, Some(s[r]), outs)
  {
    hide Addressed;
  }

  lemma ReceiveEndsOn(cfg: Config, s: Sections, r: u32, ev: Event, available: nat)
    requires Real(cfg) && r as nat in s && GoodSection(cfg, r, s[r]) && Ready(cfg, r, s[r]) && !s[r].Frozen? && Addressed(ev, r) && SectionMessage(ev.m)
    ensures var (c', outs) := Connections.Receive(cfg, r, s[r], ev.now, ev.routing, ev.m, available);
            EndsOn(cfg, s, r, ev, Some(c'), outs)
  {
    hide Real, Transferring, Deadlines;
    if s[r].Outgoing? && s[r].disconnect.Some? && ev.m.CC? {
      DeferredFits(cfg, r, ev.m.source, s[r].disconnect.value);
      var (c', outs) := Connections.Receive(cfg, r, s[r], ev.now, ev.routing, ev.m, available);
      var m := ReleaseOf(r, ev.m.source, s[r].disconnect.value);
      assert outs[|outs| - 1] == Sent(s[r].remote.(dpc := ev.routing.opc, ni := ev.routing.ni), m);
    }
  }

  lemma DeferredFits(cfg: Config, r: u32, source: u32, d: Disconnection)
    requires Real(cfg) && cfg.fits(ReleaseOf(r, 0, d)) && r < LOCAL_REFERENCE_RESERVED && source < LOCAL_REFERENCE_RESERVED
    ensures cfg.fits(ReleaseOf(r, source, d))
  {
    hide Codec.Marshal;
    ReleaseFits(cfg.maxMessageSize, ReleaseOf(r, 0, d), ReleaseOf(r, source, d));
  }

  lemma FireEndsOn(cfg: Config, s: Sections, r: u32, ev: Event)
    requires r as nat in s && GoodSection(cfg, r, s[r]) && Ready(cfg, r, s[r])
    requires ev.Timeout? && ev.ref == r as nat && Due(s, ev.now, r, ev.kind)
    ensures var (c', outs) := Connections.Fire(cfg, r, s[r], ev.kind, ev.now); EndsOn(cfg, s, r, ev, c', outs)
  {
  }

  lemma RequestEndsOn(cfg: Config, s: Stack, ev: Event, r: nat)
    requires ValidSections(s.sections) && r in s.sections && (ev.Accepted? || ev.DataRequested? || ev.DisconnectRequested?) && ev.ref == r
    ensures match AnswerTo(cfg, s.sections[r], ev, r)
            case Done(a) => EndsOn(cfg, s.sections, r, ev, Some(a.0), a.1)
            case Refused(_) => EndsOn(cfg, s.sections, r, ev, Some(s.sections[r]), [])
  {
    hide DataMessages;
  }

  /** When T(ias) runs out, an inactivity test goes to the peer, of class 2 and with nothing in its other fields. */
  lemma InactivitySays(cfg: Config, s: Stack, ev: Event, r: nat)
    requires Real(cfg) && Good(cfg, s) && ValidSections(s.sections) && Fires(s.sections, ev, r, TSend)
    ensures var c := s.sections[r];
            Step(cfg, s, ev).1 == [Sent(c.remote, IT(c.remoteRef, r, ProtocolClass(2, false), Sequencing(0, 0, false), 0))]
  {
    hide Real, Good, ValidSections, Step, Connections.Fire;
    var c := s.sections[r];
    TimeoutHere(cfg, s, ev, r);
    TestSays(cfg, s, ev, r);
  }

  lemma TestSays(cfg: Config, s: Stack, ev: Event, r: nat)
    requires Real(cfg) && Good(cfg, s) && Fires(s.sections, ev, r, TSend)
    ensures s.sections[r].Established? && r < LOCAL_REFERENCE_RESERVED
    ensures var c := s.sections[r];
            Connections.Fire(cfg, r, c, TSend, ev.now).1
            == [Sent(c.remote, IT(c.remoteRef, r, ProtocolClass(2, false), Sequencing(0, 0, false), 0))]
  {
    hide Real;
    var c := s.sections[r];
    assert GoodSection(cfg, r, c);
    hide Good;
    ShortFit(cfg, c.remoteRef, r, 0);
  }

  /** What is sent when references do not agree, Table B.2 of ITU-T Q.714 (05/01). */
  predicate Mismatch(ev: Event, r: u32, cause: byte, outs: seq<Out>)
    requires Addressed(ev, r)
  {
    var back := ReplyLabel(ev.routing);
    && |outs| > 0 && outs[0].Discarded?
    && outs[1..] == match ev.m
                    case CC(_, source, _, _, _, _, _, _) => if cause == 0 then [Sent(back, ERR(source, 0, []))] else []
                    case RLSD(_, source, _, _, _, _) => [Sent(back, if cause == 0 then RLC(source, r) else ERR(source, cause, []))]
                    case IT(_, source, _, _, _) => if cause == 0 then [Sent(back, ERR(source, 0, []))] else []
                    case _ => []
  }

  /** A message whose reference no section has, or that comes from another node than the peer's, changes nothing. */
  lemma MismatchSays(cfg: Config, s: Stack, ev: Event, r: u32)
    requires Real(cfg) && ValidSections(s.sections) && r < LOCAL_REFERENCE_RESERVED && Addressed(ev, r)
    ensures var (s', outs) := Step(cfg, s, ev);
            if r as nat !in s.sections || s.sections[r].Frozen? then s' == s && Mismatch(ev, r, 0, outs)
            else !s.sections[r].Outgoing? && !ev.m.CC? && !ev.m.CREF? && !FromNode(ev, s.sections[r]) ==>
              s'.sections == s.sections && Mismatch(ev, r, 2, outs)
  {
    hide Real, ValidSections, Available, Connections.Dispatch, WrongSource, Unassigned, WrongPeer, Mismatch;
    MismatchOf(cfg, r, ev);
  }

  lemma MismatchOf(cfg: Config, r: u32, ev: Event)
    requires Real(cfg) && r < LOCAL_REFERENCE_RESERVED && Addressed(ev, r)
    ensures SectionMessage(ev.m) && !InvalidParameter(ev.m) && !ReservedReference(ev.m) && DestinationOf(ev.m) == r
    ensures Mismatch(ev, r, 0, Unassigned(cfg, ev.routing, ev.m)) && Mismatch(ev, r, 2, WrongPeer(cfg, ev.routing, ev.m))
  {
    hide Real;
    match ev.m {
      case CC(_, source, _, _, _, _, _, _) => ShortFit(cfg, source, r, 0);
      case RLSD(_, source, _, _, _, _) => ShortFit(cfg, source, r, 0); ShortFit(cfg, source, r, 2);
      case IT(_, source, _, _, _) => ShortFit(cfg, source, r, 0);
      case _ =>
    }
  }

  /** From the peer's node but with another reference than its: an RLSD is answered by an ERR, an IT by an RLSD. */
  lemma WrongReferenceSays(cfg: Config, s: Stack, ev: Event, r: nat)
    requires Real(cfg) && ValidSections(s.sections) && r in s.sections && r < 0xff_ffff && Addressed(ev, r)
    requires var c := s.sections[r];
             (c.Incoming? || c.Established? || c.Releasing?) && FromNode(ev, c) && (ev.m.RLSD? || ev.m.RLC? || ev.m.IT?) && ev.m.source != c.remoteRef
    ensures var outs := Step(cfg, s, ev).1;
            && |outs| > 0 && outs[0].Discarded?
            && (ev.m.RLSD? ==> outs[1..] == [Sent(ReplyLabel(ev.routing), ERR(ev.m.source, 1, []))])
            && (ev.m.RLC? ==> |outs| == 1)
            && (ev.m.IT? ==> |outs| > 1 && outs[1] == Sent(ReplyLabel(ev.routing), RLSD(ev.m.source, r, 0x05, [], None, [])))
  {
    hide Real, ValidSections, Step, Available, Connections.Dispatch, WrongSource;
    ArrivalHere(cfg, s, ev, r);
    ReleasesRLSD(s, r);
    WrongSourceSays(cfg, r, s.sections[r], ev);
  }

  lemma ReleasesRLSD(s: Stack, r: nat)
    requires ValidSections(s.sections) && r in s.sections
    ensures s.sections[r].Releasing? ==> s.sections[r].release.RLSD?
  {
  }

  lemma WrongSourceSays(cfg: Config, r: u32, c: Section, ev: Event)
    requires Real(cfg) && r < LOCAL_REFERENCE_RESERVED && Addressed(ev, r) && (ev.m.RLSD? || ev.m.RLC? || ev.m.IT?)
    requires (c.Incoming? || c.Established? || c.Releasing?) && (c.Releasing? ==> c.release.RLSD?)
    ensures var outs := WrongSource(cfg, r, c, ev.now, ev.routing, ev.m).1;
            && |outs| > 0 && outs[0].Discarded?
            && (ev.m.RLSD? ==> outs[1..] == [Sent(ReplyLabel(ev.routing), ERR(ev.m.source, 1, []))])
            && (ev.m.RLC? ==> |outs| == 1)
            && (ev.m.IT? ==> |outs| > 1 && outs[1] == Sent(ReplyLabel(ev.routing), RLSD(ev.m.source, r, 0x05, [], None, [])))
  {
    hide Real, ProviderRelease;
    ShortFit(cfg, ev.m.source, r, 1);
    ShortFit(cfg, ev.m.source, r, 0x05);
  }

  // ----- References -----

  /**
   * The reference of a new section is the first one free from where the last one given out left off, and the next search
   * goes on behind it.
   */
  lemma GivenInTurn(cfg: Config, s: Stack, ev: Event, r: nat) returns (k: nat)
    requires ValidSections(s.sections) && r in Step(cfg, s, ev).0.sections && r !in s.sections
    ensures Step(cfg, s, ev).0.sections.Keys == s.sections.Keys + {r} && Step(cfg, s, ev).0.next == r + 1
    ensures References.FirstFree(s.sections.Keys, if s.next >= 0xff_ffff then 0 else s.next, 0xff_ffff, r, k)
  {
    hide References.FirstFree, References.Candidates, Admits, Connectable, Connections.Connect, Connections.Receive, Connections.Fire,
      Connections.Accept, Connections.SendData, Connections.Disconnect, Refuse, Offered, Unassigned;
    NewRegisters(cfg, s, ev, r);
    k := References.CandidateFirst(Active(s.sections), cfg.maxConnections, s.sections.Keys, s.next, LOCAL_REFERENCE_RESERVED);
  }

  lemma NewRegisters(cfg: Config, s: Stack, ev: Event, r: nat)
    requires ValidSections(s.sections) && r in Step(cfg, s, ev).0.sections && r !in s.sections
    ensures Candidate(cfg, s) == References.Reference(r)
    ensures Step(cfg, s, ev).0.sections.Keys == s.sections.Keys + {r} && Step(cfg, s, ev).0.next == r + 1
  {
    hide References.Candidates, Admits, Connectable, Connections.Connect, Connections.Receive, Connections.Fire,
      Connections.Accept, Connections.SendData, Connections.Disconnect, Refuse, Offered, Unassigned;
  }

  /** An event that makes no section leaves the place where the next search begins. */
  lemma PlaceStays(cfg: Config, s: Stack, ev: Event)
    requires ValidSections(s.sections) && Step(cfg, s, ev).0.sections.Keys <= s.sections.Keys
    ensures Step(cfg, s, ev).0.next == s.next
  {
    hide References.Candidates, Admits, Connectable, Connections.Connect, Connections.Receive, Connections.Fire,
      Connections.Accept, Connections.SendData, Connections.Disconnect, Refuse, Offered, Unassigned;
    References.CandidateExact(Active(s.sections), cfg.maxConnections, s.sections.Keys, s.next, LOCAL_REFERENCE_RESERVED);
  }
}
