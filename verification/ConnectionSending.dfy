/**
 * With a maximum message size of at least 11 octets, an IT, the connection-oriented procedures can always send what
 * they have to: in no run is a message discarded as undeliverable.
 */
module ConnectionSending {
  import opened Basics
  import opened Fields
  import opened Wire
  import opened Messages
  import opened Codec
  import opened Sizes
  import opened Connections
  import opened ConnectionRuns
  import References

  const MIN_MESSAGE_SIZE: int := 11

  /** fits is what the codec does within the maximum message size. */
  ghost predicate Real(cfg: Config) {
    && MIN_MESSAGE_SIZE <= cfg.maxMessageSize <= MAX_BROADBAND_MESSAGE_SIZE
    && forall m :: cfg.fits(m) <==> Marshal(cfg.maxMessageSize, m).Octets?
  }

  // ----- Messages that always fit -----

  /** A message with no variable parameters and no optional part has a fixed size. */
  lemma FixedFits(limit: int, m: Message)
    requires MIN_MESSAGE_SIZE <= limit <= MAX_BROADBAND_MESSAGE_SIZE
    requires FixedOf(m).Some? && |FixedOf(m).value| == ShapeOf(TypeOf(m)).fixed && ShapeOf(TypeOf(m)).Start() <= limit
    requires ShapeOf(TypeOf(m)).variables == 0 && VariablesOf(m) == Some([]) && OptionsOf(m) == Some([])
    ensures Marshal(limit, m).Octets?
  {
    hide FixedOf, VariablesOf, OptionsOf, ShapeOf;
    FixedSize(m);
  }

  lemma FixedSize(m: Message)
    requires FixedOf(m).Some? && |FixedOf(m).value| == ShapeOf(TypeOf(m)).fixed
    requires ShapeOf(TypeOf(m)).variables == 0 && VariablesOf(m) == Some([]) && OptionsOf(m) == Some([])
    ensures Encodable(m) && |Encode(m).value| == ShapeOf(TypeOf(m)).Start()
  {
    var sh := ShapeOf(TypeOf(m));
    assert PointerValues(sh, FrameOf(m).value) == if sh.optional then [0] else [];
    EncodedSize(m);
  }

  lemma NoOptionsOf(m: Message)
    requires m.RLC? || m.IT? || (m.ERR? && m.raw == []) || (m.CREF? && m.responding == None && m.data == [] && m.importance == None && m.raw == [])
             || (m.RLSD? && m.data == [] && m.importance == None && m.raw == [])
    ensures OptionsOf(m) == Some([])
  {
    assert Collect([]) == Some([]);
    var f := FieldsOf(m);
    if |f| > 0 {
      CollectAbsent(f);
    }
    var none: seq<Param> := [];
    assert none + [] == none;
  }

  lemma {:induction false} CollectAbsent(f: seq<Field>)
    requires forall x :: x in f ==> !x.present
    ensures Collect(f) == Some([])
    decreases |f|
  {
    if |f| > 0 {
      CollectAbsent(f[..|f| - 1]);
    }
  }

  lemma ShortMessagesFit(limit: int, dst: u32, src: u32, cause: byte)
    requires MIN_MESSAGE_SIZE <= limit <= MAX_BROADBAND_MESSAGE_SIZE
    requires dst < LOCAL_REFERENCE_RESERVED && src < LOCAL_REFERENCE_RESERVED && cause != 0xff
    ensures Marshal(limit, RLC(dst, src)).Octets?
    ensures Marshal(limit, ERR(dst, cause, [])).Octets?
    ensures Marshal(limit, CREF(dst, cause, None, [], None, [])).Octets?
    ensures Marshal(limit, RLSD(dst, src, cause, [], None, [])).Octets?
    ensures Marshal(limit, IT(dst, src, ProtocolClass(2, false), Sequencing(0, 0, false), 0)).Octets?
  {
    hide Marshal, OptionsOf, FixedOf, VariablesOf, ShapeOf;
    ShortFits(limit, RLC(dst, src), dst, src);
    ShortFits(limit, ERR(dst, cause, []), dst, src);
    ShortFits(limit, CREF(dst, cause, None, [], None, []), dst, src);
    ShortFits(limit, RLSD(dst, src, cause, [], None, []), dst, src);
    ShortFits(limit, IT(dst, src, ProtocolClass(2, false), Sequencing(0, 0, false), 0), dst, src);
  }

  lemma ShortFits(limit: int, m: Message, dst: u32, src: u32)
    requires MIN_MESSAGE_SIZE <= limit <= MAX_BROADBAND_MESSAGE_SIZE
    requires dst < LOCAL_REFERENCE_RESERVED && src < LOCAL_REFERENCE_RESERVED
    requires || m == RLC(dst, src)
             || m == IT(dst, src, ProtocolClass(2, false), Sequencing(0, 0, false), 0)
             || (m.ERR? && m.cause != 0xff && m == ERR(dst, m.cause, []))
             || (m.CREF? && m.cause != 0xff && m == CREF(dst, m.cause, None, [], None, []))
             || (m.RLSD? && m.cause != 0xff && m == RLSD(dst, src, m.cause, [], None, []))
    ensures Marshal(limit, m).Octets?
  {
    hide Marshal, OptionsOf;
    NoOptionsOf(m);
    FixedFits(limit, m);
  }

  /** Whether an RLSD can be sent does not depend on its references. */
  lemma ReleaseFits(limit: int, m: Message, n: Message)
    requires m.RLSD? && n.RLSD? && Marshal(limit, m).Octets? && n == RLSD(n.destination, n.source, m.cause, m.data, m.importance, m.raw)
    requires n.destination < LOCAL_REFERENCE_RESERVED && n.source < LOCAL_REFERENCE_RESERVED
    ensures Marshal(limit, n).Octets?
  {
    ReleaseFrame(m, n);
    hide FrameOf, ShapeOf, Marshal, NoLarger;
    FitsBySize(limit, n, m);
  }

  lemma ReleaseFrame(m: Message, n: Message)
    requires m.RLSD? && n.RLSD? && Encodable(m) && n == RLSD(n.destination, n.source, m.cause, m.data, m.importance, m.raw)
    requires n.destination < LOCAL_REFERENCE_RESERVED && n.source < LOCAL_REFERENCE_RESERVED
    ensures FrameOf(n).Some? && NoLarger(ShapeOf(TypeOf(n)), FrameOf(n).value, ShapeOf(TypeOf(m)), FrameOf(m).value)
  {
    hide Collect, AddRaw;
  }

  /** Nor does whether a CR can be sent: what Connect checked with reference 0 holds for the reference it gets. */
  lemma RequestFits(cfg: Config, req: ConnectRequest, ref: u32)
    requires Real(cfg) && cfg.fits(RequestOf(cfg, req, 0)) && ref < LOCAL_REFERENCE_RESERVED
    ensures cfg.fits(RequestOf(cfg, req, ref))
  {
    hide Marshal;
    SourceFits(cfg.maxMessageSize, RequestOf(cfg, req, 0), RequestOf(cfg, req, ref));
  }

  lemma SourceFits(limit: int, m: Message, n: Message)
    requires m.CR? && n.CR? && Marshal(limit, m).Octets? && n.source < LOCAL_REFERENCE_RESERVED
    requires n == CR(n.source, m.protocolClass, m.called, m.creditParam, m.originating, m.data, m.hopParam, m.importance, m.raw)
    ensures Marshal(limit, n).Octets?
  {
    SourceFrame(m, n);
    hide FrameOf, ShapeOf, Marshal, NoLarger;
    FitsBySize(limit, n, m);
  }

  lemma SourceFrame(m: Message, n: Message)
    requires m.CR? && n.CR? && Encodable(m) && n.source < LOCAL_REFERENCE_RESERVED
    requires n == CR(n.source, m.protocolClass, m.called, m.creditParam, m.originating, m.data, m.hopParam, m.importance, m.raw)
    ensures FrameOf(n).Some? && NoLarger(ShapeOf(TypeOf(n)), FrameOf(n).value, ShapeOf(TypeOf(m)), FrameOf(m).value)
  {
    hide Collect, AddRaw, AddressContents;
  }

  /** A connection is requested exactly when the request is in order, capacity remains and a reference is free. */
  lemma ConnectExact(cfg: Config, s: Stack, now: nat, req: ConnectRequest)
    requires Real(cfg) && ValidSections(s.sections)
    ensures EffectOf(cfg, s, ConnectRequested(now, req)).error == None <==>
            && Connectable(cfg, req) && Active(s.sections) < cfg.maxConnections
            && References.SomeFree(s.sections.Keys, LOCAL_REFERENCE_RESERVED)
  {
    hide Real, ValidSections, Active, RequestOf, References.Candidates, References.SomeFree;
    References.CandidateExact(Active(s.sections), cfg.maxConnections, s.sections.Keys, s.next, LOCAL_REFERENCE_RESERVED);
    var c := Candidate(cfg, s);
    if Connectable(cfg, req) && c.Reference? {
      RequestFits(cfg, req, c.ref);
    }
  }

  // ----- Sections -----

  /** Every message that was stored to be sent later can be sent. */
  predicate Ready(cfg: Config, ref: u32, c: Section) {
    && (c.Outgoing? && c.disconnect.Some? ==> cfg.fits(ReleaseOf(ref, 0, c.disconnect.value)))
    && (c.Releasing? ==> cfg.fits(c.release))
  }

  predicate Clean(outs: seq<Out>) {
    forall o :: o in outs ==> !(o.Discarded? && o.reason.Undeliverable?)
  }

  lemma ShortFit(cfg: Config, dst: u32, src: u32, cause: byte)
    requires Real(cfg) && dst < LOCAL_REFERENCE_RESERVED && src < LOCAL_REFERENCE_RESERVED && cause != 0xff
    ensures cfg.fits(RLC(dst, src)) && cfg.fits(ERR(dst, cause, [])) && cfg.fits(CREF(dst, cause, None, [], None, []))
    ensures cfg.fits(RLSD(dst, src, cause, [], None, []))
    ensures cfg.fits(IT(dst, src, ProtocolClass(2, false), Sequencing(0, 0, false), 0))
  {
    hide Marshal;
    ShortMessagesFit(cfg.maxMessageSize, dst, src, cause);
  }

  lemma ProviderSends(cfg: Config, ref: u32, remoteRef: u32, remote: RoutingLabel, cause: byte, now: nat)
    requires Real(cfg) && ref < LOCAL_REFERENCE_RESERVED && remoteRef < LOCAL_REFERENCE_RESERVED && cause != 0xff
    ensures var r := ProviderRelease(cfg, ref, remoteRef, remote, cause, now); Ready(cfg, ref, r.0) && Clean(r.1)
  {
    hide Real;
    ShortFit(cfg, remoteRef, ref, cause);
  }

  lemma DeferredSends(cfg: Config, ref: u32, remoteRef: u32, remote: RoutingLabel, d: Disconnection, now: nat)
    requires Real(cfg) && ref < LOCAL_REFERENCE_RESERVED && remoteRef < LOCAL_REFERENCE_RESERVED && cfg.fits(ReleaseOf(ref, 0, d))
    ensures var r := BeginRelease(cfg, ref, remoteRef, remote, ReleaseOf(ref, remoteRef, d), false, now);
            Ready(cfg, ref, r.0) && Clean(r.1)
  {
    hide Marshal;
    ReleaseFits(cfg.maxMessageSize, ReleaseOf(ref, 0, d), ReleaseOf(ref, remoteRef, d));
  }

  lemma SetupSends(cfg: Config, ref: u32, c: Section, now: nat, routing: RoutingLabel, m: Message)
    requires Real(cfg) && SectionMessage(m) && !ReservedReference(m) && c.Outgoing? && ref < LOCAL_REFERENCE_RESERVED && Ready(cfg, ref, c)
    ensures var r := Setup(cfg, ref, c, now, routing, m); Ready(cfg, ref, r.0) && Clean(r.1)
  {
    hide Real, BeginRelease, ProviderRelease;
    if m.CC? {
      var remote := c.remote.(dpc := routing.opc, ni := routing.ni);
      if c.disconnect.Some? {
        DeferredSends(cfg, ref, m.source, remote, c.disconnect.value, now);
      }
      ProviderSends(cfg, ref, m.source, remote, REMOTE_PROCEDURE_ERROR, now);
    } else if m.RLSD? {
      ShortFit(cfg, m.source, m.destination, 0);
    }
  }

  lemma TransferringSends(cfg: Config, ref: u32, c: Section, now: nat, routing: RoutingLabel, m: Message, available: nat)
    requires Real(cfg) && SectionMessage(m) && c.Established? && ref < LOCAL_REFERENCE_RESERVED && c.remoteRef < LOCAL_REFERENCE_RESERVED
    ensures var r := Transferring(cfg, ref, c, now, routing, m, available); Ready(cfg, ref, r.0) && Clean(r.1)
  {
    hide Real, ProviderRelease, Grown;
    ShortFit(cfg, c.remoteRef, ref, 0);
    ProviderSends(cfg, ref, c.remoteRef, c.remote, REMOTE_PROCEDURE_ERROR, now);
    ProviderSends(cfg, ref, c.remoteRef, c.remote, RELEASE_NETWORK_CONGESTION, now);
    ProviderSends(cfg, ref, c.remoteRef, c.remote, INCONSISTENT_CONNECTION_DATA, now);
  }

  lemma WrongSourceSends(cfg: Config, ref: u32, c: Section, now: nat, routing: RoutingLabel, m: Message)
    requires Real(cfg) && SectionMessage(m) && !ReservedReference(m) && GoodSection(cfg, ref, c) && Ready(cfg, ref, c)
    requires !c.Frozen? && !c.Outgoing? && SourceOf(m).Some?
    ensures var r := WrongSource(cfg, ref, c, now, routing, m); Ready(cfg, ref, r.0) && Clean(r.1)
  {
    hide Real, ProviderRelease;
    ShortFit(cfg, m.source, m.destination, INCONSISTENT_SOURCE);
    ShortFit(cfg, m.source, m.destination, INCONSISTENT_CONNECTION_DATA);
    ProviderSends(cfg, ref, c.remoteRef, c.remote, INCONSISTENT_CONNECTION_DATA, now);
  }

  lemma WrongPeerSends(cfg: Config, routing: RoutingLabel, m: Message)
    requires Real(cfg) && SectionMessage(m) && !ReservedReference(m)
    ensures Clean(WrongPeer(cfg, routing, m)) && Clean(Unassigned(cfg, routing, m))
  {
    hide Real;
    if SourceOf(m).Some? {
      ShortFit(cfg, m.source, m.destination, POINT_CODE_MISMATCH);
      ShortFit(cfg, m.source, m.destination, UNASSIGNED_DESTINATION);
    }
  }

  lemma ReceiveSends(cfg: Config, ref: u32, c: Section, now: nat, routing: RoutingLabel, m: Message, available: nat)
    requires Real(cfg) && SectionMessage(m) && !ReservedReference(m) && GoodSection(cfg, ref, c) && Ready(cfg, ref, c) && !c.Frozen?
    ensures var r := Connections.Receive(cfg, ref, c, now, routing, m, available); Ready(cfg, ref, r.0) && Clean(r.1)
  {
    hide Real, Setup, Transferring, WrongSource, WrongPeer;
    WrongPeerSends(cfg, routing, m);
    if c.Outgoing? {
      SetupSends(cfg, ref, c, now, routing, m);
    } else {
      if SourceOf(m).Some? {
        WrongSourceSends(cfg, ref, c, now, routing, m);
      }
      if c.Established? {
        TransferringSends(cfg, ref, c, now, routing, m, available);
      }
    }
  }

  lemma FireSends(cfg: Config, ref: u32, c: Section, kind: TimerKind, now: nat)
    requires Real(cfg) && GoodSection(cfg, ref, c) && Ready(cfg, ref, c) && kind in Deadlines(c)
    ensures var r := Connections.Fire(cfg, ref, c, kind, now); (r.0.Some? ==> Ready(cfg, ref, r.0.value)) && Clean(r.1)
  {
    hide Real, ProviderRelease;
    if c.Established? {
      ShortFit(cfg, c.remoteRef, ref, 0);
      ProviderSends(cfg, ref, c.remoteRef, c.remote, EXPIRATION_OF_RECEIVE_INACTIVITY, now);
    }
  }

  lemma RequestSends(cfg: Config, ref: u32, c: Section, ev: Event)
    requires Ready(cfg, ref, c)
    ensures match ev
            case Accepted(now, _, responding, data, importance) =>
              var a := Connections.Accept(cfg, ref, c, responding, data, importance, now);
              a.Done? ==> Ready(cfg, ref, a.value.0) && Clean(a.value.1)
            case DataRequested(now, _, data) =>
              var a := Connections.SendData(cfg, c, data, now);
              a.Done? ==> Ready(cfg, ref, a.value.0) && Clean(a.value.1)
            case DisconnectRequested(now, _, req) =>
              var a := Connections.Disconnect(cfg, ref, c, req, now);
              a.Done? ==> Ready(cfg, ref, a.value.0) && Clean(a.value.1)
            case _ => true
  {
  }

  // ----- Every run -----

  ghost predicate AllReady(cfg: Config, s: Sections) {
    forall ref :: ref in s && ref < LOCAL_REFERENCE_RESERVED ==> Ready(cfg, ref, s[ref])
  }

  ghost predicate CleanEffect(cfg: Config, e: Effect) {
    && Clean(e.outs)
    && (e.change.Some? && e.change.value.section.Some? && e.change.value.ref < LOCAL_REFERENCE_RESERVED ==>
          Ready(cfg, e.change.value.ref, e.change.value.section.value))
  }

  lemma ArrivalSends(cfg: Config, s: Stack, ev: Event)
    requires Real(cfg) && Good(cfg, s) && ValidSections(s.sections) && AllReady(cfg, s.sections) && ev.Arrival?
    ensures CleanEffect(cfg, Arrives(cfg, s, ev))
  {
    hide Real, Connections.Receive, Candidate, Unassigned, RoutingRefusal;
    if SectionMessage(ev.m) && !ReservedReference(ev.m) {
      var ref: nat := DestinationOf(ev.m);
      WrongPeerSends(cfg, ev.routing, ev.m);
      if ref in s.sections && !s.sections[ref].Frozen? {
        assert GoodSection(cfg, ref, s.sections[ref]);
        ReceiveSends(cfg, ref, s.sections[ref], ev.now, ev.routing, ev.m, Available(cfg, s.sections));
      }
    } else if ev.m.CR? && ev.m.source < LOCAL_REFERENCE_RESERVED {
      forall cause | RefusalCause(cause)
        ensures Clean(Refuse(cfg, ev.routing, ev.m, cause))
      {
        ShortFit(cfg, ev.m.source, 0, cause);
      }
      Refusals();
    }
  }

  predicate RefusalCause(cause: byte) { cause != 0xff }

  lemma Refusals()
    ensures RefusalCause(RESOURCE_NOT_AVAILABLE_TRANSIENT) && forall cause :: RefusalCause(RoutingRefusal(cause))
  {
  }

  lemma EffectSends(cfg: Config, s: Stack, ev: Event)
    requires Real(cfg) && Good(cfg, s) && ValidSections(s.sections) && AllReady(cfg, s.sections)
    ensures CleanEffect(cfg, EffectOf(cfg, s, ev))
  {
    hide Real, Arrives, Connections.Accept, Connections.SendData, Connections.Disconnect, Connections.Fire, Connectable, Candidate;
    match ev {
      case Arrival(_, _, _, _, _) => ArrivalSends(cfg, s, ev);
      case Timeout(now, ref, kind) =>
        if Due(s.sections, now, ref, kind) {
          assert GoodSection(cfg, ref, s.sections[ref]);
          FireSends(cfg, ref, s.sections[ref], kind, now);
        }
      case ConnectRequested(_, _) =>
      case Accepted(_, ref, _, _, _) =>
        if ref in s.sections { RequestSends(cfg, ref, s.sections[ref], ev); }
      case DataRequested(_, ref, _) =>
        if ref in s.sections { RequestSends(cfg, ref, s.sections[ref], ev); }
      case DisconnectRequested(_, ref, _) =>
        if ref in s.sections { RequestSends(cfg, ref, s.sections[ref], ev); }
    }
  }

  lemma StepReady(cfg: Config, s: Stack, ev: Event)
    requires Real(cfg) && Good(cfg, s) && ValidSections(s.sections) && AllReady(cfg, s.sections)
    ensures AllReady(cfg, Step(cfg, s, ev).0.sections)
  {
    EffectSends(cfg, s, ev);
    hide Real, EffectOf, Ready, Good, ValidSections, Clean;
  }

  lemma StartReady(cfg: Config, evs: seq<Event>)
    ensures AllReady(cfg, StackAt(cfg, evs, 0).sections)
  {
  }

  lemma {:induction false} RunReady(cfg: Config, evs: seq<Event>, i: nat)
    requires Real(cfg) && i <= |evs|
    ensures AllReady(cfg, StackAt(cfg, evs, i).sections)
  {
    hide Real, Step, AllReady, Good, ValidSections, StackAt;
    if i == 0 {
      StartReady(cfg, evs);
    } else {
      RunReady(cfg, evs, i - 1);
      NextStack(cfg, evs, i - 1);
      StepReady(cfg, StackAt(cfg, evs, i - 1), evs[i - 1]);
    }
  }

  /**
   * In no run does a message, a timer or a request discard what has to be sent: replies and releases always fit, and
   * a disconnect that was deferred can still be sent with the references that the CC brings.
   */
  lemma NothingUndeliverable(cfg: Config, evs: seq<Event>, i: nat)
    requires Real(cfg) && i < |evs|
    ensures forall o :: o in OutsAt(cfg, evs, i) ==> !(o.Discarded? && o.reason.Undeliverable?)
  {
    hide Real, EffectOf, Good, ValidSections;
    RunReady(cfg, evs, i);
    EffectSends(cfg, StackAt(cfg, evs, i), evs[i]);
  }
}
