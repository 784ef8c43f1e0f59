/**
 * The two ends of a connection over two runs: set-up pairs them, nothing but the end of a section parts them, and so a
 * release always faces a peer that answers it.
 */
module ConnectionPairs {
  import opened Basics
  import opened Fields
  import opened Address
  import opened Messages
  import opened Connections
  import opened ConnectionRuns
  import opened ConnectionPeers
  import ConnectionSending
  import References

  // ----- One section -----

  /** Both sections have a peer, and it is the same. */
  predicate SameEnds(c: Section, c': Section)
    requires (c.Incoming? || c.Established? || c.Releasing?) && (c'.Incoming? || c'.Established? || c'.Releasing?)
  {
    c'.remoteRef == c.remoteRef && c'.remote == c.remote
  }

  /** What can become of a section while its reference is not used again: its peer stays the same to the end. */
  predicate Follows(c: Section, c': Section) {
    match c
    case Incoming(_, _) => c'.Frozen? || (!c'.Outgoing? && SameEnds(c, c'))
    case Outgoing(remote, _, _) => !c'.Incoming? && (c'.Outgoing? ==> c'.remote == remote)
    case Established(_, _, _, _, _, _) => c'.Frozen? || ((c'.Established? || c'.Releasing?) && SameEnds(c, c'))
    case Releasing(_, _, _, _) => c'.Frozen? || (c'.Releasing? && SameEnds(c, c'))
    case Frozen(_) => c' == c
  }

  lemma FollowsOn(a: Section, b: Section, c: Section)
    requires Follows(a, b) && Follows(b, c)
    ensures Follows(a, c)
  {
  }

  lemma ReceiveFollows(cfg: Config, ref: u32, c: Section, now: nat, routing: RoutingLabel, m: Message, available: nat)
    requires SectionMessage(m) && !c.Frozen? && (c.Releasing? ==> c.release.RLSD?)
    ensures Follows(c, Connections.Receive(cfg, ref, c, now, routing, m, available).0)
  {
    hide Grown, ReleaseOf, Transfer, Reply, WrongPeer;
  }

  lemma FireFollows(cfg: Config, ref: u32, c: Section, kind: TimerKind, now: nat)
    requires kind in Deadlines(c)
    ensures var r := Connections.Fire(cfg, ref, c, kind, now).0;
            if r == None then c.Frozen? else Follows(c, r.value)
  {
    hide Transfer, ReleaseOf;
  }

  lemma RequestFollows(cfg: Config, ref: u32, c: Section, ev: Event)
    ensures match ev
            case Accepted(now, _, responding, data, importance) =>
              var a := Connections.Accept(cfg, ref, c, responding, data, importance, now); a.Done? ==> Follows(c, a.value.0)
            case DataRequested(now, _, data) =>
              var a := Connections.SendData(cfg, c, data, now); a.Done? ==> Follows(c, a.value.0)
            case DisconnectRequested(now, _, req) =>
              var a := Connections.Disconnect(cfg, ref, c, req, now); a.Done? ==> Follows(c, a.value.0)
            case _ => true
  {
    hide Transfer, ReleaseOf, DataMessages, AllSent;
  }

  // ----- Every run -----

  /** A step leaves a section one that follows it; only the end of a freeze takes it away. */
  lemma StepFollows(cfg: Config, s: Stack, ev: Event, r: nat)
    requires ValidSections(s.sections) && r in s.sections
    ensures var s' := Step(cfg, s, ev).0.sections;
            if r in s' then Follows(s.sections[r], s'[r]) else s.sections[r].Frozen?
  {
    hide Follows, Connections.Accept, Connections.SendData, Connections.Disconnect, Connections.Fire, Connections.Connect, Connections.Receive, Available, Connectable, Active, Admits;
    var c := s.sections[r];
    References.CandidateExact(Active(s.sections), cfg.maxConnections, s.sections.Keys, s.next, LOCAL_REFERENCE_RESERVED);
    FollowsItself(c);
    match ev {
      case Arrival(now, routing, m, _, _) =>
        if SectionMessage(m) && !c.Frozen? {
          ReceiveFollows(cfg, r, c, now, routing, m, Available(cfg, s.sections));
        }
      case Timeout(now, ref, kind) =>
        if ref == r && Due(s.sections, now, r, kind) {
          FireFollows(cfg, r, c, kind, now);
        }
      case ConnectRequested(_, _) =>
      case _ => RequestFollows(cfg, r, c, ev);
    }
  }

  lemma FollowsItself(c: Section)
    ensures Follows(c, c)
  {
  }

  /** From i to j the reference is not given out again. */
  ghost predicate NotReused(cfg: Config, evs: seq<Event>, i: nat, j: nat, r: nat)
    requires i <= j <= |evs|
  {
    forall k :: i < k <= j && r in StackAt(cfg, evs, k).sections ==> r in StackAt(cfg, evs, k - 1).sections
  }

  /** Over any run, whatever happens in between: the peer of a section stays the same until its reference is used again. */
  lemma {:induction false} PeerStays(cfg: Config, evs: seq<Event>, i: nat, j: nat, r: nat)
    requires i <= j <= |evs| && NotReused(cfg, evs, i, j, r) && r in StackAt(cfg, evs, j).sections
    ensures r in StackAt(cfg, evs, i).sections
    ensures Follows(StackAt(cfg, evs, i).sections[r], StackAt(cfg, evs, j).sections[r])
    decreases j
  {
    hide StackAt, Step, Follows, Good, ValidSections;
    if i == j {
      FollowsItself(StackAt(cfg, evs, i).sections[r]);
    } else {
      PeerStays(cfg, evs, i, j - 1, r);
      NextStack(cfg, evs, j - 1);
      StepFollows(cfg, StackAt(cfg, evs, j - 1), evs[j - 1], r);
      FollowsOn(StackAt(cfg, evs, i).sections[r], StackAt(cfg, evs, j - 1).sections[r], StackAt(cfg, evs, j).sections[r]);
    }
  }

  // ----- Set-up -----

  lemma RequestSent(cfg: Config, s: Stack, now: nat, req: ConnectRequest) returns (ref: u32)
    requires ValidSections(s.sections) && EffectOf(cfg, s, ConnectRequested(now, req)).error == None
    ensures ref < LOCAL_REFERENCE_RESERVED && ref as nat !in s.sections && RequestedDestination(req).Some?
    ensures var (s', outs) := Step(cfg, s, ConnectRequested(now, req));
            var remote := CalledNode(cfg, req, s.sls);
            && s'.sections == s.sections[ref as nat := Outgoing(remote, now + cfg.establishment, None)]
            && outs == [Sent(remote, RequestOf(cfg, req, ref))]
  {
    hide ValidSections, RequestOf, Active;
    References.CandidateExact(Active(s.sections), cfg.maxConnections, s.sections.Keys, s.next, LOCAL_REFERENCE_RESERVED);
    ref := Candidate(cfg, s).ref;
  }

  lemma RequestOffered(cfg: Config, s: Stack, ev: Event, ref: nat)
    requires ValidSections(s.sections) && ev.Arrival? && ref !in s.sections && ref in Step(cfg, s, ev).0.sections
    ensures ev.m.CR? && ref < LOCAL_REFERENCE_RESERVED
    ensures Step(cfg, s, ev).0.sections[ref] == Incoming(ev.m.source, RequestOrigin(ev.routing, ev.m))
  {
    hide ValidSections, Active, Admits, Refuse, Connections.Receive, RequestOrigin;
    References.CandidateExact(Active(s.sections), cfg.maxConnections, s.sections.Keys, s.next, LOCAL_REFERENCE_RESERVED);
  }

  lemma ResponseSent(cfg: Config, s: Stack, ev: Event)
    requires ValidSections(s.sections) && ev.Accepted? && EffectOf(cfg, s, ev).error == None
    ensures ev.ref in s.sections && s.sections[ev.ref].Incoming? && ev.ref < LOCAL_REFERENCE_RESERVED
    ensures var (s', outs) := Step(cfg, s, ev);
            var c := s.sections[ev.ref];
            && ev.ref in s'.sections && s'.sections[ev.ref] == Establish(cfg, c.remoteRef, c.remote, ev.now)
            && outs == [Sent(c.remote, CC(c.remoteRef, ev.ref, ProtocolClass(2, false), None, ev.responding, ev.data, SetupImportance(ev.importance), []))]
  {
  }

  lemma ConfirmArrives(cfg: Config, s: Stack, ev: Event, ref: u32)
    requires ValidSections(s.sections) && ev.Arrival? && ev.m.CC? && ev.m.destination == ref && ev.m.protocolClass.number == 2
    requires ref as nat in s.sections && s.sections[ref].Outgoing? && s.sections[ref].disconnect == None
    requires ref < LOCAL_REFERENCE_RESERVED && ev.m.source < LOCAL_REFERENCE_RESERVED
    ensures ref as nat in Step(cfg, s, ev).0.sections
    ensures var remote := s.sections[ref].remote.(dpc := ev.routing.opc, ni := ev.routing.ni);
            Step(cfg, s, ev).0.sections[ref] == Establish(cfg, ev.m.source, remote, ev.now)
  {
    hide Available, Establish, ValidSections;
  }

  /** The two ends of one connection: each has the other's reference, and their messages go to each other's node. */
  predicate Paired(a: Section, ra: nat, b: Section, rb: nat) {
    && a.Established? && b.Established? && a.remoteRef as nat == rb && b.remoteRef as nat == ra
    && Opposite(a.remote, b.remote)
  }

  /** The calling address does not name another node than the one that asks. */
  predicate CallsFromHere(cfg: Config, req: ConnectRequest) {
    req.calling == None || !req.calling.value.hasPointCode || req.calling.value.pointCode as int == cfg.pointCode as int
  }

  /**
   * Set-up over two runs. At i0 node A sends a CR for reference ra, which node B takes at j0 for reference rb; at j1
   * B's user accepts and a CC is sent, which A takes at i1, still waiting for it. In between anything else may happen
   * at either node. Then both ends are established with each other's reference, A's messages go to the node that
   * sent the CC, and the ends are paired if and only if the calling address names no other node than A.
   */
  lemma {:induction false} ConnectionIsPaired(cfgA: Config, evsA: seq<Event>, i0: nat, i1: nat, ra: nat, cfgB: Config, evsB: seq<Event>, j0: nat, j1: nat, rb: nat)
    requires i0 < i1 < |evsA| && evsA[i0].ConnectRequested? && evsA[i1].Arrival? && evsA[i1].m.CC? && evsA[i1].m.destination as nat == ra
    requires EffectOf(cfgA, StackAt(cfgA, evsA, i0), evsA[i0]).error == None
    requires ra !in StackAt(cfgA, evsA, i0).sections && ra in StackAt(cfgA, evsA, i0 + 1).sections
    requires NotReused(cfgA, evsA, i0 + 1, i1, ra) && ra in StackAt(cfgA, evsA, i1).sections
    requires var c := StackAt(cfgA, evsA, i1).sections[ra]; c.Outgoing? && c.disconnect == None
    requires j0 < j1 < |evsB| && evsB[j0].Arrival? && evsB[j0].m.CR? && evsB[j1].Accepted? && evsB[j1].ref == rb
    requires rb !in StackAt(cfgB, evsB, j0).sections && rb in StackAt(cfgB, evsB, j0 + 1).sections
    requires NotReused(cfgB, evsB, j0 + 1, j1, rb) && EffectOf(cfgB, StackAt(cfgB, evsB, j1), evsB[j1]).error == None
    requires Sent(evsB[j0].routing, evsB[j0].m) in OutsAt(cfgA, evsA, i0)
    requires Sent(evsA[i1].routing, evsA[i1].m) in OutsAt(cfgB, evsB, j1)
    ensures ra in StackAt(cfgA, evsA, i1 + 1).sections && rb in StackAt(cfgB, evsB, j1 + 1).sections
    ensures var a, b := StackAt(cfgA, evsA, i1 + 1).sections[ra], StackAt(cfgB, evsB, j1 + 1).sections[rb];
            && a.Established? && b.Established? && a.remoteRef as nat == rb && b.remoteRef as nat == ra && a.data == b.data == []
            && a.remote.dpc == b.remote.opc && a.remote.ni == b.remote.ni && a.remote.opc == cfgA.pointCode
            && (Paired(a, ra, b, rb) <==> CallsFromHere(cfgA, evsA[i0].request))
  {
    hide StackAt, Step, EffectOf, Good, ValidSections;
    var a0, b0, b1 := StackAt(cfgA, evsA, i0), StackAt(cfgB, evsB, j0), StackAt(cfgB, evsB, j1);
    NextStack(cfgA, evsA, i0);
    NextStack(cfgA, evsA, i1);
    NextStack(cfgB, evsB, j0);
    NextStack(cfgB, evsB, j1);
    var ref := RequestSent(cfgA, a0, evsA[i0].now, evsA[i0].request);
    PeerStays(cfgA, evsA, i0 + 1, i1, ra);
    RequestOffered(cfgB, b0, evsB[j0], rb);
    ResponseSent(cfgB, b1, evsB[j1]);
    PeerStays(cfgB, evsB, j0 + 1, j1, rb);
    ConfirmArrives(cfgA, StackAt(cfgA, evsA, i1), evsA[i1], ref);
  }

  // ----- Release -----

  /**
   * Two ends that were paired at i and j: when A is releasing its end, B, whatever has happened to it meanwhile, either
   * answers a release of A's or is releasing as well, until it uses its reference again.
   */
  lemma {:induction false} FacesPeer(cfgA: Config, evsA: seq<Event>, i: nat, i': nat, ra: nat, cfgB: Config, evsB: seq<Event>, j: nat, j': nat, rb: nat)
    requires i <= i' <= |evsA| && NotReused(cfgA, evsA, i, i', ra) && j <= j' <= |evsB| && NotReused(cfgB, evsB, j, j', rb)
    requires ra in StackAt(cfgA, evsA, i).sections && rb in StackAt(cfgB, evsB, j).sections
    requires Paired(StackAt(cfgA, evsA, i).sections[ra], ra, StackAt(cfgB, evsB, j).sections[rb], rb)
    requires ra in StackAt(cfgA, evsA, i').sections && StackAt(cfgA, evsA, i').sections[ra].Releasing?
    ensures Initiator(cfgA, StackAt(cfgA, evsA, i'), ra) && StackAt(cfgA, evsA, i').sections[ra].release.RLSD?
    ensures var c := StackAt(cfgA, evsA, i').sections[ra];
            && c.remoteRef as nat == rb && c.release.source as nat == ra
            && (Counterpart(cfgB, StackAt(cfgB, evsB, j'), c) || Crossed(cfgB, StackAt(cfgB, evsB, j'), c))
  {
    PeerStays(cfgA, evsA, i, i', ra);
    assert GoodSection(cfgA, ra, StackAt(cfgA, evsA, i').sections[ra]);
    if rb in StackAt(cfgB, evsB, j').sections {
      PeerStays(cfgB, evsB, j, j', rb);
    }
    hide StackAt, Good, ValidSections;
  }

  /** What is left of a peer that releases as well, once a first RLSD has reached it. */
  ghost function Reached(cfg: Config, b: Stack, c: Section, now: nat, local: bool, subsystems: map<byte, bool>): Stack
    requires ValidSections(b.sections) && c.Releasing? && c.release.RLSD?
  {
    if Crossed(cfg, b, c) then Step(cfg, b, Arrival(now, c.remote, c.release, local, subsystems)).0 else b
  }

  /**
   * A release of one of two paired ends completes over any run. If the peer releases too, a first RLSD that reaches
   * it ends its part; and the RLSD that the next timer repeats is sent, answered, and its answer freezes A's section.
   */
  lemma {:induction false} ReleaseOfPairCompletes(
    cfgA: Config, evsA: seq<Event>, i: nat, i': nat, ra: nat, cfgB: Config, evsB: seq<Event>, j: nat, j': nat, rb: nat,
    kind: TimerKind, now: nat, sent: nat, again: nat, answered: nat, local: bool, subsystems: map<byte, bool>)
    returns (routing: RoutingLabel)
    requires i <= i' <= |evsA| && NotReused(cfgA, evsA, i, i', ra) && j <= j' <= |evsB| && NotReused(cfgB, evsB, j, j', rb)
    requires ra in StackAt(cfgA, evsA, i).sections && rb in StackAt(cfgB, evsB, j).sections
    requires Paired(StackAt(cfgA, evsA, i).sections[ra], ra, StackAt(cfgB, evsB, j).sections[rb], rb)
    requires ra in StackAt(cfgA, evsA, i').sections && StackAt(cfgA, evsA, i').sections[ra].Releasing?
    requires ValidConfig(cfgA) && ConnectionSending.Real(cfgA) && ConnectionSending.Real(cfgB)
    requires Due(StackAt(cfgA, evsA, i').sections, now, ra, kind) && kind != TGiveUp
    ensures StackAt(cfgA, evsA, i').sections[ra].release.RLSD? && ra < LOCAL_REFERENCE_RESERVED
    ensures var a := StackAt(cfgA, evsA, i');
            var c := a.sections[ra];
            var b := Reached(cfgB, StackAt(cfgB, evsB, j'), c, sent, local, subsystems);
            var (a', outs) := Step(cfgA, a, Timeout(now, ra, kind));
            && outs == [Sent(c.remote, c.release)] && ValidSections(a'.sections) && ValidSections(b.sections)
            && Sends(Step(cfgB, b, Arrival(again, c.remote, c.release, local, subsystems)).1, routing, RLC(ra, c.remoteRef))
            && Step(cfgA, a', Arrival(answered, routing, RLC(ra, c.remoteRef), local, subsystems)).0.sections
               == a'.sections[ra := Freeze(cfgA, answered)]
  {
    FacesPeer(cfgA, evsA, i, i', ra, cfgB, evsB, j, j', rb);
    ConnectionSending.RunReady(cfgA, evsA, i');
    hide StackAt, Good, ValidSections, ConnectionSending.Real, Counterpart, Crossed, Step;
    var a, b := StackAt(cfgA, evsA, i'), StackAt(cfgB, evsB, j');
    var c := a.sections[ra];
    ReleaseFacts(cfgA, a, ra);
    if Crossed(cfgB, b, c) {
      CrossedEnds(cfgB, b, c, sent, local, subsystems);
    }
    ConnectionSending.ShortFit(cfgB, ra, c.remoteRef, 0);
    routing := RepetitionRepairs(cfgA, a, cfgB, Reached(cfgB, b, c, sent, local, subsystems), ra, kind, now, again, answered, local, subsystems);
  }

  lemma ReleaseFacts(cfg: Config, s: Stack, r: nat)
    requires Initiator(cfg, s, r)
    ensures var c := s.sections[r];
            && r < LOCAL_REFERENCE_RESERVED && c.remoteRef < LOCAL_REFERENCE_RESERVED && c.release.RLSD?
            && c.release.destination == c.remoteRef && c.release.source as nat == r
  {
    assert GoodSection(cfg, r, s.sections[r]);
  }
}
