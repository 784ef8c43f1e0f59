/** N-DATA over an established connection: what one user sends, the other is given, NSDU by NSDU. */
module ConnectionData {
  import opened Basics
  import opened Fields
  import opened Wire
  import opened Messages
  import opened Codec
  import opened Sizes
  import opened Connections
  import opened ConnectionRuns
  import opened ConnectionSending
  import opened ConnectionPairs
  import opened Connectionless

  // ----- Sending -----

  /** A DT1 has seven octets besides its user data, so that the parts of an NSDU always fit. */
  lemma DataFits(cfg: Config, remoteRef: u32, more: bool, data: bytes)
    requires Real(cfg) && remoteRef < LOCAL_REFERENCE_RESERVED && 1 <= |data| <= DataSize(cfg)
    ensures cfg.fits(DT1(remoteRef, more, data))
  {
    hide Marshal;
    DataMarshals(cfg.maxMessageSize, DT1(remoteRef, more, data));
  }

  lemma DataMarshals(limit: int, m: Message)
    requires 0 < limit <= MAX_BROADBAND_MESSAGE_SIZE && m.DT1? && m.destination < LOCAL_REFERENCE_RESERVED
    requires 1 <= |m.data| <= Min(MAX_DATA, limit - 7)
    ensures Marshal(limit, m).Octets?
  {
    DataFrame(m);
    EncodedSize(m);
    hide FrameOf, Representable, Render;
  }

  lemma DataFrame(m: Message)
    requires m.DT1? && m.destination < LOCAL_REFERENCE_RESERVED && 1 <= |m.data| <= MAX_DATA
    ensures Encodable(m) && RenderLength(ShapeOf(TypeOf(m)), FrameOf(m).value) == 7 + |m.data|
  {
    assert Collect([]) == Some([]);
    var none: seq<Param> := [];
    assert none + [] == none;
    var sh, fr := ShapeOf(TypeOf(m)), FrameOf(m).value;
    assert fr.variables == [m.data] && fr.variables[..0] == [];
    assert PointerValues(sh, fr) == [1];
    assert BlocksLength(sh, []) == 0;
  }

  lemma {:induction false} PartsFit(cfg: Config, remoteRef: u32, data: bytes, off: nat)
    requires Real(cfg) && remoteRef < LOCAL_REFERENCE_RESERVED && DataSize(cfg) > 0
    ensures forall m :: m in DataMessages(remoteRef, data, DataSize(cfg), off) ==> cfg.fits(m)
    decreases |data| - off
  {
    hide Real;
    if off < |data| {
      var end := Min(off + DataSize(cfg), |data|);
      DataFits(cfg, remoteRef, end < |data|, data[off..end]);
      PartsFit(cfg, remoteRef, data, off + DataSize(cfg));
    }
  }

  lemma SizePositive(cfg: Config)
    requires Real(cfg)
    ensures DataSize(cfg) > 0
  {
  }

  /** An NSDU is accepted exactly when it is not empty and not too long; no DT1 of it can fail to be sent. */
  lemma SendDataExact(cfg: Config, c: Section, data: bytes, now: nat)
    requires Real(cfg) && c.Established? && c.remoteRef < LOCAL_REFERENCE_RESERVED
    ensures Connections.SendData(cfg, c, data, now)
            == if 1 <= |data| <= cfg.maxDataLength
               then Done((c.(ias := now + cfg.ias), AllSent(c.remote, DataMessages(c.remoteRef, data, DataSize(cfg), 0))))
               else Answer.Refused(InvalidRequest)
  {
    hide Real, DataMessages, AllSent, DataSize;
    SizePositive(cfg);
    PartsFit(cfg, c.remoteRef, data, 0);
  }

  /** The most user data that fits a DT1: seven octets less than the maximum message size, 255 at most. */
  lemma LongerDataFails(cfg: Config, remoteRef: u32, more: bool, data: bytes)
    requires Real(cfg) && (|data| > 255 || |data| > cfg.maxMessageSize - 7)
    ensures !cfg.fits(DT1(remoteRef, more, data))
  {
    hide Marshal;
    LongerFails(cfg.maxMessageSize, DT1(remoteRef, more, data));
  }

  lemma LongerFails(limit: int, m: Message)
    requires 0 < limit && m.DT1? && (|m.data| > 255 || |m.data| > limit - 7)
    ensures !Marshal(limit, m).Octets?
  {
    if Encodable(m) {
      DataFrame(m);
      EncodedSize(m);
      hide FrameOf, Representable, Render;
    }
  }

  /** Each message but the last is full and says that more follows; the last holds what remains. */
  lemma {:induction false} PartsFull(remoteRef: u32, data: bytes, size: nat, off: nat, i: nat)
    requires size > 0 && i < |DataMessages(remoteRef, data, size, off)|
    ensures var ms := DataMessages(remoteRef, data, size, off);
            && ms[i].DT1? && ms[i].destination == remoteRef && (ms[i].moreData <==> i + 1 < |ms|)
            && 1 <= |ms[i].data| <= size && (i + 1 < |ms| ==> |ms[i].data| == size)
    decreases |data| - off
  {
    if i > 0 {
      PartsFull(remoteRef, data, size, off + size, i - 1);
    }
  }

  /** The NSDU that a user sends goes in full DT1 messages of 255 octets, or of seven less than the maximum message size. */
  lemma SentInFullParts(cfg: Config, c: Section, data: bytes, now: nat, i: nat)
    requires Real(cfg) && c.Established? && c.remoteRef < LOCAL_REFERENCE_RESERVED && 1 <= |data| <= cfg.maxDataLength
    ensures Connections.SendData(cfg, c, data, now).Done? && Connections.SendData(cfg, c, data, now).value.0 == c.(ias := now + cfg.ias)
    ensures var outs, most := Connections.SendData(cfg, c, data, now).value.1, if cfg.maxMessageSize < 262 then cfg.maxMessageSize - 7 else 255;
            i < |outs| ==>
              && outs[i].Sent? && outs[i].routing == c.remote
              && outs[i].message.DT1? && outs[i].message.destination == c.remoteRef
              && (outs[i].message.moreData <==> i + 1 < |outs|)
              && 1 <= |outs[i].message.data| <= most && (i + 1 < |outs| ==> |outs[i].message.data| == most)
  {
    hide Real, DataMessages;
    SendDataExact(cfg, c, data, now);
    SizePositive(cfg);
    if i < |DataMessages(c.remoteRef, data, DataSize(cfg), 0)| {
      PartsFull(c.remoteRef, data, DataSize(cfg), 0, i);
    }
  }

  // ----- Receiving -----

  /** The M bit and the user data of a DT1. */
  datatype Part = Part(more: bool, data: bytes)

  /** What parts make, after the octets held: the NSDUs that an M bit of 0 ends, and what is held of the next. */
  function Join(held: bytes, parts: seq<Part>): (seq<bytes>, bytes) {
    if |parts| == 0 then ([], held) else
    var (whole, rest) := Join(held, parts[..|parts| - 1]);
    var p := parts[|parts| - 1];
    if p.more then (whole, rest + p.data) else (whole + [rest + p.data], [])
  }

  /** The message comes from the node of the section's peer. */
  predicate FromPeer(routing: RoutingLabel, c: Section)
    requires c.Established?
  {
    routing.opc == c.remote.dpc && routing.ni == c.remote.ni
  }

  /** The part that an event brings for section c of reference r: a DT1 with user data from its peer. */
  function PartIn(ev: Event, c: Section, r: nat): seq<Part>
    requires c.Established?
  {
    if ev.Arrival? && ev.m.DT1? && ev.m.destination as nat == r && |ev.m.data| > 0 && FromPeer(ev.routing, c)
    then [Part(ev.m.moreData, ev.m.data)] else []
  }

  /** The user data that the user of r is given. */
  function GivenIn(o: Out, r: nat): seq<bytes> {
    if o.Indicated? && o.indication.DataIndication? && o.indication.ref == r then [o.indication.data] else []
  }

  function Given(outs: seq<Out>, r: nat): seq<bytes> {
    if |outs| == 0 then [] else Given(outs[..|outs| - 1], r) + GivenIn(outs[|outs| - 1], r)
  }

  /** No user is given data, and no DT1 is sent. */
  predicate NoData(outs: seq<Out>) {
    forall o :: o in outs ==> !(o.Indicated? && o.indication.DataIndication?) && !(o.Sent? && o.message.DT1?)
  }

  lemma {:induction false} NoneGiven(outs: seq<Out>, r: nat)
    requires NoData(outs)
    ensures Given(outs, r) == []
  {
    if |outs| > 0 {
      assert outs[|outs| - 1] in outs;
      NoneGiven(outs[..|outs| - 1], r);
    }
  }

  lemma OneGiven(o: Out, r: nat)
    ensures Given([o], r) == GivenIn(o, r)
  {
    assert Given([o][..0], r) == [];
    assert [] + GivenIn(o, r) == GivenIn(o, r);
  }

  /** What a message does to the buffer of its section. Only a DT1 in data transfer touches it or gives data. */
  lemma ReceiveGives(cfg: Config, ref: u32, c: Section, now: nat, routing: RoutingLabel, m: Message, available: nat)
    requires SectionMessage(m) && !c.Frozen? && (c.Releasing? ==> c.release.RLSD?)
    ensures var (c', outs) := Connections.Receive(cfg, ref, c, now, routing, m, available);
            if c.Established? && m.DT1? && FromPeer(routing, c) && c'.Established? then
              if m.moreData then c'.data == c.data + m.data && outs == []
              else c'.data == [] && outs == [Indicated(DataIndication(ref, c.data + m.data))]
            else NoData(outs) && (c.Established? && c'.Established? ==> c'.data == c.data)
  {
    hide Setup, Transferring, WrongSource, WrongPeer;
    if c.Outgoing? {
      SetupGives(cfg, ref, c, now, routing, m);
    } else {
      WrongSourceGives(cfg, ref, c, now, routing, m);
      if c.Established? {
        TransferringGives(cfg, ref, c, now, routing, m, available);
      }
    }
    WrongPeerGives(cfg, routing, m);
  }

  lemma WrongPeerGives(cfg: Config, routing: RoutingLabel, m: Message)
    requires SectionMessage(m)
    ensures NoData(WrongPeer(cfg, routing, m))
  {
  }

  lemma SetupGives(cfg: Config, ref: u32, c: Section, now: nat, routing: RoutingLabel, m: Message)
    requires SectionMessage(m) && c.Outgoing?
    ensures NoData(Setup(cfg, ref, c, now, routing, m).1)
  {
  }

  lemma WrongSourceGives(cfg: Config, ref: u32, c: Section, now: nat, routing: RoutingLabel, m: Message)
    requires SectionMessage(m) && !c.Frozen? && !c.Outgoing? && (c.Releasing? ==> c.release.RLSD?)
    ensures var (c', outs) := WrongSource(cfg, ref, c, now, routing, m);
            NoData(outs) && (c.Established? && c'.Established? ==> c'.data == c.data)
  {
  }

  lemma TransferringGives(cfg: Config, ref: u32, c: Section, now: nat, routing: RoutingLabel, m: Message, available: nat)
    requires SectionMessage(m) && c.Established?
    ensures var (c', outs) := Transferring(cfg, ref, c, now, routing, m, available);
            if m.DT1? && c'.Established? then
              if m.moreData then c'.data == c.data + m.data && outs == []
              else c'.data == [] && outs == [Indicated(DataIndication(ref, c.data + m.data))]
            else NoData(outs) && (c'.Established? ==> c'.data == c.data)
  {
    hide Grown;
  }

  /** A DT1 of the peer is taken, and does not end the connection, exactly when it is not too long and finds room. */
  lemma PartTaken(cfg: Config, ref: u32, c: Section, now: nat, routing: RoutingLabel, m: Message, available: nat)
    requires c.Established? && m.DT1? && FromPeer(routing, c) && c.capacity <= cfg.maxDataLength
    ensures Connections.Receive(cfg, ref, c, now, routing, m, available).0.Established? <==>
            |c.data| + |m.data| <= cfg.maxDataLength && |c.data| + |m.data| <= c.capacity + available
  {
  }

  lemma FireGives(cfg: Config, ref: u32, c: Section, kind: TimerKind, now: nat)
    requires kind in Deadlines(c) && (c.Releasing? ==> c.release.RLSD?)
    ensures var r := Connections.Fire(cfg, ref, c, kind, now);
            NoData(r.1) && (c.Established? && r.0.Some? && r.0.value.Established? ==> r.0.value.data == c.data)
  {
  }

  /** SendData leaves the buffer of its own section alone, and gives nothing. */
  lemma SendDataGives(cfg: Config, c: Section, data: bytes, now: nat, r: nat)
    requires Connections.SendData(cfg, c, data, now).Done?
    ensures Given(Connections.SendData(cfg, c, data, now).value.1, r) == []
    ensures var c' := Connections.SendData(cfg, c, data, now).value.0; c.Established? && c'.Established? && c'.data == c.data
  {
    hide DataMessages, AllSent;
    SentGivesNone(c.remote, DataMessages(c.remoteRef, data, DataSize(cfg), 0), r);
  }

  /** The other requests neither give nor send data; none of them leaves a section in data transfer in it. */
  lemma RequestGives(cfg: Config, ref: u32, c: Section, ev: Event)
    ensures match ev
            case Accepted(now, _, responding, data, importance) =>
              var a := Connections.Accept(cfg, ref, c, responding, data, importance, now); a.Done? ==> NoData(a.value.1) && !c.Established?
            case DisconnectRequested(now, _, req) =>
              var a := Connections.Disconnect(cfg, ref, c, req, now); a.Done? ==> NoData(a.value.1) && !a.value.0.Established?
            case _ => true
  {
  }

  lemma {:induction false} SentGivesNone(routing: RoutingLabel, ms: seq<Message>, r: nat)
    ensures Given(AllSent(routing, ms), r) == []
  {
    AllSentGivesNone(AllSent(routing, ms), r);
  }

  lemma {:induction false} AllSentGivesNone(outs: seq<Out>, r: nat)
    requires forall i :: 0 <= i < |outs| ==> outs[i].Sent?
    ensures Given(outs, r) == []
  {
    if |outs| > 0 {
      AllSentGivesNone(outs[..|outs| - 1], r);
    }
  }

  /** A section takes the message. */
  predicate ForSection(s: Sections, m: Message) {
    && SectionMessage(m) && !InvalidParameter(m) && !ReservedReference(m)
    && var ref: nat := DestinationOf(m); ref in s && !s[ref].Frozen?
  }

  /** A message that goes to no section, or to none yet, gives no data. */
  lemma ArrivalGives(cfg: Config, s: Stack, ev: Event)
    requires ev.Arrival? && ValidSections(s.sections)
    requires !ForSection(s.sections, ev.m)
    ensures NoData(Arrives(cfg, s, ev).outs)
  {
    hide Candidate, ReservedReference, RequestArrives;
    if ev.m.CR? {
      CallGives(cfg, s, ev);
    }
  }

  lemma CallGives(cfg: Config, s: Stack, ev: Event)
    requires ev.Arrival? && ev.m.CR?
    ensures NoData(RequestArrives(cfg, s, ev).outs)
  {
    hide Candidate, RequestOrigin, RoutingRefusal, Route, SubsystemCause;
  }

  lemma ConnectGives(cfg: Config, s: Stack, ev: Event)
    requires ev.ConnectRequested?
    ensures NoData(Connects(cfg, s, ev).outs)
  {
    hide Candidate, Connectable;
  }

  // ----- Every run, at the end that receives -----

  /** r is in data transfer all the time from i to j. */
  ghost predicate InTransfer(cfg: Config, evs: seq<Event>, i: nat, j: nat, r: nat)
    requires i <= j <= |evs|
  {
    forall k :: i <= k <= j ==> r in StackAt(cfg, evs, k).sections && StackAt(cfg, evs, k).sections[r].Established?
  }

  /** An event at a section that stays in data transfer: a part joins the buffer, and nothing else touches it or gives data. */
  predicate DataStep(c: Section, c': Section, parts: seq<Part>, given: seq<bytes>)
    requires c.Established? && c'.Established?
  {
    Join(c.data, parts) == (given, c'.data)
  }

  lemma NothingJoined(held: bytes)
    ensures Join(held, []) == ([], held)
  {
  }

  lemma OneJoined(held: bytes, p: Part)
    ensures Join(held, [p]) == if p.more then ([], held + p.data) else ([held + p.data], [])
  {
    assert [p][..0] == [];
    NothingJoined(held);
    assert [] + [held + p.data] == [held + p.data];
  }

  /** A message for the section itself. */
  lemma ReceiveStep(cfg: Config, ref: u32, c: Section, ev: Event, available: nat)
    requires ev.Arrival? && SectionMessage(ev.m) && c.Established? && DestinationOf(ev.m) == ref && !InvalidParameter(ev.m)
    ensures var (c', outs) := Connections.Receive(cfg, ref, c, ev.now, ev.routing, ev.m, available);
            c'.Established? ==> DataStep(c, c', PartIn(ev, c, ref), Given(outs, ref))
  {
    hide Connections.Receive, Join, Given, NoData;
    var (c', outs) := Connections.Receive(cfg, ref, c, ev.now, ev.routing, ev.m, available);
    ReceiveGives(cfg, ref, c, ev.now, ev.routing, ev.m, available);
    NothingJoined(c.data);
    if ev.m.DT1? && FromPeer(ev.routing, c) && c'.Established? {
      OneJoined(c.data, Part(ev.m.moreData, ev.m.data));
      if !ev.m.moreData {
        OneGiven(outs[0], ref);
      } else {
        NothingGiven(ref);
      }
    } else {
      NoneGiven(outs, ref);
    }
  }

  lemma NothingGiven(r: nat)
    ensures Given([], r) == []
  {
  }

  /** A message for another section gives its user no data. */
  lemma ReceiveElsewhere(cfg: Config, ref: u32, c: Section, ev: Event, available: nat, r: nat)
    requires ev.Arrival? && SectionMessage(ev.m) && !c.Frozen? && (c.Releasing? ==> c.release.RLSD?) && r != ref as nat
    ensures Given(Connections.Receive(cfg, ref, c, ev.now, ev.routing, ev.m, available).1, r) == []
  {
    hide Connections.Receive, Given, NoData;
    var outs := Connections.Receive(cfg, ref, c, ev.now, ev.routing, ev.m, available).1;
    ReceiveGives(cfg, ref, c, ev.now, ev.routing, ev.m, available);
    NothingGiven(r);
    if NoData(outs) {
      NoneGiven(outs, r);
    } else if |outs| == 1 {
      OneGiven(outs[0], r);
    }
  }

  lemma ArrivalStep(cfg: Config, s: Stack, ev: Event, r: nat)
    requires Good(cfg, s) && ValidSections(s.sections) && ev.Arrival? && r in s.sections && s.sections[r].Established?
    ensures var e := Arrives(cfg, s, ev);
            var s' := Apply(s, ev, e);
            r in s'.sections && s'.sections[r].Established? ==>
              DataStep(s.sections[r], s'.sections[r], PartIn(ev, s.sections[r], r), Given(e.outs, r))
  {
    hide Connections.Receive, Given, Join, NoData, Good, Active, Available, RequestArrives, DataStep;
    var c, ref: nat := s.sections[r], DestinationOf(ev.m);
    Unchanged(c);
    if ForSection(s.sections, ev.m) {
      if ref == r {
        ReceiveStep(cfg, r, c, ev, Available(cfg, s.sections));
      } else {
        ReceiveElsewhere(cfg, ref, s.sections[ref], ev, Available(cfg, s.sections), r);
      }
    } else {
      ArrivalGives(cfg, s, ev);
      NoneGiven(Arrives(cfg, s, ev).outs, r);
      ArrivalElsewhere(cfg, s, ev, r);
    }
  }

  lemma Unchanged(c: Section)
    requires c.Established?
    ensures DataStep(c, c, [], [])
  {
    NothingJoined(c.data);
  }

  lemma ArrivalElsewhere(cfg: Config, s: Stack, ev: Event, r: nat)
    requires ValidSections(s.sections) && ev.Arrival? && r in s.sections && s.sections[r].Established? && !ForSection(s.sections, ev.m)
    ensures var s' := Apply(s, ev, Arrives(cfg, s, ev)).sections; r in s' && s'[r] == s.sections[r]
    ensures PartIn(ev, s.sections[r], r) == []
  {
    hide Connections.Receive, Active, Admits, Refuse, Unassigned;
    References.CandidateExact(Active(s.sections), cfg.maxConnections, s.sections.Keys, s.next, LOCAL_REFERENCE_RESERVED);
  }

  /** Any event at all, as the buffer of a section that stays in data transfer and its user see it. */
  lemma StepGives(cfg: Config, s: Stack, ev: Event, r: nat)
    requires Good(cfg, s) && ValidSections(s.sections) && r in s.sections && s.sections[r].Established?
    ensures var (s', outs) := Step(cfg, s, ev);
            r in s'.sections && s'.sections[r].Established? ==>
              DataStep(s.sections[r], s'.sections[r], PartIn(ev, s.sections[r], r), Given(outs, r))
  {
    hide Connections.Fire, Connections.Accept, Connections.SendData, Connections.Disconnect, Arrives, Connects, Given, NoData, DataStep, Good, Active;
    var c := s.sections[r];
    Unchanged(c);
    NothingGiven(r);
    match ev {
      case Arrival(_, _, _, _, _) => ArrivalStep(cfg, s, ev, r);
      case Timeout(now, ref, kind) =>
        if Due(s.sections, now, ref, kind) {
          FireGives(cfg, ref, s.sections[ref], kind, now);
          NoneGiven(Connections.Fire(cfg, ref, s.sections[ref], kind, now).1, r);
          SameData(c);
        }
      case ConnectRequested(_, _) =>
        ConnectGives(cfg, s, ev);
        NoneGiven(Connects(cfg, s, ev).outs, r);
        ConnectElsewhere(cfg, s, ev, r);
      case DataRequested(now, ref, data) =>
        if ref in s.sections && Connections.SendData(cfg, s.sections[ref], data, now).Done? {
          SendDataGives(cfg, s.sections[ref], data, now, r);
          SameData(c);
        }
      case _ =>
        if ev.ref in s.sections {
          RequestGives(cfg, ev.ref, s.sections[ev.ref], ev);
          var outs := EffectOf(cfg, s, ev).outs;
          if NoData(outs) {
            NoneGiven(outs, r);
          }
        }
    }
  }

  lemma SameData(c: Section)
    requires c.Established?
    ensures forall c': Section :: c'.Established? && c'.data == c.data ==> DataStep(c, c', [], [])
  {
    NothingJoined(c.data);
  }

  lemma ConnectElsewhere(cfg: Config, s: Stack, ev: Event, r: nat)
    requires ValidSections(s.sections) && ev.ConnectRequested? && r in s.sections
    ensures var s' := Apply(s, ev, Connects(cfg, s, ev)).sections; r in s' && s'[r] == s.sections[r]
  {
    hide Connections.Connect, Active, Connectable;
    References.CandidateExact(Active(s.sections), cfg.maxConnections, s.sections.Keys, s.next, LOCAL_REFERENCE_RESERVED);
  }

  /** The parts that arrive for r in the events from i to j, in order. */
  ghost function Parts(cfg: Config, evs: seq<Event>, i: nat, j: nat, r: nat): seq<Part>
    requires i <= j <= |evs| && InTransfer(cfg, evs, i, j, r)
    decreases j
  {
    if i == j then []
    else Parts(cfg, evs, i, j - 1, r) + PartIn(evs[j - 1], StackAt(cfg, evs, j - 1).sections[r], r)
  }

  /** The user data that the user of r is given in the events from i to j, in order. */
  ghost function GivenBetween(cfg: Config, evs: seq<Event>, i: nat, j: nat, r: nat): seq<bytes>
    requires i <= j <= |evs|
    decreases j
  {
    if i == j then [] else GivenBetween(cfg, evs, i, j - 1, r) + Given(OutsAt(cfg, evs, j - 1), r)
  }

  lemma {:induction false} JoinOn(held: bytes, a: seq<Part>, b: seq<Part>)
    ensures var (whole, rest) := Join(held, a);
            var (more, left) := Join(rest, b);
            Join(held, a + b) == (whole + more, left)
    decreases |b|
  {
    var (whole, rest) := Join(held, a);
    if |b| == 0 {
      assert a + b == a && whole + [] == whole;
    } else {
      var n := |b| - 1;
      JoinOn(held, a, b[..n]);
      assert (a + b)[..|a + b| - 1] == a + b[..n];
      var (more, left) := Join(rest, b[..n]);
      assert whole + (more + [left + b[n].data]) == whole + more + [left + b[n].data];
    }
  }

  /**
   * Data in order, over every run: while a connection is in data transfer, whatever else happens to it or to the
   * stack, the user is given exactly the NSDUs that the DT1 messages of its peer make, in order; and the buffer holds
   * what has come of the next.
   */
  lemma {:induction false} DataInOrder(cfg: Config, evs: seq<Event>, i: nat, j: nat, r: nat)
    requires i <= j <= |evs| && InTransfer(cfg, evs, i, j, r)
    ensures Join(StackAt(cfg, evs, i).sections[r].data, Parts(cfg, evs, i, j, r))
            == (GivenBetween(cfg, evs, i, j, r), StackAt(cfg, evs, j).sections[r].data)
    decreases j
  {
    hide StackAt, OutsAt, Join, Given, PartIn, Good, ValidSections;
    var held := StackAt(cfg, evs, i).sections[r].data;
    if i == j {
      NothingJoined(held);
    } else {
      DataInOrder(cfg, evs, i, j - 1, r);
      TransferStep(cfg, evs, j - 1, r);
      var c := StackAt(cfg, evs, j - 1).sections[r];
      JoinOn(held, Parts(cfg, evs, i, j - 1, r), PartIn(evs[j - 1], c, r));
    }
  }

  lemma TransferStep(cfg: Config, evs: seq<Event>, k: nat, r: nat)
    requires k < |evs|
    requires r in StackAt(cfg, evs, k).sections && StackAt(cfg, evs, k).sections[r].Established?
    requires r in StackAt(cfg, evs, k + 1).sections && StackAt(cfg, evs, k + 1).sections[r].Established?
    ensures var c, c' := StackAt(cfg, evs, k).sections[r], StackAt(cfg, evs, k + 1).sections[r];
            Join(c.data, PartIn(evs[k], c, r)) == (Given(OutsAt(cfg, evs, k), r), c'.data)
  {
    hide StackAt, Step, Join, Given, PartIn, Good, ValidSections;
    NextStack(cfg, evs, k);
    StepGives(cfg, StackAt(cfg, evs, k), evs[k], r);
  }

  // ----- Every run, at the end that sends -----

  /** The NSDUs that SendData accepted for r in the events from i to j. */
  ghost function AcceptedBetween(cfg: Config, evs: seq<Event>, i: nat, j: nat, r: nat): seq<bytes>
    requires i <= j <= |evs|
    decreases j
  {
    if i == j then [] else
    AcceptedBetween(cfg, evs, i, j - 1, r)
    + (if evs[j - 1].DataRequested? && evs[j - 1].ref == r && EffectOf(cfg, StackAt(cfg, evs, j - 1), evs[j - 1]).error == None
       then [evs[j - 1].data] else [])
  }

  /** What the data requests for r put out in the events from i to j. */
  ghost function SentBetween(cfg: Config, evs: seq<Event>, i: nat, j: nat, r: nat): seq<Out>
    requires i <= j <= |evs|
    decreases j
  {
    if i == j then [] else
    SentBetween(cfg, evs, i, j - 1, r) + (if evs[j - 1].DataRequested? && evs[j - 1].ref == r then OutsAt(cfg, evs, j - 1) else [])
  }

  /** The DT1 messages of a list of NSDUs, in the order in which they are sent. */
  function QueueMessages(remoteRef: u32, datas: seq<bytes>, size: nat): seq<Message>
    requires size > 0
  {
    if |datas| == 0 then []
    else QueueMessages(remoteRef, datas[..|datas| - 1], size) + DataMessages(remoteRef, datas[|datas| - 1], size, 0)
  }

  /** Nothing but a data request ever sends a DT1. */
  lemma DataOnlyOnRequest(cfg: Config, s: Stack, ev: Event)
    requires Good(cfg, s) && ValidSections(s.sections) && !ev.DataRequested?
    ensures forall o :: o in Step(cfg, s, ev).1 ==> !(o.Sent? && o.message.DT1?)
  {
    hide Connections.Fire, Connections.Accept, Connections.Disconnect, Connections.Receive, Connects, Good, Available;
    match ev {
      case Arrival(_, _, _, _, _) =>
        if ForSection(s.sections, ev.m) {
          var ref: nat := DestinationOf(ev.m);
          ReceiveGives(cfg, ref, s.sections[ref], ev.now, ev.routing, ev.m, Available(cfg, s.sections));
        } else {
          ArrivalGives(cfg, s, ev);
        }
      case Timeout(now, ref, kind) =>
        if Due(s.sections, now, ref, kind) { FireGives(cfg, ref, s.sections[ref], kind, now); }
      case ConnectRequested(_, _) => ConnectGives(cfg, s, ev);
      case Accepted(_, ref, _, _, _) =>
        if ref in s.sections { RequestGives(cfg, ref, s.sections[ref], ev); }
      case DisconnectRequested(_, ref, _) =>
        if ref in s.sections { RequestGives(cfg, ref, s.sections[ref], ev); }
      case DataRequested(_, _, _) =>
        assert false;
    }
  }

  lemma SendStep(cfg: Config, s: Stack, ev: Event)
    requires Real(cfg) && Good(cfg, s) && ValidSections(s.sections) && ev.DataRequested?
    requires ev.ref in s.sections && s.sections[ev.ref].Established?
    ensures DataSize(cfg) > 0
    ensures var c, e := s.sections[ev.ref], EffectOf(cfg, s, ev);
            var ms := DataMessages(c.remoteRef, ev.data, DataSize(cfg), 0);
            if e.error == None then |ev.data| > 0 && e.outs == AllSent(c.remote, ms) && forall m :: m in ms ==> cfg.fits(m)
            else e.outs == []
  {
    var c := s.sections[ev.ref];
    assert GoodSection(cfg, ev.ref, c);
    hide Real, Good, ValidSections, DataMessages, AllSent, Connections.SendData;
    SizePositive(cfg);
    SendDataExact(cfg, c, ev.data, ev.now);
    PartsFit(cfg, c.remoteRef, ev.data, 0);
  }

  /**
   * While a connection is in data transfer, whatever else happens, its data requests put out exactly the DT1 messages
   * of the NSDUs that were accepted, in order, to its peer; and each of them fits the maximum message size.
   */
  lemma {:induction false} QueueIsSent(cfg: Config, evs: seq<Event>, i: nat, j: nat, r: nat)
    requires Real(cfg) && i <= j <= |evs| && InTransfer(cfg, evs, i, j, r)
    ensures DataSize(cfg) > 0
    ensures var c, datas := StackAt(cfg, evs, i).sections[r], AcceptedBetween(cfg, evs, i, j, r);
            var ms := QueueMessages(c.remoteRef, datas, DataSize(cfg));
            && SentBetween(cfg, evs, i, j, r) == AllSent(c.remote, ms)
            && (forall m :: m in ms ==> cfg.fits(m)) && (forall d :: d in datas ==> |d| > 0)
    decreases j
  {
    hide Real, StackAt, OutsAt, AllSent, EffectOf, Good, ValidSections, DataMessages, QueueMessages, DataSize;
    SizePositive(cfg);
    if i < j {
      QueueIsSent(cfg, evs, i, j - 1, r);
      var c := StackAt(cfg, evs, i).sections[r];
      var datas, outs := AcceptedBetween(cfg, evs, i, j - 1, r), SentBetween(cfg, evs, i, j - 1, r);
      assert datas + [] == datas && outs + [] == outs;
      PeerStays(cfg, evs, i, j - 1, r);
      if evs[j - 1].DataRequested? && evs[j - 1].ref == r {
        SentAt(cfg, evs, j - 1);
        QueueGrows(c.remote, c.remoteRef, datas, evs[j - 1].data, DataSize(cfg));
      }
    } else {
      NothingSent(StackAt(cfg, evs, i).sections[r].remote, StackAt(cfg, evs, i).sections[r].remoteRef, DataSize(cfg));
    }
  }

  lemma SentAt(cfg: Config, evs: seq<Event>, k: nat)
    requires Real(cfg) && k < |evs| && evs[k].DataRequested?
    requires evs[k].ref in StackAt(cfg, evs, k).sections && StackAt(cfg, evs, k).sections[evs[k].ref].Established?
    ensures DataSize(cfg) > 0
    ensures var c := StackAt(cfg, evs, k).sections[evs[k].ref];
            var ms := DataMessages(c.remoteRef, evs[k].data, DataSize(cfg), 0);
            if EffectOf(cfg, StackAt(cfg, evs, k), evs[k]).error == None then
              |evs[k].data| > 0 && OutsAt(cfg, evs, k) == AllSent(c.remote, ms) && forall m :: m in ms ==> cfg.fits(m)
            else OutsAt(cfg, evs, k) == []
  {
    hide Real, StackAt, EffectOf, AllSent, DataMessages, Good, ValidSections;
    SendStep(cfg, StackAt(cfg, evs, k), evs[k]);
  }

  lemma NothingSent(routing: RoutingLabel, remoteRef: u32, size: nat)
    requires size > 0
    ensures QueueMessages(remoteRef, [], size) == [] && AllSent(routing, []) == []
  {
  }

  lemma QueueGrows(routing: RoutingLabel, remoteRef: u32, datas: seq<bytes>, data: bytes, size: nat)
    requires size > 0
    ensures var a, b := QueueMessages(remoteRef, datas, size), DataMessages(remoteRef, data, size, 0);
            && QueueMessages(remoteRef, datas + [data], size) == a + b
            && AllSent(routing, a + b) == AllSent(routing, a) + AllSent(routing, b)
  {
    hide DataMessages;
    assert (datas + [data])[..|datas|] == datas;
  }

  // ----- From user to user -----

  function PartsOf(ms: seq<Message>): (ps: seq<Part>)
    requires forall m :: m in ms ==> m.DT1?
    ensures |ps| == |ms| && forall i :: 0 <= i < |ms| ==> ps[i] == Part(ms[i].moreData, ms[i].data)
  {
    seq(|ms|, i requires 0 <= i < |ms| => Part(ms[i].moreData, ms[i].data))
  }

  lemma {:induction false} PartsAreDT1(remoteRef: u32, data: bytes, size: nat, off: nat)
    requires size > 0
    ensures forall m :: m in DataMessages(remoteRef, data, size, off) ==> m.DT1?
    decreases |data| - off
  {
    if off < |data| {
      PartsAreDT1(remoteRef, data, size, off + size);
    }
  }

  /** The DT1 messages of an NSDU make that NSDU. */
  lemma {:induction false} DataJoins(remoteRef: u32, data: bytes, size: nat, off: nat)
    requires size > 0 && off < |data|
    ensures forall m :: m in DataMessages(remoteRef, data, size, off) ==> m.DT1?
    ensures Join(data[..off], PartsOf(DataMessages(remoteRef, data, size, off))) == ([data], [])
    decreases |data| - off
  {
    hide Join;
    PartsAreDT1(remoteRef, data, size, off);
    var ms, rest := DataMessages(remoteRef, data, size, off), DataMessages(remoteRef, data, size, off + size);
    var end := Min(off + size, |data|);
    var p := Part(end < |data|, data[off..end]);
    assert PartsOf(ms) == [p] + PartsOf(rest);
    JoinOn(data[..off], [p], PartsOf(rest));
    OneJoined(data[..off], p);
    assert data[..off] + data[off..end] == data[..end];
    if end < |data| {
      DataJoins(remoteRef, data, size, off + size);
      assert [] + [data] == [data];
    } else {
      assert data[..end] == data && PartsOf(rest) == [];
      NothingJoined([]);
      assert [data] + [] == [data];
    }
  }

  lemma {:induction false} QueueJoins(remoteRef: u32, datas: seq<bytes>, size: nat)
    requires size > 0 && forall d :: d in datas ==> |d| > 0
    ensures forall m :: m in QueueMessages(remoteRef, datas, size) ==> m.DT1?
    ensures Join([], PartsOf(QueueMessages(remoteRef, datas, size))) == (datas, [])
  {
    hide Join, DataMessages;
    if |datas| == 0 {
      NothingJoined([]);
      assert PartsOf(QueueMessages(remoteRef, datas, size)) == [];
    } else {
      var n := |datas| - 1;
      QueueJoins(remoteRef, datas[..n], size);
      DataJoins(remoteRef, datas[n], size, 0);
      var a, b := QueueMessages(remoteRef, datas[..n], size), DataMessages(remoteRef, datas[n], size, 0);
      assert PartsOf(a + b) == PartsOf(a) + PartsOf(b);
      JoinOn([], PartsOf(a), PartsOf(b));
      assert datas[n][..0] == [] && datas[..n] + [datas[n]] == datas;
    }
  }

  /** The DT1 messages with user data that arrive for r from a node, in order. */
  function DataArrivals(evs: seq<Event>, i: nat, j: nat, r: nat, opc: u32, ni: byte): seq<Message>
    requires i <= j <= |evs|
    decreases j
  {
    if i == j then [] else
    var ev := evs[j - 1];
    DataArrivals(evs, i, j - 1, r, opc, ni)
    + (if ev.Arrival? && ev.m.DT1? && ev.m.destination as nat == r && |ev.m.data| > 0 && ev.routing.opc == opc && ev.routing.ni == ni
       then [ev.m] else [])
  }

  lemma {:induction false} ArrivalsAreParts(cfg: Config, evs: seq<Event>, i: nat, j: nat, r: nat, opc: u32, ni: byte)
    requires i <= j <= |evs| && InTransfer(cfg, evs, i, j, r)
    requires var c := StackAt(cfg, evs, i).sections[r]; c.remote.dpc == opc && c.remote.ni == ni
    ensures forall m :: m in DataArrivals(evs, i, j, r, opc, ni) ==> m.DT1?
    ensures Parts(cfg, evs, i, j, r) == PartsOf(DataArrivals(evs, i, j, r, opc, ni))
    decreases j
  {
    hide StackAt, Good, ValidSections;
    if i < j {
      ArrivalsAreParts(cfg, evs, i, j - 1, r, opc, ni);
      PeerStays(cfg, evs, i, j - 1, r);
      var a, b := DataArrivals(evs, i, j - 1, r, opc, ni), DataArrivals(evs, i, j, r, opc, ni);
      assert PartsOf(b) == PartsOf(a) + PartIn(evs[j - 1], StackAt(cfg, evs, j - 1).sections[r], r);
    }
  }

  /** What has arrived is what the octets of the messages that were sent decode to, in order, up to some point. */
  predicate Carried(limit: int, outs: seq<Out>, received: seq<Message>) {
    && |received| <= |outs|
    && forall i :: 0 <= i < |received| ==>
         && outs[i].Sent? && Marshal(limit, outs[i].message).Octets?
         && ParseMessage(Marshal(limit, outs[i].message).octets) == Parsed.Decoded(received[i])
  }

  lemma CarriedUnchanged(cfg: Config, routing: RoutingLabel, ms: seq<Message>, received: seq<Message>)
    requires Real(cfg) && (forall m :: m in ms ==> cfg.fits(m)) && Carried(cfg.maxMessageSize, AllSent(routing, ms), received)
    ensures |received| <= |ms| && received == ms[..|received|]
  {
    hide Marshal, ParseMessage;
    forall i | 0 <= i < |received|
      ensures received[i] == ms[i]
    {
      assert AllSent(routing, ms)[i] == Sent(routing, ms[i]);
      CodecRoundTrip(cfg.maxMessageSize, ms[i]);
    }
  }

  /** The first of the DT1 messages of a list of NSDUs make the first of the NSDUs, all of them when they are all there. */
  lemma QueueBegins(remoteRef: u32, datas: seq<bytes>, size: nat, n: nat)
    requires size > 0 && (forall d :: d in datas ==> |d| > 0) && n <= |QueueMessages(remoteRef, datas, size)|
    ensures var ms := QueueMessages(remoteRef, datas, size);
            && (forall m :: m in ms[..n] ==> m.DT1?)
            && Join([], PartsOf(ms[..n])).0 <= datas
            && (n == |ms| ==> Join([], PartsOf(ms[..n])) == (datas, []))
  {
    hide Join;
    var ms := QueueMessages(remoteRef, datas, size);
    QueueJoins(remoteRef, datas, size);
    assert ms == ms[..n] + ms[n..];
    assert PartsOf(ms) == PartsOf(ms[..n]) + PartsOf(ms[n..]);
    JoinOn([], PartsOf(ms[..n]), PartsOf(ms[n..]));
    assert n == |ms| ==> ms[..n] == ms;
  }

  /**
   * N-DATA is a faithful queue. Two ends of a connection are paired, and stay in data transfer over two runs in which
   * anything else may happen. The DT1 messages that arrive from the one at the other are what it sent, octets decoded,
   * in order and perhaps not yet all of it. Then the one user has been given the first of the NSDUs that the other
   * sent with success, in order, and nothing else; and all of them once everything has arrived. The two maximum
   * message sizes do not matter.
   */
  lemma {:induction false} QueueIsDelivered(cfgA: Config, evsA: seq<Event>, i: nat, i': nat, ra: nat,
                                            cfgB: Config, evsB: seq<Event>, j: nat, j': nat, rb: nat)
    requires Real(cfgA) && i <= i' <= |evsA| && InTransfer(cfgA, evsA, i, i', ra)
    requires j <= j' <= |evsB| && InTransfer(cfgB, evsB, j, j', rb)
    requires var a, b := StackAt(cfgA, evsA, i).sections[ra], StackAt(cfgB, evsB, j).sections[rb];
             && Paired(a, ra, b, rb) && b.data == []
             && Carried(cfgA.maxMessageSize, SentBetween(cfgA, evsA, i, i', ra), DataArrivals(evsB, j, j', rb, a.remote.opc, a.remote.ni))
    ensures GivenBetween(cfgB, evsB, j, j', rb) <= AcceptedBetween(cfgA, evsA, i, i', ra)
    ensures var a := StackAt(cfgA, evsA, i).sections[ra];
            |DataArrivals(evsB, j, j', rb, a.remote.opc, a.remote.ni)| == |SentBetween(cfgA, evsA, i, i', ra)| ==>
              && GivenBetween(cfgB, evsB, j, j', rb) == AcceptedBetween(cfgA, evsA, i, i', ra)
              && StackAt(cfgB, evsB, j').sections[rb].data == []
  {
    hide Real, StackAt, Carried, Join, SentBetween, AcceptedBetween, GivenBetween, DataArrivals, QueueMessages, Parts, AllSent, DataSize, Good, ValidSections;
    var a := StackAt(cfgA, evsA, i).sections[ra];
    var datas, received := AcceptedBetween(cfgA, evsA, i, i', ra), DataArrivals(evsB, j, j', rb, a.remote.opc, a.remote.ni);
    QueueIsSent(cfgA, evsA, i, i', ra);
    CarriedUnchanged(cfgA, a.remote, QueueMessages(a.remoteRef, datas, DataSize(cfgA)), received);
    QueueBegins(a.remoteRef, datas, DataSize(cfgA), |received|);
    ArrivalsAreParts(cfgB, evsB, j, j', rb, a.remote.opc, a.remote.ni);
    DataInOrder(cfgB, evsB, j, j', rb);
  }
}
