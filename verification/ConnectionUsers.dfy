/** What the user of a connection sees from its first to its last indication, over every run. */
module ConnectionUsers {
  import opened Basics
  import opened Fields
  import opened Messages
  import opened Connections
  import opened ConnectionRuns

  datatype Kind = Offer | Confirm | Data | End

  /** An indication to the user of reference ref; indications to maintenance are none. */
  function KindOf(i: Indication, ref: nat): Option<Kind> {
    match i
    case ConnectIndication(_, r, _, _, _, _) => if r == ref then Some(Offer) else None
    case ConnectConfirmation(r, _, _) => if r == ref then Some(Confirm) else None
    case DataIndication(r, _) => if r == ref then Some(Data) else None
    case DisconnectIndication(r, _, _, _, _, _) => if r == ref then Some(End) else None
    case ReleaseIncomplete(_, _, _) => None
    case HopCounterAlert(_) => None
  }

  function KindIn(o: Out, ref: nat): seq<Kind> {
    if o.Indicated? && KindOf(o.indication, ref).Some? then [KindOf(o.indication, ref).value] else []
  }

  /** The indications to the user of ref, in order. */
  function Seen(outs: seq<Out>, ref: nat): seq<Kind> {
    if |outs| == 0 then [] else KindIn(outs[0], ref) + Seen(outs[1..], ref)
  }

  lemma {:induction false} SeenJoin(a: seq<Out>, b: seq<Out>, ref: nat)
    ensures Seen(a + b, ref) == Seen(a, ref) + Seen(b, ref)
  {
    if |a| == 0 {
      assert a + b == b;
    } else {
      assert (a + b)[0] == a[0] && (a + b)[1..] == a[1..] + b;
      SeenJoin(a[1..], b, ref);
    }
  }

  lemma SeenOne(o: Out, ref: nat)
    ensures Seen([o], ref) == KindIn(o, ref) && Seen([], ref) == []
  {
    assert [o][1..] == [];
  }

  /** No output is an indication to a user. */
  predicate Unseen(outs: seq<Out>) {
    forall o :: o in outs ==> !o.Indicated? || o.indication.ReleaseIncomplete? || o.indication.HopCounterAlert?
  }

  lemma {:induction false} UnseenSeen(outs: seq<Out>, ref: nat)
    requires Unseen(outs)
    ensures Seen(outs, ref) == []
  {
    if |outs| > 0 {
      assert outs[0] in outs;
      UnseenSeen(outs[1..], ref);
    }
  }

  // ----- The grammar -----

  /** A first indication, then data. */
  predicate Running(h: seq<Kind>, first: Kind) {
    |h| > 0 && h[0] == first && forall i :: 0 < i < |h| ==> h[i] == Data
  }

  /**
   * Incoming: Connect Data* Disconnect?. Outgoing: (Confirm Data*)? Disconnect?. The prefix that has been seen is
   * always one of these.
   */
  predicate Allowed(incoming: bool, h: seq<Kind>) {
    var first := if incoming then Offer else Confirm;
    || Running(h, first)
    || (|h| > 0 && h[|h| - 1] == End && Running(h[..|h| - 1], first))
    || (!incoming && (h == [] || h == [End]))
  }

  /** The user asked for the end of the connection or has been told of it. */
  predicate Quiet(c: Section) {
    c.Releasing? || c.Frozen? || (c.Outgoing? && c.disconnect.Some?)
  }

  /** What the user can have seen of a section. */
  predicate Matches(c: Section, incoming: bool, h: seq<Kind>) {
    match c
    case Incoming(_, _) => incoming && h == [Offer]
    case Outgoing(_, _, _) => !incoming && h == []
    case Established(_, _, _, _, _, _) => Running(h, if incoming then Offer else Confirm)
    case Releasing(_, _, _, _) => Allowed(incoming, h)
    case Frozen(_) => Allowed(incoming, h)
  }

  lemma MatchesAllowed(c: Section, incoming: bool, h: seq<Kind>)
    requires Matches(c, incoming, h)
    ensures Allowed(incoming, h)
  {
  }

  /**
   * What an event shows the user of a section, given the section before and after. asked: the event is the user's own
   * N-DISCONNECT. Only then does the connection end for the user without being told.
   */
  predicate Shows(asked: bool, c: Section, c': Section, seen: seq<Kind>) {
    if Quiet(c) then seen == [] && Quiet(c') && (c'.Outgoing? ==> c.Outgoing?)
    else if asked then seen == [] && match c
                                     case Incoming(_, _) => c'.Frozen?
                                     case Outgoing(_, _, _) => c'.Outgoing? && Quiet(c')
                                     case Established(_, _, _, _, _, _) => c'.Releasing?
                                     case _ => false
    else if Quiet(c') then seen == [End] && !c'.Outgoing? && (c.Incoming? ==> c'.Releasing?)
    else match c
         case Incoming(_, _) => seen == [] && !c'.Outgoing?
         case Outgoing(_, _, _) => (seen == [] && c'.Outgoing?) || (seen == [Confirm] && c'.Established?)
         case Established(_, _, _, _, _, _) => seen in [[], [Data]] && c'.Established?
         case _ => false
  }

  lemma MatchesNext(asked: bool, c: Section, c': Section, incoming: bool, h: seq<Kind>, seen: seq<Kind>)
    requires Matches(c, incoming, h) && Shows(asked, c, c', seen)
    ensures Matches(c', incoming, h + seen)
  {
    var first := if incoming then Offer else Confirm;
    assert h + [] == h;
    assert |seen| == 1 ==> (h + seen)[..|h|] == h && (h + seen)[|h|] == seen[0];
    assert [] + seen == seen;
    if c.Incoming? && seen == [End] {
      assert Running(h, first);
    }
  }

  // ----- One event -----

  /** Outputs of which at most the last is an indication to the user, of kind k. */
  lemma SeenLast(outs: seq<Out>, o: Out, ref: nat)
    requires Unseen(outs)
    ensures Seen(outs + [o], ref) == KindIn(o, ref)
  {
    SeenJoin(outs, [o], ref);
    UnseenSeen(outs, ref);
    SeenOne(o, ref);
    assert [] + KindIn(o, ref) == KindIn(o, ref);
  }

  /** An output that shows nothing to the users of other references. */
  ghost predicate Concerns(o: Out, ref: nat) {
    forall r: nat :: r != ref ==> KindIn(o, r) == []
  }

  /** Outputs that show nothing, or end with one indication. */
  ghost predicate Tells(outs: seq<Out>, ref: nat, seen: seq<Kind>) {
    || (Unseen(outs) && seen == [])
    || (|outs| > 0 && Unseen(outs[..|outs| - 1]) && seen == KindIn(outs[|outs| - 1], ref)
        && Concerns(outs[|outs| - 1], ref))
  }

  lemma TellsSeen(outs: seq<Out>, ref: nat, seen: seq<Kind>)
    requires Tells(outs, ref, seen)
    ensures Seen(outs, ref) == seen && forall r :: r != ref ==> Seen(outs, r) == []
  {
    if Unseen(outs) {
      forall r ensures Seen(outs, r) == [] {
        UnseenSeen(outs, r);
      }
    } else {
      var n := |outs| - 1;
      assert outs == outs[..n] + [outs[n]];
      forall r ensures Seen(outs, r) == KindIn(outs[n], r) {
        SeenLast(outs[..n], outs[n], r);
      }
    }
  }

  /** What an event does to a section, as far as its user is concerned. */
  ghost predicate UserStep(asked: bool, c: Section, c': Section, outs: seq<Out>, ref: nat) {
    exists seen :: Tells(outs, ref, seen) && Shows(asked, c, c', seen)
  }

  lemma ProviderReleaseTells(cfg: Config, ref: u32, c: Section, remoteRef: u32, remote: RoutingLabel, cause: byte, now: nat, before: seq<Out>)
    requires Unseen(before) && (c.Incoming? || c.Established? || (c.Outgoing? && !Quiet(c)))
    ensures var r := ProviderRelease(cfg, ref, remoteRef, remote, cause, now);
            UserStep(false, c, r.0, before + r.1, ref) && UserStep(false, c, r.0, r.1, ref)
  {
    var r := ProviderRelease(cfg, ref, remoteRef, remote, cause, now);
    var outs := before + r.1;
    assert outs[..|outs| - 1] == before + r.1[..1] && outs[|outs| - 1] == DisconnectedBy(ref, cause);
    assert Tells(outs, ref, [End]) && Tells(r.1, ref, [End]);
    assert Shows(false, c, r.0, [End]);
  }

  /** Nothing is shown. */
  lemma ShowsNothing(asked: bool, c: Section, c': Section, outs: seq<Out>, ref: nat)
    requires Unseen(outs) && Shows(asked, c, c', [])
    ensures UserStep(asked, c, c', outs, ref)
  {
    assert Tells(outs, ref, []);
  }

  /** One indication is shown, last. */
  lemma ShowsLast(c: Section, c': Section, outs: seq<Out>, o: Out, ref: nat)
    requires Unseen(outs) && Shows(false, c, c', KindIn(o, ref)) && Concerns(o, ref)
    ensures UserStep(false, c, c', outs + [o], ref)
  {
    assert (outs + [o])[..|outs|] == outs && (outs + [o])[|outs|] == o;
    assert Tells(outs + [o], ref, KindIn(o, ref));
  }

  lemma ShowsOnly(c: Section, c': Section, o: Out, ref: nat)
    requires Shows(false, c, c', KindIn(o, ref)) && Concerns(o, ref)
    ensures UserStep(false, c, c', [o], ref)
  {
    ShowsLast(c, c', [], o, ref);
    assert [] + [o] == [o];
  }

  lemma SetupTells(cfg: Config, ref: u32, c: Section, now: nat, routing: RoutingLabel, m: Message)
    requires SectionMessage(m) && c.Outgoing?
    ensures var r := Setup(cfg, ref, c, now, routing, m); UserStep(false, c, r.0, r.1, ref)
  {
    hide UserStep;
    var r := Setup(cfg, ref, c, now, routing, m);
    if m.CREF? {
      if c.disconnect == None {
        ShowsOnly(c, r.0, r.1[0], ref);
      } else {
        ShowsNothing(false, c, r.0, r.1, ref);
      }
    } else if m.CC? {
      if c.disconnect.Some? {
        ShowsNothing(false, c, r.0, r.1, ref);
      } else if m.protocolClass.number != 2 {
        ProviderReleaseTells(cfg, ref, c, m.source, c.remote.(dpc := routing.opc, ni := routing.ni), REMOTE_PROCEDURE_ERROR, now,
                             [Discarded(routing, TCC, WrongState)]);
      } else {
        ShowsOnly(c, r.0, r.1[0], ref);
      }
    } else {
      var outs := [Discarded(routing, TypeOf(m), WrongState)]
        + (if m.RLSD? then Reply(cfg, ReplyLabel(routing), RLC(m.source, m.destination), routing, TRLSD) else []);
      if c.disconnect == None {
        ShowsLast(c, r.0, outs, RefusedBy(ref, REFUSAL_UNQUALIFIED), ref);
      } else {
        assert outs + [] == outs;
        ShowsNothing(false, c, r.0, outs, ref);
      }
    }
  }

  lemma TransferringTells(cfg: Config, ref: u32, c: Section, now: nat, routing: RoutingLabel, m: Message, available: nat)
    requires SectionMessage(m) && c.Established?
    ensures var r := Transferring(cfg, ref, c, now, routing, m, available); UserStep(false, c, r.0, r.1, ref)
  {
    hide UserStep, ProviderRelease;
    var r := Transferring(cfg, ref, c, now, routing, m, available);
    if m.DT1? {
      ProviderReleaseTells(cfg, ref, c, c.remoteRef, c.remote, REMOTE_PROCEDURE_ERROR, now, [Discarded(routing, TDT1, TooLong)]);
      ProviderReleaseTells(cfg, ref, c, c.remoteRef, c.remote, RELEASE_NETWORK_CONGESTION, now, [Discarded(routing, TDT1, NoCapacity)]);
      if |m.data| + |c.data| <= cfg.maxDataLength && Grown(cfg, c.capacity, |c.data| + |m.data|, available).Some? {
        if m.moreData {
          ShowsNothing(false, c, r.0, r.1, ref);
        } else {
          ShowsOnly(c, r.0, r.1[0], ref);
        }
      }
    } else if m.RLSD? {
      var o := Indicated(DisconnectIndication(ref, Releaser(m.cause), false, m.cause, None, m.data));
      ShowsLast(c, r.0, Transfer(cfg, c.remote, RLC(c.remoteRef, ref)), o, ref);
    } else if m.ERR? {
      if m.cause == SERVICE_CLASS_MISMATCH {
        ProviderReleaseTells(cfg, ref, c, c.remoteRef, c.remote, INCONSISTENT_CONNECTION_DATA, now, []);
      } else {
        ShowsOnly(c, r.0, r.1[0], ref);
      }
    } else if m.IT? && m.protocolClass.number != 2 {
      ProviderReleaseTells(cfg, ref, c, c.remoteRef, c.remote, INCONSISTENT_CONNECTION_DATA, now, [Discarded(routing, TIT, WrongState)]);
    } else {
      ShowsNothing(false, c, r.0, r.1, ref);
    }
  }

  lemma WrongSourceTells(cfg: Config, ref: u32, c: Section, now: nat, routing: RoutingLabel, m: Message)
    requires SectionMessage(m) && !c.Frozen? && !c.Outgoing? && (c.Releasing? ==> c.release.RLSD?)
    ensures var r := WrongSource(cfg, ref, c, now, routing, m); UserStep(false, c, r.0, r.1, ref)
  {
    hide UserStep, ProviderRelease;
    var r := WrongSource(cfg, ref, c, now, routing, m);
    if m.IT? && !c.Releasing? {
      var outs := [Discarded(routing, TypeOf(m), ReferenceMismatch)]
        + Reply(cfg, ReplyLabel(routing), RLSD(m.source, m.destination, INCONSISTENT_CONNECTION_DATA, [], None, []), routing, TRLSD);
      ProviderReleaseTells(cfg, ref, c, c.remoteRef, c.remote, INCONSISTENT_CONNECTION_DATA, now, outs);
    } else {
      ShowsNothing(false, c, r.0, r.1, ref);
    }
  }

  lemma ReceiveTells(cfg: Config, ref: u32, c: Section, now: nat, routing: RoutingLabel, m: Message, available: nat)
    requires SectionMessage(m) && !c.Frozen? && (c.Releasing? ==> c.release.RLSD?)
    ensures var r := Connections.Receive(cfg, ref, c, now, routing, m, available); UserStep(false, c, r.0, r.1, ref)
  {
    hide UserStep, Setup, Transferring, WrongSource;
    var r := Connections.Receive(cfg, ref, c, now, routing, m, available);
    if c.Outgoing? {
      SetupTells(cfg, ref, c, now, routing, m);
    } else {
      WrongSourceTells(cfg, ref, c, now, routing, m);
      if c.Established? {
        TransferringTells(cfg, ref, c, now, routing, m, available);
      }
      if r.0 == c && Unseen(r.1) {
        ShowsNothing(false, c, r.0, r.1, ref);
      }
      if c.Releasing? && Unseen(r.1) && Quiet(r.0) && !r.0.Outgoing? {
        ShowsNothing(false, c, r.0, r.1, ref);
      }
    }
  }

  /** A timer that fires at a section; when the reference becomes free nothing is shown. */
  lemma FireTells(cfg: Config, ref: u32, c: Section, kind: TimerKind, now: nat)
    requires kind in Deadlines(c)
    ensures var r := Connections.Fire(cfg, ref, c, kind, now);
            if r.0 == None then Unseen(r.1) else UserStep(false, c, r.0.value, r.1, ref)
  {
    hide UserStep, ProviderRelease;
    var r := Connections.Fire(cfg, ref, c, kind, now);
    match c {
      case Outgoing(_, _, disconnect) =>
        if disconnect == None {
          ShowsOnly(c, r.0.value, r.1[0], ref);
        } else {
          ShowsNothing(false, c, r.0.value, r.1, ref);
        }
      case Established(remoteRef, remote, _, _, _, _) =>
        if kind == TSend {
          ShowsNothing(false, c, r.0.value, r.1, ref);
        } else {
          ProviderReleaseTells(cfg, ref, c, remoteRef, remote, EXPIRATION_OF_RECEIVE_INACTIVITY, now, []);
        }
      case Releasing(_, _, _, _) =>
        ShowsNothing(false, c, r.0.value, r.1, ref);
      case Frozen(_) =>
    }
  }

  /** A request that is accepted shows its user nothing, and a disconnect is the end of what it sees. */
  lemma RequestTells(cfg: Config, ref: u32, c: Section, ev: Event)
    ensures match ev
            case Accepted(now, _, responding, data, importance) =>
              var a := Connections.Accept(cfg, ref, c, responding, data, importance, now);
              a.Done? ==> UserStep(ev.DisconnectRequested?, c, a.value.0, a.value.1, ref) && Unseen(a.value.1)
            case DataRequested(now, _, data) =>
              var a := Connections.SendData(cfg, c, data, now);
              a.Done? ==> UserStep(ev.DisconnectRequested?, c, a.value.0, a.value.1, ref) && Unseen(a.value.1)
            case DisconnectRequested(now, _, req) =>
              var a := Connections.Disconnect(cfg, ref, c, req, now);
              a.Done? ==> UserStep(ev.DisconnectRequested?, c, a.value.0, a.value.1, ref) && Unseen(a.value.1) && Quiet(a.value.0)
            case _ => true
  {
    hide UserStep;
    match ev {
      case Accepted(now, _, responding, data, importance) =>
        var a := Connections.Accept(cfg, ref, c, responding, data, importance, now);
        if a.Done? { ShowsNothing(ev.DisconnectRequested?, c, a.value.0, a.value.1, ref); }
      case DataRequested(now, _, data) =>
        var a := Connections.SendData(cfg, c, data, now);
        if a.Done? { ShowsNothing(ev.DisconnectRequested?, c, a.value.0, a.value.1, ref); }
      case DisconnectRequested(now, _, req) =>
        var a := Connections.Disconnect(cfg, ref, c, req, now);
        if a.Done? { ShowsNothing(ev.DisconnectRequested?, c, a.value.0, a.value.1, ref); }
      case _ =>
    }
  }

  // ----- Every run -----

  /** What an event does at reference r. */
  ghost predicate StepShows(asked: bool, s: Sections, s': Sections, outs: seq<Out>, r: nat) {
    if r in s && r in s' then (s[r] == s'[r] && Seen(outs, r) == []) || Shows(asked, s[r], s'[r], Seen(outs, r))
    else if r in s' then (s'[r].Incoming? && Seen(outs, r) == [Offer]) || (s'[r].Outgoing? && !Quiet(s'[r]) && Seen(outs, r) == [])
    else Seen(outs, r) == []
  }

  lemma NothingShows(asked: bool, s: Sections, outs: seq<Out>, r: nat)
    requires Unseen(outs)
    ensures StepShows(asked, s, s, outs, r)
  {
    UnseenSeen(outs, r);
  }

  /** A section that changes shows its own user what it may, and no other user anything. */
  lemma ChangeShows(asked: bool, s: Sections, ref: nat, c: Section, outs: seq<Out>, r: nat)
    requires ref in s && UserStep(asked, s[ref], c, outs, ref)
    ensures StepShows(asked && r == ref, s, s[ref := c], outs, r)
  {
    hide Tells, Shows;
    var seen :| Tells(outs, ref, seen) && Shows(asked, s[ref], c, seen);
    TellsSeen(outs, ref, seen);
  }

  lemma AnswerShows(asked: bool, s: Stack, ev: Event, ref: nat, a: Answer<(Section, seq<Out>)>, r: nat)
    requires ref in s.sections && (a.Done? ==> UserStep(asked, s.sections[ref], a.value.0, a.value.1, ref))
    ensures StepShows(asked && r == ref, s.sections, Apply(s, ev, Answered(ref, a)).sections, Answered(ref, a).outs, r)
  {
    hide UserStep, StepShows;
    if a.Done? {
      ChangeShows(asked, s.sections, ref, a.value.0, a.value.1, r);
    } else {
      NothingShows(asked && r == ref, s.sections, [], r);
    }
  }

  lemma ArrivalShows(cfg: Config, s: Stack, ev: Event, r: nat)
    requires Good(cfg, s) && ValidSections(s.sections) && ev.Arrival?
    ensures var e := Arrives(cfg, s, ev); StepShows(false, s.sections, Apply(s, ev, e).sections, e.outs, r)
  {
    hide StepShows, Connections.Receive, UserStep, Good, Candidate, Admits;
    var e := Arrives(cfg, s, ev);
    if e.change == None {
      ArrivalUnseen(cfg, s, ev);
      NothingShows(false, s.sections, e.outs, r);
    } else if ev.m.CR? {
      OfferShows(cfg, s, ev, r);
    } else {
      var ref: nat := DestinationOf(ev.m);
      ReceiveTells(cfg, ref, s.sections[ref], ev.now, ev.routing, ev.m, Available(cfg, s.sections));
      ChangeShows(false, s.sections, ref, e.change.value.section.value, e.outs, r);
    }
  }

  lemma ArrivalUnseen(cfg: Config, s: Stack, ev: Event)
    requires ValidSections(s.sections) && ev.Arrival? && Arrives(cfg, s, ev).change == None
    ensures Unseen(Arrives(cfg, s, ev).outs)
  {
    hide Connections.Receive, Candidate;
  }

  lemma OfferShows(cfg: Config, s: Stack, ev: Event, r: nat)
    requires Good(cfg, s) && ValidSections(s.sections) && ev.Arrival? && ev.m.CR? && Arrives(cfg, s, ev).change.Some?
    ensures var e := Arrives(cfg, s, ev); StepShows(false, s.sections, Apply(s, ev, e).sections, e.outs, r)
  {
    hide Admits, Good, Candidate;
    ArrivalAcceptable(cfg, s, ev);
    var e := Arrives(cfg, s, ev);
    SeenOne(e.outs[0], r);
  }

  /** The event is the N-DISCONNECT request of the user of r. */
  predicate Asks(ev: Event, r: nat) { ev.DisconnectRequested? && ev.ref == r }

  lemma EffectShows(cfg: Config, s: Stack, ev: Event, r: nat)
    requires Good(cfg, s) && ValidSections(s.sections)
    ensures var (s', outs) := Step(cfg, s, ev); StepShows(Asks(ev, r), s.sections, s'.sections, outs, r)
  {
    hide StepShows, Arrives, Connections.Accept, Connections.SendData, Connections.Disconnect, Connections.Fire, UserStep, Good, Connectable;
    match ev {
      case Arrival(_, _, _, _, _) => ArrivalShows(cfg, s, ev, r);
      case Timeout(now, ref, kind) =>
        if Due(s.sections, now, ref, kind) {
          FireTells(cfg, ref, s.sections[ref], kind, now);
          var f := Connections.Fire(cfg, ref, s.sections[ref], kind, now);
          if f.0 == None {
            RemovalShows(s.sections, ref, f.1, r);
          } else {
            ChangeShows(false, s.sections, ref, f.0.value, f.1, r);
          }
        } else {
          NothingShows(Asks(ev, r), s.sections, [], r);
        }
      case ConnectRequested(_, _) => ConnectShows(cfg, s, ev, r);
      case Accepted(now, ref, responding, data, importance) =>
        if ref in s.sections {
          RequestTells(cfg, ref, s.sections[ref], ev);
          AnswerShows(ev.DisconnectRequested?, s, ev, ref, Connections.Accept(cfg, ref, s.sections[ref], responding, data, importance, now), r);
        } else {
          NothingShows(Asks(ev, r), s.sections, [], r);
        }
      case DataRequested(now, ref, data) =>
        if ref in s.sections {
          RequestTells(cfg, ref, s.sections[ref], ev);
          AnswerShows(ev.DisconnectRequested?, s, ev, ref, Connections.SendData(cfg, s.sections[ref], data, now), r);
        } else {
          NothingShows(Asks(ev, r), s.sections, [], r);
        }
      case DisconnectRequested(now, ref, req) =>
        if ref in s.sections {
          RequestTells(cfg, ref, s.sections[ref], ev);
          AnswerShows(ev.DisconnectRequested?, s, ev, ref, Connections.Disconnect(cfg, ref, s.sections[ref], req, now), r);
        } else {
          NothingShows(Asks(ev, r), s.sections, [], r);
        }
    }
  }

  lemma RemovalShows(s: Sections, ref: nat, outs: seq<Out>, r: nat)
    requires Unseen(outs)
    ensures StepShows(false, s, s - {ref}, outs, r)
  {
    UnseenSeen(outs, r);
  }

  lemma ConnectShows(cfg: Config, s: Stack, ev: Event, r: nat)
    requires Good(cfg, s) && ValidSections(s.sections) && ev.ConnectRequested?
    ensures var (s', outs) := Step(cfg, s, ev); StepShows(false, s.sections, s'.sections, outs, r)
  {
    hide Good, Candidate, Connectable, ValidSections;
    EffectAcceptable(cfg, s, ev);
    var e := EffectOf(cfg, s, ev);
    assert Unseen(e.outs);
    UnseenSeen(e.outs, r);
  }

  /** The indications of one lifetime of a reference, and whether the peer began it. */
  datatype Life = Life(incoming: bool, history: seq<Kind>)

  /** What a step that shows its user these indications makes of a lifetime; it ends when the section is gone. */
  function NextLife(life: Option<Life>, s: Sections, r: nat, seen: seq<Kind>): Option<Life> {
    if r !in s then None
    else match life
         case None => Some(Life(s[r].Incoming?, seen))
         case Some(l) => Some(Life(l.incoming, l.history + seen))
  }

  /** The lifetime that reference r is in after the first i events. */
  ghost function LifeAt(cfg: Config, evs: seq<Event>, i: nat, r: nat): Option<Life>
    requires i <= |evs|
  {
    if i == 0 then None
    else NextLife(LifeAt(cfg, evs, i - 1, r), StackAt(cfg, evs, i).sections, r, Seen(OutsAt(cfg, evs, i - 1), r))
  }

  /** There is a lifetime exactly while there is a section, and its history goes with the state of the section. */
  ghost predicate Lives(life: Option<Life>, s: Sections, r: nat) {
    && (life.Some? <==> r in s)
    && (life.Some? ==> Matches(s[r], life.value.incoming, life.value.history) && Allowed(life.value.incoming, life.value.history))
  }

  /**
   * In every run, and for every lifetime of every reference, what the user has been shown so far is a prefix of
   * Connect Data* Disconnect? when the peer asked for the connection, of (Confirm Data*)? Disconnect? when the user
   * did, and goes with the state that the section is in.
   */
  lemma UserSeesGrammar(cfg: Config, evs: seq<Event>, i: nat, r: nat)
    requires i <= |evs|
    ensures LifeAt(cfg, evs, i, r).Some? <==> r in StackAt(cfg, evs, i).sections
    ensures LifeAt(cfg, evs, i, r).Some? ==>
              var life := LifeAt(cfg, evs, i, r).value;
              Matches(StackAt(cfg, evs, i).sections[r], life.incoming, life.history) && Allowed(life.incoming, life.history)
  {
    hide LifeAt, StackAt, Matches, Allowed, Good, ValidSections;
    LivesAt(cfg, evs, i, r);
  }

  lemma {:induction false} LivesAt(cfg: Config, evs: seq<Event>, i: nat, r: nat)
    requires i <= |evs|
    ensures Lives(LifeAt(cfg, evs, i, r), StackAt(cfg, evs, i).sections, r)
  {
    hide StackAt, LifeAt, NextLife, Lives, StepShows, Seen, Step, Good, ValidSections, OutsAt;
    if i == 0 {
      NoLife(cfg, evs, r);
    } else {
      LivesAt(cfg, evs, i - 1, r);
      var s, outs := StackAt(cfg, evs, i - 1), OutsAt(cfg, evs, i - 1);
      StepAt(cfg, evs, i - 1, r);
      LifeStep(Asks(evs[i - 1], r), LifeAt(cfg, evs, i - 1, r), s.sections, StackAt(cfg, evs, i).sections, outs, r);
      LifeUnfolds(cfg, evs, i, r);
    }
  }

  lemma NoLife(cfg: Config, evs: seq<Event>, r: nat)
    ensures Lives(LifeAt(cfg, evs, 0, r), StackAt(cfg, evs, 0).sections, r)
  {
    hide Good, ValidSections, Matches, Allowed;
  }

  lemma LifeUnfolds(cfg: Config, evs: seq<Event>, i: nat, r: nat)
    requires 0 < i <= |evs|
    ensures LifeAt(cfg, evs, i, r)
            == NextLife(LifeAt(cfg, evs, i - 1, r), StackAt(cfg, evs, i).sections, r, Seen(OutsAt(cfg, evs, i - 1), r))
  {
    hide StackAt, OutsAt, NextLife, Seen, Good, ValidSections;
  }

  /** What an event of a run does at reference r. */
  lemma StepAt(cfg: Config, evs: seq<Event>, i: nat, r: nat)
    requires i < |evs|
    ensures StepShows(Asks(evs[i], r), StackAt(cfg, evs, i).sections, StackAt(cfg, evs, i + 1).sections, OutsAt(cfg, evs, i), r)
  {
    hide StackAt, Step, StepShows, Good, ValidSections;
    NextStack(cfg, evs, i);
    EffectShows(cfg, StackAt(cfg, evs, i), evs[i], r);
  }

  lemma LifeStep(asked: bool, life: Option<Life>, s: Sections, s': Sections, outs: seq<Out>, r: nat)
    requires Lives(life, s, r) && StepShows(asked, s, s', outs, r)
    ensures Lives(NextLife(life, s', r, Seen(outs, r)), s', r)
  {
    hide Matches, Shows, Allowed, Seen;
    if r in s && r in s' {
      LifeGoes(asked, s[r], s'[r], life.value.incoming, life.value.history, Seen(outs, r));
    } else if r in s' {
      LifeBegins(s'[r], Seen(outs, r));
    }
  }

  lemma LifeGoes(asked: bool, c: Section, c': Section, incoming: bool, h: seq<Kind>, seen: seq<Kind>)
    requires Matches(c, incoming, h) && ((c == c' && seen == []) || Shows(asked, c, c', seen))
    ensures Matches(c', incoming, h + seen) && Allowed(incoming, h + seen)
  {
    hide Shows, Matches, Allowed;
    if c == c' && seen == [] {
      assert h + [] == h;
    } else {
      MatchesNext(asked, c, c', incoming, h, seen);
    }
    MatchesAllowed(c', incoming, h + seen);
  }

  lemma LifeBegins(c: Section, seen: seq<Kind>)
    requires (c.Incoming? && seen == [Offer]) || (c.Outgoing? && seen == [])
    ensures Matches(c, c.Incoming?, seen) && Allowed(c.Incoming?, seen)
  {
  }

  /** A quiet section stays quiet, and shows its user nothing, until its reference is free. */
  lemma {:induction false} QuietStays(cfg: Config, evs: seq<Event>, i: nat, j: nat, r: nat)
    requires i <= j < |evs| && forall k :: i <= k <= j ==> r in StackAt(cfg, evs, k).sections
    requires Quiet(StackAt(cfg, evs, i).sections[r])
    ensures Quiet(StackAt(cfg, evs, j).sections[r]) && Seen(OutsAt(cfg, evs, j), r) == []
    decreases j
  {
    hide StackAt, OutsAt, Seen, Quiet, Good, ValidSections;
    if i < j {
      QuietStays(cfg, evs, i, j - 1, r);
      StepAt(cfg, evs, j - 1, r);
    }
    StepAt(cfg, evs, j, r);
  }

  /**
   * After a disconnect that is accepted, deferred or not, its user is shown nothing more of that connection: only
   * maintenance can still be told that the release was not completed.
   */
  lemma SilentAfterDisconnect(cfg: Config, evs: seq<Event>, i: nat, j: nat, r: nat)
    requires i < j < |evs| && evs[i].DisconnectRequested? && evs[i].ref == r
    requires EffectOf(cfg, StackAt(cfg, evs, i), evs[i]).error == None
    requires forall k :: i < k <= j ==> r in StackAt(cfg, evs, k).sections
    ensures Seen(OutsAt(cfg, evs, j), r) == []
  {
    hide Quiet, Good, Connections.Disconnect;
    var s := StackAt(cfg, evs, i);
    NextStack(cfg, evs, i);
    RequestTells(cfg, r, s.sections[r], evs[i]);
    QuietStays(cfg, evs, i + 1, j, r);
  }

  /**
   * The user is always told: in every run, at the event at which a connection ends for its user, be it in c2, c3 or c4,
   * its user is told of the end, once and of nothing else, unless the event is its own N-DISCONNECT.
   */
  lemma EndIsTold(cfg: Config, evs: seq<Event>, i: nat, r: nat)
    requires i < |evs| && r in StackAt(cfg, evs, i).sections && !Quiet(StackAt(cfg, evs, i).sections[r])
    ensures r in StackAt(cfg, evs, i + 1).sections
    ensures Quiet(StackAt(cfg, evs, i + 1).sections[r]) ==>
              Seen(OutsAt(cfg, evs, i), r) == if evs[i].DisconnectRequested? && evs[i].ref == r then [] else [End]
  {
    hide StackAt, OutsAt, Step, Good, ValidSections, Seen;
    StepAt(cfg, evs, i, r);
    NextStack(cfg, evs, i);
    StillThere(cfg, StackAt(cfg, evs, i), evs[i], r);
  }

  lemma StillThere(cfg: Config, s: Stack, ev: Event, r: nat)
    requires Good(cfg, s) && ValidSections(s.sections) && r in s.sections && !s.sections[r].Frozen?
    ensures r in Step(cfg, s, ev).0.sections
  {
    hide EffectOf, Good, ValidSections;
    EffectAcceptable(cfg, s, ev);
  }
}
