/** Two nodes releasing a connection: whatever the peer has made of it, a release that arrives is answered and completes. */
module ConnectionPeers {
  import opened Basics
  import opened Fields
  import opened Messages
  import opened Connections
  import opened ConnectionRuns
  import opened ConnectionRelease

  /** Two labels of the two directions between the same nodes of one network. */
  predicate Opposite(a: RoutingLabel, b: RoutingLabel) {
    a.opc == b.dpc && a.dpc == b.opc && a.ni == b.ni
  }

  /** The node has section ref waiting for its release to complete. */
  ghost predicate Initiator(cfg: Config, s: Stack, ref: nat) {
    Good(cfg, s) && ValidSections(s.sections) && ref in s.sections && s.sections[ref].Releasing?
  }

  /**
   * The peer's side of the connection that a releases: its reference is free or frozen, or it has the other end of
   * the connection established.
   */
  ghost predicate Counterpart(cfg: Config, s: Stack, a: Section)
    requires a.Releasing? && a.release.RLSD?
  {
    && Good(cfg, s) && ValidSections(s.sections)
    && var ref: nat := a.remoteRef;
       ref in s.sections && !s.sections[ref].Frozen? ==>
         && s.sections[ref].Established? && s.sections[ref].remoteRef == a.release.source
         && Opposite(s.sections[ref].remote, a.remote)
  }

  ghost predicate Sends(outs: seq<Out>, routing: RoutingLabel, m: Message) {
    Sent(routing, m) in outs
  }

  /** Any copy of the RLSD that reaches the peer is answered by an RLC, from the node and for the section it came from. */
  lemma ReleaseIsAnswered(cfg: Config, s: Stack, a: Section, ref: nat, now: nat, local: bool, subsystems: map<byte, bool>)
    returns (routing: RoutingLabel)
    requires a.Releasing? && a.release.RLSD? && a.release.destination == a.remoteRef && a.release.source == ref
    requires ref < LOCAL_REFERENCE_RESERVED && a.remoteRef < LOCAL_REFERENCE_RESERVED
    requires Counterpart(cfg, s, a) && cfg.fits(RLC(ref, a.remoteRef))
    ensures Opposite(routing, a.remote)
    ensures Sends(Step(cfg, s, Arrival(now, a.remote, a.release, local, subsystems)).1, routing, RLC(ref, a.remoteRef))
  {
    hide Good, Active, Held;
    var ev := Arrival(now, a.remote, a.release, local, subsystems);
    var outs := Step(cfg, s, ev).1;
    var peer: nat := a.remoteRef;
    if peer in s.sections && s.sections[peer].Established? {
      routing := s.sections[peer].remote;
      assert outs[0] == Sent(routing, RLC(ref, a.remoteRef));
    } else {
      routing := ReplyLabel(a.remote);
      assert outs[1] == Sent(routing, RLC(ref, a.remoteRef));
    }
  }

  /** That RLC passes the initiator's checks and ends its release. */
  lemma AnswerCompletes(cfg: Config, s: Stack, ref: nat, now: nat, routing: RoutingLabel, local: bool, subsystems: map<byte, bool>)
    requires Initiator(cfg, s, ref) && Opposite(routing, s.sections[ref].remote)
    ensures var (s', outs) := Step(cfg, s, Arrival(now, routing, RLC(ref, s.sections[ref].remoteRef), local, subsystems));
            s'.sections == s.sections[ref := Freeze(cfg, now)] && outs == []
  {
    assert GoodSection(cfg, ref, s.sections[ref]);
    hide Good, Active, Held;
  }

  /** One RLSD that is not lost, and its answer that is not lost, complete a release. */
  lemma ReleaseCompletes(cfgA: Config, a: Stack, cfgB: Config, b: Stack, ref: nat, sent: nat, answered: nat, local: bool, subsystems: map<byte, bool>)
    returns (routing: RoutingLabel)
    requires Initiator(cfgA, a, ref) && a.sections[ref].release.RLSD? && Counterpart(cfgB, b, a.sections[ref])
    requires cfgB.fits(RLC(ref, a.sections[ref].remoteRef))
    ensures var c := a.sections[ref];
            var rlc := RLC(ref, c.remoteRef);
            && Sends(Step(cfgB, b, Arrival(sent, c.remote, c.release, local, subsystems)).1, routing, rlc)
            && Step(cfgA, a, Arrival(answered, routing, rlc, local, subsystems)).0.sections == a.sections[ref := Freeze(cfgA, answered)]
  {
    assert GoodSection(cfgA, ref, a.sections[ref]);
    hide Good, Counterpart, Step;
    routing := ReleaseIsAnswered(cfgB, b, a.sections[ref], ref, sent, local, subsystems);
    AnswerCompletes(cfgA, a, ref, answered, routing, local, subsystems);
  }

  /** The peer's section is being released as well: its RLSD and ours cross. */
  ghost predicate Crossed(cfg: Config, s: Stack, a: Section)
    requires a.Releasing? && a.release.RLSD?
  {
    && Good(cfg, s) && ValidSections(s.sections)
    && var ref: nat := a.remoteRef;
       && ref in s.sections && s.sections[ref].Releasing? && s.sections[ref].remoteRef == a.release.source
       && Opposite(s.sections[ref].remote, a.remote)
  }

  /** Of crossed releases, each ends the other's, without an answer. */
  lemma CrossedEnds(cfg: Config, s: Stack, a: Section, now: nat, local: bool, subsystems: map<byte, bool>)
    requires a.Releasing? && a.release.RLSD? && a.release.destination == a.remoteRef && a.release.source < LOCAL_REFERENCE_RESERVED
    requires a.remoteRef < LOCAL_REFERENCE_RESERVED && Crossed(cfg, s, a)
    ensures var (s', outs) := Step(cfg, s, Arrival(now, a.remote, a.release, local, subsystems));
            s'.sections == s.sections[a.remoteRef := Freeze(cfg, now)] && outs == []
    ensures var s' := Step(cfg, s, Arrival(now, a.remote, a.release, local, subsystems)).0; Counterpart(cfg, s', a)
  {
    var ev := Arrival(now, a.remote, a.release, local, subsystems);
    StepKeepsGood(cfg, s, ev);
    GoodIsValid(cfg, Step(cfg, s, ev).0);
    hide Good, Active, Held;
  }

  /**
   * A release whose answer never comes, because it was lost or because the peer's own release crossed it, is
   * repaired by its repetition: the timer sends the RLSD again, the peer answers, and the answer completes it.
   */
  lemma RepetitionRepairs(cfgA: Config, a: Stack, cfgB: Config, b: Stack, ref: nat, kind: TimerKind, now: nat, sent: nat, answered: nat,
                          local: bool, subsystems: map<byte, bool>)
    returns (routing: RoutingLabel)
    requires Initiator(cfgA, a, ref) && ValidConfig(cfgA) && a.sections[ref].release.RLSD?
    requires Due(a.sections, now, ref, kind) && kind != TGiveUp
    requires Counterpart(cfgB, b, a.sections[ref])
    requires cfgA.fits(a.sections[ref].release) && cfgB.fits(RLC(ref, a.sections[ref].remoteRef))
    ensures var c := a.sections[ref];
            var (a1, outs) := Step(cfgA, a, Timeout(now, ref, kind));
            && outs == [Sent(c.remote, c.release)] && Initiator(cfgA, a1, ref)
            && Sends(Step(cfgB, b, Arrival(sent, c.remote, c.release, local, subsystems)).1, routing, RLC(ref, c.remoteRef))
            && Step(cfgA, a1, Arrival(answered, routing, RLC(ref, c.remoteRef), local, subsystems)).0.sections
               == a1.sections[ref := Freeze(cfgA, answered)]
  {
    var ev := Timeout(now, ref, kind);
    var a1 := Step(cfgA, a, ev).0;
    assert GoodSection(cfgA, ref, a.sections[ref]);
    StepKeepsGood(cfgA, a, ev);
    GoodIsValid(cfgA, a1);
    RepeatStep(cfgA, a, ref, kind, now);
    hide Good, Counterpart, Step;
    routing := ReleaseCompletes(cfgA, a1, cfgB, b, ref, sent, answered, local, subsystems);
  }

  lemma RepeatStep(cfg: Config, s: Stack, ref: nat, kind: TimerKind, now: nat)
    requires Initiator(cfg, s, ref) && ValidConfig(cfg) && Due(s.sections, now, ref, kind) && kind != TGiveUp
    requires cfg.fits(s.sections[ref].release)
    ensures var c := s.sections[ref];
            var (s', outs) := Step(cfg, s, Timeout(now, ref, kind));
            && outs == [Sent(c.remote, c.release)] && ref in s'.sections && s'.sections[ref].Releasing?
            && s'.sections[ref].remote == c.remote && s'.sections[ref].remoteRef == c.remoteRef && s'.sections[ref].release == c.release
  {
    hide Good, Active, Held;
  }
}
