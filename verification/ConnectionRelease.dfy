/** Release always ends: how long it lasts and how often it is repeated, over every run; and how two nodes end it together. */
module ConnectionRelease {
  import opened Basics
  import opened Fields
  import opened Messages
  import opened Connections
  import opened ConnectionRuns

  /** The repetitions that fit strictly between an instant and the end of T(int), d before it: those k >= 1 with k * T(repeat rel) < d. */
  function Repetitions(cfg: Config, d: nat): nat
    requires cfg.repeat > 0
  {
    if d == 0 then 0 else (d - 1) / cfg.repeat
  }

  /** The k-th repetition comes before T(int) ends, d after the first. */
  predicate Repeats(cfg: Config, d: nat, k: nat) {
    k >= 1 && k * cfg.repeat < d
  }

  /** That is how many of them there are. */
  lemma RepetitionsCount(cfg: Config, d: nat)
    requires cfg.repeat > 0
    ensures |set k: nat | k <= d && Repeats(cfg, d, k)| == Repetitions(cfg, d)
  {
    hide Repeats, Repetitions;
    var n := Repetitions(cfg, d);
    var ks := set k: nat | k <= d && Repeats(cfg, d, k);
    forall k: nat
      ensures k in ks <==> k in UpTo(n)
    {
      RepetitionBound(cfg, d, k);
    }
    assert ks == UpTo(n);
    UpToSize(n);
  }

  lemma RepetitionBound(cfg: Config, d: nat, k: nat)
    requires cfg.repeat > 0
    ensures k <= d && Repeats(cfg, d, k) <==> 1 <= k <= Repetitions(cfg, d)
  {
    var n := cfg.repeat;
    if d > 0 && k >= 1 {
      var q := (d - 1) / n;
      assert d - 1 == q * n + (d - 1) % n;
      TimesMore(k, q, n);
      if k <= q {
        TimesOrdered(k, q, n);
        TimesOrdered(1, n, k);
      }
    }
  }

  ghost function UpTo(n: nat): (s: set<nat>)
    ensures forall k :: k in s <==> 1 <= k <= n
  {
    if n == 0 then {} else UpTo(n - 1) + {n}
  }

  lemma {:induction false} UpToSize(n: nat)
    ensures |UpTo(n)| == n
  {
    if n > 0 {
      UpToSize(n - 1);
    }
  }

  /** The RLSD that the timers of a section can still send. */
  function TimerReleasesLeft(cfg: Config, c: Section): nat
    requires cfg.repeat > 0
  {
    if !c.Releasing? then 0 else
    match c.wait
    case First(_) => 1 + Repetitions(cfg, cfg.giveUp)
    case Repeating(_, None) => 0
    case Repeating(giveUp, Some(t)) => if t < giveUp then 1 + Repetitions(cfg, giveUp - t) else 0
  }

  /** A repetition is counted by its distance from the end of T(int). */
  lemma RepetitionStep(cfg: Config, now: nat, giveUp: nat)
    requires cfg.repeat > 0 && now < giveUp
    ensures var next := NextRepeat(cfg, now, giveUp);
            next.Some? ==> next.value < giveUp && 1 + Repetitions(cfg, giveUp - next.value) <= Repetitions(cfg, giveUp - now)
  {
    var next := NextRepeat(cfg, now, giveUp);
    if next.Some? {
      var d := giveUp - next.value - 1;
      assert giveUp - now - 1 == d + cfg.repeat;
      DivideMore(d, cfg.repeat);
    }
  }

  lemma DivideMore(d: nat, n: nat)
    requires n > 0
    ensures (d + n) / n == d / n + 1
  {
    assert d == (d / n) * n + d % n;
    assert d + n == (d / n + 1) * n + d % n;
    DivideUnique(d + n, n, d / n + 1, d % n);
  }

  lemma DivideUnique(x: nat, n: nat, q: nat, r: nat)
    requires n > 0 && x == q * n + r && r < n
    ensures x / n == q
  {
    var p := x / n;
    assert x == p * n + x % n;
    TimesMore(p, q, n);
    TimesMore(q, p, n);
  }

  // ----- The bound -----

  /** What an event about a section being released does: its release stays as it is, or it ends. */
  predicate ReleaseStep(cfg: Config, c: Section, c': Section)
    requires c.Releasing? && cfg.repeat > 0
  {
    || !c'.Releasing?
    || (c'.release == c.release && c'.remote == c.remote && c'.remoteRef == c.remoteRef
        && (c' == c || c'.wait.Repeating?) && (c.wait.Repeating? ==> c'.wait.Repeating? && c'.wait.giveUp == c.wait.giveUp))
  }

  predicate IsTimer(ev: Event, r: nat) { ev.Timeout? && ev.ref == r }

  /** A timer of a section being released repeats the RLSD that began the release, or gives up. */
  lemma ReleaseTimer(cfg: Config, ref: u32, c: Section, kind: TimerKind, now: nat)
    requires c.Releasing? && kind in Deadlines(c) && cfg.repeat > 0 && cfg.giveUp > 0 && Deadlines(c)[kind] <= now
    requires c.wait.Repeating? && c.wait.repeat.Some? ==> c.wait.repeat.value < c.wait.giveUp
    ensures var (c', outs) := Connections.Fire(cfg, ref, c, kind, now);
            && c'.Some? && ReleaseStep(cfg, c, c'.value)
            && (kind == TGiveUp ==> c'.value == Freeze(cfg, now) && outs == [Indicated(ReleaseIncomplete(ref, c.remote, c.remoteRef))])
            && (kind != TGiveUp ==>
                  && outs == Transfer(cfg, c.remote, c.release)
                  && c'.value.Releasing? && 1 + TimerReleasesLeft(cfg, c'.value) <= TimerReleasesLeft(cfg, c)
                  && (kind == TRelease ==> c'.value.wait.giveUp == now + cfg.giveUp))
  {
    if kind == TRelease {
      RepetitionStep(cfg, now, now + cfg.giveUp);
    } else if kind == TRepeat {
      var giveUp, t := c.wait.giveUp, c.wait.repeat.value;
      if now < giveUp {
        RepetitionStep(cfg, now, giveUp);
        FewerRepetitions(cfg, giveUp - now, giveUp - t);
      }
    }
  }

  lemma FewerRepetitions(cfg: Config, d: nat, e: nat)
    requires cfg.repeat > 0 && d <= e
    ensures Repetitions(cfg, d) <= Repetitions(cfg, e)
  {
    var n := cfg.repeat;
    if d > 0 {
      var p, q := (d - 1) / n, (e - 1) / n;
      assert d - 1 == p * n + (d - 1) % n && e - 1 == q * n + (e - 1) % n;
      TimesMore(p, q, n);
    }
  }

  /** A message leaves a section being released as it is, or ends the release. */
  lemma ReleaseMessage(cfg: Config, ref: u32, c: Section, now: nat, routing: RoutingLabel, m: Message, available: nat)
    requires SectionMessage(m) && c.Releasing? && c.release.RLSD?
    ensures var c' := Connections.Receive(cfg, ref, c, now, routing, m, available).0; c' == c || c'.Frozen?
  {
  }

  /** A step of the stack as one section being released sees it. */
  lemma ReleaseEvent(cfg: Config, s: Stack, ev: Event, r: nat)
    requires Good(cfg, s) && ValidSections(s.sections) && r in s.sections && s.sections[r].Releasing? && ValidConfig(cfg)
    ensures var s' := Step(cfg, s, ev).0;
            && r in s'.sections && ReleaseStep(cfg, s.sections[r], s'.sections[r])
            && (s'.sections[r].Releasing? && s'.sections[r] != s.sections[r] ==>
                  && IsTimer(ev, r)
                  && Step(cfg, s, ev).1 == Transfer(cfg, s.sections[r].remote, s.sections[r].release)
                  && 1 + TimerReleasesLeft(cfg, s'.sections[r]) <= TimerReleasesLeft(cfg, s.sections[r]))
  {
    hide Connections.Receive, Connections.Fire, Connections.Connect, Connections.Accept, Connections.SendData, Candidate, Connectable, Admits;
    assert GoodSection(cfg, r, s.sections[r]);
    EffectAcceptable(cfg, s, ev);
    hide Good, Active, Held;
    match ev {
      case Arrival(now, routing, m, _, _) =>
        if SectionMessage(m) && DestinationOf(m) == r {
          ReleaseMessage(cfg, r, s.sections[r], now, routing, m, Available(cfg, s.sections));
        }
      case Timeout(now, ref, kind) =>
        if ref == r && Due(s.sections, now, ref, kind) {
          ReleaseTimer(cfg, r, s.sections[r], kind, now);
        }
      case ConnectRequested(_, _) =>
      case Accepted(now, ref, responding, data, importance) => ReleaseRefuses(cfg, s, ev, r);
      case DataRequested(now, ref, data) => ReleaseRefuses(cfg, s, ev, r);
      case DisconnectRequested(now, ref, req) => ReleaseRefuses(cfg, s, ev, r);
    }
  }

  /** A section being released refuses every request. */
  lemma ReleaseRefuses(cfg: Config, s: Stack, ev: Event, r: nat)
    requires ValidSections(s.sections) && r in s.sections && s.sections[r].Releasing?
    requires (ev.Accepted? || ev.DataRequested? || ev.DisconnectRequested?)
    ensures ev.ref == r ==> EffectOf(cfg, s, ev) == Error(StateError)
    ensures var s' := Step(cfg, s, ev).0; r in s'.sections && s'.sections[r] == s.sections[r]
  {
    hide Connections.Accept, Connections.SendData, Connections.Disconnect;
    if ev.ref == r {
      RefusedInRelease(cfg, r, s.sections[r], ev);
    }
  }

  lemma RefusedInRelease(cfg: Config, ref: u32, c: Section, ev: Event)
    requires c.Releasing?
    ensures match ev
            case Accepted(now, _, responding, data, importance) =>
              Connections.Accept(cfg, ref, c, responding, data, importance, now) == Refused(StateError)
            case DataRequested(now, _, data) => Connections.SendData(cfg, c, data, now) == Refused(StateError)
            case DisconnectRequested(now, _, req) => Connections.Disconnect(cfg, ref, c, req, now) == Refused(StateError)
            case _ => true
  {
  }

  /** The section of r is being released from the first i to the first j events. */
  ghost predicate Released(cfg: Config, evs: seq<Event>, i: nat, j: nat, r: nat)
    requires i <= j <= |evs|
  {
    forall k :: i <= k <= j ==> r in StackAt(cfg, evs, k).sections && StackAt(cfg, evs, k).sections[r].Releasing?
  }

  /** A timer of r is due, and fires, at event k. */
  ghost predicate FiresAt(cfg: Config, evs: seq<Event>, k: nat, r: nat)
    requires k < |evs|
  {
    IsTimer(evs[k], r) && Due(StackAt(cfg, evs, k).sections, evs[k].now, r, evs[k].kind)
  }

  /** How many times the timers of r have sent its RLSD in the events from i to j. */
  ghost function TimerReleases(cfg: Config, evs: seq<Event>, i: nat, j: nat, r: nat): nat
    requires i <= j <= |evs|
    decreases j
  {
    if i == j then 0 else TimerReleases(cfg, evs, i, j - 1, r) + (if FiresAt(cfg, evs, j - 1, r) then 1 else 0)
  }

  lemma ReleasedStep(cfg: Config, evs: seq<Event>, k: nat, r: nat)
    requires k < |evs| && ValidConfig(cfg)
    requires r in StackAt(cfg, evs, k).sections && StackAt(cfg, evs, k).sections[r].Releasing?
    requires r in StackAt(cfg, evs, k + 1).sections && StackAt(cfg, evs, k + 1).sections[r].Releasing?
    ensures var c, c' := StackAt(cfg, evs, k).sections[r], StackAt(cfg, evs, k + 1).sections[r];
            && ReleaseStep(cfg, c, c')
            && (FiresAt(cfg, evs, k, r) ==>
                  OutsAt(cfg, evs, k) == Transfer(cfg, c.remote, c.release) && 1 + TimerReleasesLeft(cfg, c') <= TimerReleasesLeft(cfg, c))
            && (!FiresAt(cfg, evs, k, r) ==> c' == c)
            && (FiresAt(cfg, evs, k, r) && evs[k].kind == TRelease ==> c'.wait == Repeating(evs[k].now + cfg.giveUp, c'.wait.repeat))
  {
    hide ReleaseStep, TimerReleasesLeft, Transfer;
    var s := StackAt(cfg, evs, k);
    assert GoodSection(cfg, r, s.sections[r]);
    hide Good;
    NextStack(cfg, evs, k);
    ReleaseEvent(cfg, s, evs[k], r);
    if FiresAt(cfg, evs, k, r) {
      hide Connections.Fire;
      ReleaseTimer(cfg, r, s.sections[r], evs[k].kind, evs[k].now);
    } else {
      hide EffectOf;
      if IsTimer(evs[k], r) {
        NotDue(cfg, s, evs[k]);
      }
    }
  }

  lemma NotDue(cfg: Config, s: Stack, ev: Event)
    requires ValidSections(s.sections) && ev.Timeout? && !Due(s.sections, ev.now, ev.ref, ev.kind)
    ensures Step(cfg, s, ev) == (s, [])
  {
  }

  /**
   * Whatever happens in between, the timers send the RLSD of a release once for T(rel) and at most once for each
   * k >= 1 with k * T(repeat rel) < T(int); and it is the same RLSD, to the same node, to the end.
   */
  lemma {:induction false} ReleaseIsBounded(cfg: Config, evs: seq<Event>, i: nat, j: nat, r: nat)
    requires i <= j <= |evs| && ValidConfig(cfg) && Released(cfg, evs, i, j, r)
    ensures var c, c' := StackAt(cfg, evs, i).sections[r], StackAt(cfg, evs, j).sections[r];
            && c'.release == c.release && c'.remote == c.remote && c'.remoteRef == c.remoteRef
            && TimerReleases(cfg, evs, i, j, r) + TimerReleasesLeft(cfg, c') <= TimerReleasesLeft(cfg, c)
            && (c.wait.First? ==> TimerReleases(cfg, evs, i, j, r) <= 1 + Repetitions(cfg, cfg.giveUp))
            && (c.wait.Repeating? ==> c'.wait.Repeating? && c'.wait.giveUp == c.wait.giveUp)
    decreases j
  {
    hide StackAt, OutsAt, FiresAt, Good, ValidSections, TimerReleasesLeft, Transfer;
    if StackAt(cfg, evs, i).sections[r].wait.First? {
      LeftAtFirst(cfg, StackAt(cfg, evs, i).sections[r]);
    }
    if i < j {
      ReleaseIsBounded(cfg, evs, i, j - 1, r);
      ReleasedStep(cfg, evs, j - 1, r);
    }
  }

  lemma LeftAtFirst(cfg: Config, c: Section)
    requires cfg.repeat > 0 && c.Releasing? && c.wait.First?
    ensures TimerReleasesLeft(cfg, c) == 1 + Repetitions(cfg, cfg.giveUp)
  {
  }

  /**
   * From the first expiry of T(rel), at time t, on: a section that is still being released when none of its timers
   * is due at a time is before the end of T(int). Once the timers that are due at t + T(int) have run, it is frozen.
   */
  lemma ReleaseEnds(cfg: Config, evs: seq<Event>, i: nat, j: nat, r: nat, now: nat)
    requires i < j <= |evs| && ValidConfig(cfg) && Released(cfg, evs, i, j, r)
    requires FiresAt(cfg, evs, i, r) && evs[i].kind == TRelease
    requires forall kind :: !Due(StackAt(cfg, evs, j).sections, now, r, kind)
    ensures now < evs[i].now + cfg.giveUp
  {
    hide StackAt, OutsAt, FiresAt, Good, ValidSections, TimerReleasesLeft, Transfer;
    ReleasedStep(cfg, evs, i, r);
    ReleaseIsBounded(cfg, evs, i + 1, j, r);
    var c := StackAt(cfg, evs, j).sections[r];
    assert !Due(StackAt(cfg, evs, j).sections, now, r, TGiveUp);
  }
}
