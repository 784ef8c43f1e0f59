/** Running the timers that are due: it ends, each timer fires at most once, and none is left that is due. */
module ConnectionExpiry {
  import opened Basics
  import opened Fields
  import opened Messages
  import opened Connections
  import opened ConnectionRuns

  /** The timers that are due, as reference and kind. */
  ghost function DueTimers(s: Sections, now: nat): set<(nat, TimerKind)> {
    set ref, kind | ref in s && kind in Deadlines(s[ref]) && Deadlines(s[ref])[kind] <= now :: (ref, kind)
  }

  lemma DueExact(s: Sections, now: nat, ref: nat, kind: TimerKind)
    ensures (ref, kind) in DueTimers(s, now) <==> Due(s, now, ref, kind)
  {
  }

  /** What a timer starts is due later than it fires: a timer that is due afterwards ran before, with the same deadline. */
  lemma FireStartsLater(cfg: Config, ref: u32, c: Section, kind: TimerKind, now: nat, other: TimerKind)
    requires ValidConfig(cfg) && kind in Deadlines(c) && Deadlines(c)[kind] <= now
    ensures var r := Connections.Fire(cfg, ref, c, kind, now).0;
            r.Some? && other in Deadlines(r.value) && Deadlines(r.value)[other] <= now ==>
              other != kind && other in Deadlines(c) && Deadlines(c)[other] == Deadlines(r.value)[other]
  {
  }

  lemma FireLeaves(cfg: Config, s: Stack, now: nat, ref: nat, kind: TimerKind, r: nat, k: TimerKind)
    requires ValidConfig(cfg) && ValidSections(s.sections) && Due(s.sections, now, ref, kind)
    requires Due(Step(cfg, s, Timeout(now, ref, kind)).0.sections, now, r, k)
    ensures (r, k) != (ref, kind) && Due(s.sections, now, r, k)
    ensures Deadlines(s.sections[r])[k] == Deadlines(Step(cfg, s, Timeout(now, ref, kind)).0.sections[r])[k]
  {
    hide Connections.Fire, Deadlines;
    if r == ref {
      FireStartsLater(cfg, ref, s.sections[ref], kind, now, k);
    }
  }

  /** A timer that is due fires and is gone: what is due afterwards was due before. */
  lemma FireShrinks(cfg: Config, s: Stack, now: nat, ref: nat, kind: TimerKind)
    requires ValidConfig(cfg) && ValidSections(s.sections) && Due(s.sections, now, ref, kind)
    ensures DueTimers(Step(cfg, s, Timeout(now, ref, kind)).0.sections, now) <= DueTimers(s.sections, now) - {(ref, kind)}
    ensures |DueTimers(Step(cfg, s, Timeout(now, ref, kind)).0.sections, now)| < |DueTimers(s.sections, now)|
  {
    hide Step, Deadlines;
    var s' := Step(cfg, s, Timeout(now, ref, kind)).0;
    forall r, k | (r, k) in DueTimers(s'.sections, now)
      ensures (r, k) in DueTimers(s.sections, now) - {(ref, kind)}
    {
      FireLeaves(cfg, s, now, ref, kind, r, k);
    }
    DueExact(s.sections, now, ref, kind);
    FewerThan(DueTimers(s'.sections, now), DueTimers(s.sections, now), (ref, kind));
  }

  lemma FewerThan<T>(a: set<T>, b: set<T>, x: T)
    requires a <= b - {x} && x in b
    ensures |a| < |b|
  {
    var c := b - {x};
    assert |c| == |b| - 1;
    assert c == a + (c - a) && a !! (c - a);
    assert |c| == |a| + |c - a|;
  }

  /** The stack, and everything put out, after timeouts. */
  ghost function AfterTimeouts(cfg: Config, s: Stack, evs: seq<Event>): (r: (Stack, seq<Out>))
    requires Good(cfg, s) && ValidSections(s.sections)
    ensures Good(cfg, r.0) && ValidSections(r.0.sections)
    decreases |evs|
  {
    if |evs| == 0 then (s, []) else
    var before := AfterTimeouts(cfg, s, evs[..|evs| - 1]);
    StepKeepsGood(cfg, before.0, evs[|evs| - 1]);
    GoodIsValid(cfg, Step(cfg, before.0, evs[|evs| - 1]).0);
    (Step(cfg, before.0, evs[|evs| - 1]).0, before.1 + Step(cfg, before.0, evs[|evs| - 1]).1)
  }

  /** The timer is due, and no running timer is earlier. */
  ghost predicate Earliest(s: Sections, now: nat, ref: nat, kind: TimerKind) {
    && Due(s, now, ref, kind)
    && forall r, k :: r in s && k in Deadlines(s[r]) ==> Deadlines(s[ref])[kind] <= Deadlines(s[r])[k]
  }

  /** Timers of which each is an earliest one when it fires. */
  ghost predicate InOrder(cfg: Config, s: Stack, now: nat, evs: seq<Event>)
    requires Good(cfg, s) && ValidSections(s.sections)
  {
    forall i :: 0 <= i < |evs| ==>
      && evs[i].Timeout? && evs[i].now == now
      && Earliest(AfterTimeouts(cfg, s, evs[..i]).0.sections, now, evs[i].ref, evs[i].kind)
  }

  lemma InOrderMore(cfg: Config, s: Stack, now: nat, evs: seq<Event>, ref: nat, kind: TimerKind)
    requires Good(cfg, s) && ValidSections(s.sections) && InOrder(cfg, s, now, evs)
    requires Earliest(AfterTimeouts(cfg, s, evs).0.sections, now, ref, kind)
    ensures var (t, outs) := AfterTimeouts(cfg, s, evs);
            var more := evs + [Timeout(now, ref, kind)];
            && InOrder(cfg, s, now, more)
            && AfterTimeouts(cfg, s, more) == (Step(cfg, t, Timeout(now, ref, kind)).0, outs + Step(cfg, t, Timeout(now, ref, kind)).1)
  {
    hide Earliest, Step, Good, ValidSections;
    var more := evs + [Timeout(now, ref, kind)];
    assert more[..|evs|] == evs;
    forall i | 0 <= i < |evs|
      ensures more[..i] == evs[..i]
    {
    }
  }

  lemma {:induction false} DueLeft(cfg: Config, s: Stack, now: nat, evs: seq<Event>, i: nat)
    requires Good(cfg, s) && ValidSections(s.sections) && ValidConfig(cfg) && InOrder(cfg, s, now, evs) && i <= |evs|
    ensures DueTimers(AfterTimeouts(cfg, s, evs[..i]).0.sections, now) <= DueTimers(s.sections, now)
    ensures forall j :: 0 <= j < i ==> (evs[j].ref, evs[j].kind) !in DueTimers(AfterTimeouts(cfg, s, evs[..i]).0.sections, now)
    decreases i
  {
    hide DueTimers, Step, Good, ValidSections, Deadlines;
    if i > 0 {
      DueLeft(cfg, s, now, evs, i - 1);
      var t := AfterTimeouts(cfg, s, evs[..i - 1]).0;
      assert evs[..i][..i - 1] == evs[..i - 1];
      assert evs[i - 1] == Timeout(now, evs[i - 1].ref, evs[i - 1].kind);
      FireShrinks(cfg, t, now, evs[i - 1].ref, evs[i - 1].kind);
    }
  }

  /** Only timers that were due fire, and none of them twice. */
  lemma FiresOnce(cfg: Config, s: Stack, now: nat, evs: seq<Event>, i: nat, j: nat)
    requires Good(cfg, s) && ValidSections(s.sections) && ValidConfig(cfg) && InOrder(cfg, s, now, evs) && i < j < |evs|
    ensures (evs[i].ref, evs[i].kind) != (evs[j].ref, evs[j].kind)
    ensures Due(s.sections, now, evs[j].ref, evs[j].kind)
  {
    hide DueTimers, Step, Good, ValidSections, Deadlines, AfterTimeouts;
    DueLeft(cfg, s, now, evs, j);
    DueExact(AfterTimeouts(cfg, s, evs[..j]).0.sections, now, evs[j].ref, evs[j].kind);
    DueExact(s.sections, now, evs[j].ref, evs[j].kind);
  }

  /** A timer that is due later on has run, with its deadline, all along. */
  lemma {:induction false} DueAllAlong(cfg: Config, s: Stack, now: nat, evs: seq<Event>, i: nat, j: nat, r: nat, k: TimerKind)
    requires Good(cfg, s) && ValidSections(s.sections) && ValidConfig(cfg) && InOrder(cfg, s, now, evs) && i <= j <= |evs|
    requires Due(AfterTimeouts(cfg, s, evs[..j]).0.sections, now, r, k)
    ensures Due(AfterTimeouts(cfg, s, evs[..i]).0.sections, now, r, k)
    ensures Deadlines(AfterTimeouts(cfg, s, evs[..i]).0.sections[r])[k] == Deadlines(AfterTimeouts(cfg, s, evs[..j]).0.sections[r])[k]
    decreases j
  {
    hide DueTimers, Step, Good, ValidSections, Deadlines;
    if i < j {
      var t := AfterTimeouts(cfg, s, evs[..j - 1]).0;
      assert evs[..j][..j - 1] == evs[..j - 1];
      assert evs[j - 1] == Timeout(now, evs[j - 1].ref, evs[j - 1].kind);
      FireLeaves(cfg, t, now, evs[j - 1].ref, evs[j - 1].kind, r, k);
      DueAllAlong(cfg, s, now, evs, i, j - 1, r, k);
    }
  }

  /** The timers fire in the order of the deadlines they were started with. */
  lemma FiresInOrder(cfg: Config, s: Stack, now: nat, evs: seq<Event>, i: nat, j: nat)
    requires Good(cfg, s) && ValidSections(s.sections) && ValidConfig(cfg) && InOrder(cfg, s, now, evs) && i <= j < |evs|
    ensures Due(s.sections, now, evs[i].ref, evs[i].kind) && Due(s.sections, now, evs[j].ref, evs[j].kind)
    ensures Deadlines(s.sections[evs[i].ref])[evs[i].kind] <= Deadlines(s.sections[evs[j].ref])[evs[j].kind]
  {
    hide DueTimers, Step, Good, ValidSections, Deadlines;
    assert evs[..0] == [];
    assert AfterTimeouts(cfg, s, evs[..0]).0 == s;
    DueAllAlong(cfg, s, now, evs, 0, i, evs[i].ref, evs[i].kind);
    DueAllAlong(cfg, s, now, evs, 0, j, evs[j].ref, evs[j].kind);
    DueAllAlong(cfg, s, now, evs, i, j, evs[j].ref, evs[j].kind);
  }
}
