/** Properties of reassembly over whole runs: any interleaving of segments of any keys, and of timeouts. */
module ReassemblyRuns {
  import opened Basics
  import opened Fields
  import opened Messages
  import opened Reassembly

  datatype Event =
    | Segment(now: nat, u: Unitdata, barrier: Option<byte>)
    | Fire(now: nat, key: Key)

  predicate Enabled(t: Table, ev: Event) {
    match ev
    case Segment(_, u, _) => IsSegment(u)
    case Fire(now, k) => k in t && t[k].deadline <= now
  }

  /** The key an event is about; None for a segment whose calling address cannot be encoded. */
  function Subject(ev: Event): Option<Key> {
    match ev
    case Segment(_, u, _) => if u.segmentation.Some? then KeyOf(u) else None
    case Fire(_, k) => Some(k)
  }

  /** An event that is not enabled does nothing. */
  ghost function Step(cfg: Config, t: Table, ev: Event): (Table, seq<Out>)
    requires ValidTable(t)
  {
    if !Enabled(t, ev) then (t, []) else
    match ev
    case Segment(now, u, barrier) => Receive(cfg, t, now, u, barrier)
    case Fire(now, k) => Timeout(cfg, t, now, k)
  }

  // ----- One step -----

  /** A live entry holds the first segments of one message, all of its key, and not yet all of them. */
  ghost predicate GoodEntry(k: Key, e: Entry) {
    e.Live? ==>
      && InSequence(e.segments) && |e.segments| < Announced(e.segments)
      && forall i :: 0 <= i < |e.segments| ==> KeyOf(e.segments[i]) == Some(k)
  }

  /** Accounting stays within the configured bounds. */
  ghost predicate WithinBounds(cfg: Config, t: Table) {
    && Slots(t) <= cfg.maxReassemblies && Orphans(t) <= cfg.maxReassemblies
    && Octets(t) <= cfg.maxOctets
    && (cfg.perPeer > 0 ==> forall p :: PeerOctets(t, p) <= cfg.perPeer)
  }

  ghost predicate Good(cfg: Config, t: Table) {
    (forall k :: k in t ==> GoodEntry(k, t[k])) && WithinBounds(cfg, t)
  }

  lemma GoodIsValid(cfg: Config, t: Table)
    requires Good(cfg, t)
    ensures ValidTable(t)
  {
    forall k | k in t ensures ValidEntry(Some(t[k])) {
      assert GoodEntry(k, t[k]);
      if t[k].Live? {
        assert IsSegment(t[k].segments[0]);
      }
    }
  }

  lemma DataPush(segs: seq<Unitdata>, u: Unitdata)
    ensures Data(segs + [u]) == Data(segs) + u.data
    ensures AnyReturn(segs + [u]) == (AnyReturn(segs) || u.protocolClass.returnOnError)
  {
    assert (segs + [u])[..|segs|] == segs;
  }

  lemma DataOne(u: Unitdata)
    ensures Data([u]) == u.data
  {
    assert Data([u]) == Data([]) + u.data;
  }

  /** The next segment in sequence, within the bound and the maximum, extends a message. */
  lemma PushInSequence(segs: seq<Unitdata>, u: Unitdata)
    requires InSequence(segs) && IsSegment(u) && !Seg(u).first
    requires Seg(u).remaining as int == Announced(segs) - 1 - |segs|
    requires |Data(segs)| + |u.data| <= Bound(segs) && |Data(segs)| + |u.data| <= MAX_LONG_DATA
    ensures InSequence(segs + [u]) && Announced(segs + [u]) == Announced(segs)
  {
    DataPush(segs, u);
    var ws := segs + [u];
    assert ws[0] == segs[0];
    forall i | 0 <= i < |ws|
      ensures IsSegment(ws[i]) && Seg(ws[i]).first == (i == 0) && Seg(ws[i]).remaining as int == Announced(ws) - 1 - i
    {
      assert i < |segs| ==> ws[i] == segs[i];
    }
  }

  lemma KeyReceiveGood(cfg: Config, e: Option<Entry>, room: Room, now: nat, u: Unitdata, barrier: Option<byte>, k: Key)
    requires IsSegment(u) && KeyOf(u) == Some(k) && (e.Some? ==> GoodEntry(k, e.value)) && ValidEntry(e)
    ensures var r := KeyReceive(cfg, e, room, now, u, barrier); r.0.Some? ==> GoodEntry(k, r.0.value)
  {
    DataOne(u);
    if Seg(u).first {
      FirstInSequence(u);
    }
    if e.Some? && e.value.Live? {
      var segs := e.value.segments;
      if !Seg(u).first && Seg(u).remaining as int == Announced(segs) - 1 - |segs|
         && |Data(segs)| + |u.data| <= Bound(segs) && |Data(segs)| + |u.data| <= MAX_LONG_DATA {
        PushInSequence(segs, u);
        assert forall i :: 0 <= i < |segs| + 1 ==> KeyOf((segs + [u])[i]) == Some(k);
      }
    }
  }

  lemma FirstInSequence(u: Unitdata)
    requires IsSegment(u) && Seg(u).first
    ensures InSequence([u]) && Announced([u]) > 1
  {
    DataOne(u);
    var n := Announced([u]);
    assert |u.data| * n >= |u.data| by { assert n >= 1; Multiply(|u.data|, n); }
  }

  lemma Multiply(a: nat, n: nat)
    requires n >= 1
    ensures a * n >= a
  {
  }

  /** What replacing one entry does to the accounting. */
  lemma PutWeighs(t: Table, k: Key, e: Option<Entry>, w: (Key, Entry) -> nat)
    ensures Weigh(Put(t, k, e), w) == Weigh(t - {k}, w) + (if e.Some? then w(k, e.value) else 0)
    ensures Weigh(t, w) == Weigh(t - {k}, w) + (if k in t then w(k, t[k]) else 0)
  {
    if k in t {
      WeighRemove(t, k, w);
    } else {
      assert t - {k} == t;
    }
    if e.Some? {
      WeighRemove(Put(t, k, e), k, w);
      assert t[k := e.value] - {k} == t - {k};
    }
  }

  /** An admitted entry had room: a new slot, new octets or a new record only within the bounds. */
  lemma KeyReceiveRoom(cfg: Config, e: Option<Entry>, room: Room, now: nat, u: Unitdata, barrier: Option<byte>, k: Key)
    requires u.segmentation.Some? && ValidEntry(e) && KeyOf(u) == Some(k)
    ensures var r := KeyReceive(cfg, e, room, now, u, barrier).0;
            r.Some? ==>
              && (SlotWeight(k, r.value) == 1 ==> room.slot || (e.Some? && SlotWeight(k, e.value) == 1))
              && (OrphanWeight(k, r.value) == 1 ==> room.record || (e.Some? && OrphanWeight(k, e.value) == 1))
              && (OctetWeight(k, r.value) > 0 ==>
                    room.octets && OctetWeight(k, r.value) == (if e.Some? then OctetWeight(k, e.value) else 0) + |u.data|)
  {
    DataOne(u);
    if e.Some? && e.value.Live? {
      DataPush(e.value.segments, u);
    }
  }

  lemma PutWithinBounds(cfg: Config, t: Table, k: Key, r: Option<Entry>, n: nat)
    requires WithinBounds(cfg, t)
    requires var room, e := RoomFor(cfg, t, k, n), Get(t, k);
             r.Some? ==>
               && (SlotWeight(k, r.value) == 1 ==> room.slot || (e.Some? && SlotWeight(k, e.value) == 1))
               && (OrphanWeight(k, r.value) == 1 ==> room.record || (e.Some? && OrphanWeight(k, e.value) == 1))
               && (OctetWeight(k, r.value) > 0 ==>
                     room.octets && OctetWeight(k, r.value) == (if e.Some? then OctetWeight(k, e.value) else 0) + n)
    ensures WithinBounds(cfg, Put(t, k, r))
  {
    PutWeighs(t, k, r, SlotWeight);
    PutWeighs(t, k, r, OrphanWeight);
    PutWeighs(t, k, r, OctetWeight);
    if cfg.perPeer > 0 {
      forall p ensures PeerOctets(Put(t, k, r), p) <= cfg.perPeer {
        PutWeighs(t, k, r, PeerWeight(p));
        assert PeerOctets(t, p) <= cfg.perPeer;
      }
    }
  }

  lemma StepKeepsGood(cfg: Config, t: Table, ev: Event)
    requires Good(cfg, t) && ValidTable(t)
    ensures Good(cfg, Step(cfg, t, ev).0)
  {
    if Enabled(t, ev) && Subject(ev).Some? {
      var k := Subject(ev).value;
      var e := Get(t, k);
      assert e.Some? ==> GoodEntry(k, e.value);
      match ev {
        case Segment(now, u, barrier) =>
          var room := RoomFor(cfg, t, k, |u.data|);
          KeyReceiveGood(cfg, e, room, now, u, barrier, k);
          KeyReceiveRoom(cfg, e, room, now, u, barrier, k);
          PutWithinBounds(cfg, t, k, KeyReceive(cfg, e, room, now, u, barrier).0, |u.data|);
        case Fire(now, _) =>
          PutWithinBounds(cfg, t, k, KeyTimeout(cfg, t[k], now).0, 0);
      }
    }
  }

  // ----- Runs -----

  /** The table after the first i events, from an empty one. */
  ghost function TableAt(cfg: Config, evs: seq<Event>, i: nat): (t: Table)
    requires i <= |evs|
    ensures ValidTable(t) && Good(cfg, t)
  {
    if i == 0 then
      EmptyIsGood(cfg);
      map[]
    else
      var before := TableAt(cfg, evs, i - 1);
      StepKeepsGood(cfg, before, evs[i - 1]);
      GoodIsValid(cfg, Step(cfg, before, evs[i - 1]).0);
      Step(cfg, before, evs[i - 1]).0
  }

  lemma EmptyIsGood(cfg: Config)
    ensures Good(cfg, map[])
  {
  }

  ghost function OutsAt(cfg: Config, evs: seq<Event>, i: nat): seq<Out>
    requires i < |evs|
  {
    Step(cfg, TableAt(cfg, evs, i), evs[i]).1
  }

  /** Accounting in every reachable state: every live entry well formed, every bound respected. */
  lemma ReachableIsGood(cfg: Config, evs: seq<Event>)
    ensures Good(cfg, TableAt(cfg, evs, |evs|))
  {
  }

  // ----- Return once -----

  /** The outputs return a segment of key k. */
  ghost predicate Returns(outs: seq<Out>, k: Key) {
    exists i :: 0 <= i < |outs| && outs[i].Returned? && outs[i].u.segmentation.Some? && KeyOf(outs[i].u) == Some(k)
  }

  predicate AtMostOneReturn(outs: seq<Out>) {
    forall i, j :: 0 <= i < j < |outs| ==> !(outs[i].Returned? && outs[j].Returned?)
  }

  /** The record of a failed message of key k ends: its T(reassembly) expired, or a different first segment came. */
  predicate EndsRecord(cfg: Config, e: Entry, ev: Event) {
    e.Failed? && match ev
                 case Segment(_, u, _) => u.segmentation.Some? && StartsAfresh(cfg, e, u)
                 case Fire(now, _) => e.deadline <= now
  }

  /**
   * A step returns at most one message, of its own key, and then that key has just become a record; a record that
   * does not end returns nothing and stays as it is.
   */
  lemma StepReturns(cfg: Config, t: Table, ev: Event, k: Key)
    requires Good(cfg, t) && ValidTable(t)
    ensures var (t', outs) := Step(cfg, t, ev);
            && AtMostOneReturn(outs)
            && (Returns(outs, k) ==>
                  && Subject(ev) == Some(k) && k in t' && t'[k].Failed? && t'[k].deadline == ev.now + cfg.timeout
                  && (k in t && t[k].Failed? ==> EndsRecord(cfg, t[k], ev)))
            && (k in t && t[k].Failed? && !(Enabled(t, ev) && Subject(ev) == Some(k) && EndsRecord(cfg, t[k], ev)) ==>
                  k in t' && t'[k] == t[k])
  {
    if Enabled(t, ev) && Subject(ev).Some? {
      var s := Subject(ev).value;
      var e := Get(t, s);
      match ev {
        case Segment(now, u, barrier) =>
          KeyReturns(cfg, e, RoomFor(cfg, t, s, |u.data|), now, u, barrier, s);
        case Fire(now, _) =>
          assert GoodEntry(s, t[s]);
      }
    }
  }

  /** Outputs that return at most one segment, of key s, which has then become a record. */
  predicate OwnReturn(cfg: Config, r: (Option<Entry>, seq<Out>), now: nat, s: Key) {
    && AtMostOneReturn(r.1)
    && (forall i :: 0 <= i < |r.1| && r.1[i].Returned? ==>
          && r.1[i].u.segmentation.Some? && KeyOf(r.1[i].u) == Some(s)
          && r.0.Some? && r.0.value.Failed? && r.0.value.deadline == now + cfg.timeout)
  }

  lemma RejectReturns(cfg: Config, room: Room, now: nat, u: Unitdata, cause: byte, reason: Reason, s: Key)
    requires u.segmentation.Some? && KeyOf(u) == Some(s)
    ensures OwnReturn(cfg, KeyReject(cfg, room, now, u, cause, reason), now, s)
  {
  }

  lemma AlsoReturns(cfg: Config, segs: seq<Unitdata>, now: nat, roe: bool, cause: byte, reason: Reason, o: Out, s: Key)
    requires |segs| > 0 && segs[0].segmentation.Some? && KeyOf(segs[0]) == Some(s) && !o.Returned?
    ensures OwnReturn(cfg, Also(KeyFail(cfg, segs, now, roe, cause, reason), o), now, s)
    ensures OwnReturn(cfg, KeyFail(cfg, segs, now, roe, cause, reason), now, s)
  {
  }

  lemma StartReturns(cfg: Config, room: Room, now: nat, u: Unitdata, barrier: Option<byte>, s: Key)
    requires u.segmentation.Some? && KeyOf(u) == Some(s)
    ensures OwnReturn(cfg, Start(cfg, room, now, u, barrier), now, s)
  {
    hide KeyReject;
    if barrier.Some? { RejectReturns(cfg, room, now, u, barrier.value, Undeliverable(barrier.value), s); }
    RejectReturns(cfg, room, now, u, ERROR_IN_TRANSPORT, NoProcess, s);
    RejectReturns(cfg, room, now, u, NETWORK_CONGESTION, NoBuffer, s);
  }

  lemma CollideReturns(cfg: Config, segs: seq<Unitdata>, room: Room, now: nat, u: Unitdata, barrier: Option<byte>, s: Key)
    requires |segs| > 0 && u.segmentation.Some? && KeyOf(u) == Some(s)
    ensures OwnReturn(cfg, Collide(cfg, segs, room, now, u, barrier), now, s)
  {
    hide KeyReject;
    var cause := if barrier.Some? then barrier.value else ERROR_IN_TRANSPORT;
    var reason := if barrier.Some? then Undeliverable(barrier.value) else BusyReference;
    RejectReturns(cfg, room, now, u, cause, reason, s);
    var r := KeyReject(cfg, room, now, u, cause, reason);
    var outs := Collide(cfg, segs, room, now, u, barrier).1;
    assert outs[0].Discarded? && forall i :: 0 < i < |outs| ==> outs[i] == r.1[i - 1];
  }

  lemma ContinueReturns(cfg: Config, segs: seq<Unitdata>, deadline: nat, room: Room, now: nat, u: Unitdata, barrier: Option<byte>, s: Key)
    requires |segs| > 0 && segs[0].segmentation.Some? && u.segmentation.Some? && KeyOf(segs[0]) == Some(s)
    ensures OwnReturn(cfg, Continue(cfg, segs, deadline, room, now, u, barrier), now, s)
  {
    hide KeyFail, Also, Data, AnyReturn, Announced, Bound;
    var roe := AnyReturn(segs) || u.protocolClass.returnOnError;
    if barrier.Some? {
      AlsoReturns(cfg, segs, now, roe, barrier.value, Undeliverable(barrier.value), Discarded(u.routing, u.typ, Undeliverable(barrier.value)), s);
    }
    AlsoReturns(cfg, segs, now, roe, ERROR_IN_TRANSPORT, WrongSegment, Discarded(u.routing, u.typ, OutOfSequence), s);
    AlsoReturns(cfg, segs, now, roe, ERROR_IN_TRANSPORT, ExceedsBound, Discarded(u.routing, u.typ, ExceedsBound), s);
    AlsoReturns(cfg, segs, now, roe, CANNOT_REASSEMBLE, ExceedsMaximum, Discarded(u.routing, u.typ, ExceedsMaximum), s);
    AlsoReturns(cfg, segs, now, roe, NETWORK_CONGESTION, NoBuffer, Discarded(u.routing, u.typ, NoBuffer), s);
  }

  lemma KeyReturns(cfg: Config, e: Option<Entry>, room: Room, now: nat, u: Unitdata, barrier: Option<byte>, s: Key)
    requires u.segmentation.Some? && KeyOf(u) == Some(s) && ValidEntry(e) && (e.Some? ==> GoodEntry(s, e.value))
    ensures var r := KeyReceive(cfg, e, room, now, u, barrier);
            && OwnReturn(cfg, r, now, s)
            && (e.Some? && e.value.Failed? && (exists i :: 0 <= i < |r.1| && r.1[i].Returned?) ==> StartsAfresh(cfg, e.value, u))
  {
    hide Start, Continue, Collide;
    StartReturns(cfg, room, now, u, barrier, s);
    if e.Some? && e.value.Live? {
      CollideReturns(cfg, e.value.segments, room, now, u, barrier, s);
      ContinueReturns(cfg, e.value.segments, e.value.deadline, room, now, u, barrier, s);
    }
  }

  /** While the record of a failed message lasts, it stays as it was made. */
  lemma {:induction false} RecordStays(cfg: Config, evs: seq<Event>, i: nat, j: nat, k: Key)
    requires i < j <= |evs| && Returns(OutsAt(cfg, evs, i), k)
    requires forall m :: i < m < j ==> !RecordEndsAt(cfg, evs, m, k)
    ensures k in TableAt(cfg, evs, j)
    ensures TableAt(cfg, evs, j)[k].Failed? && TableAt(cfg, evs, j)[k].deadline == evs[i].now + cfg.timeout
    decreases j
  {
    if i == j - 1 {
      StepReturns(cfg, TableAt(cfg, evs, i), evs[i], k);
    } else {
      RecordStays(cfg, evs, i, j - 1, k);
      StepReturns(cfg, TableAt(cfg, evs, j - 1), evs[j - 1], k);
      assert !RecordEndsAt(cfg, evs, j - 1, k);
    }
  }

  ghost predicate RecordEndsAt(cfg: Config, evs: seq<Event>, m: nat, k: Key)
    requires m < |evs|
  {
    var t := TableAt(cfg, evs, m);
    k in t && Enabled(t, evs[m]) && Subject(evs[m]) == Some(k) && EndsRecord(cfg, t[k], evs[m])
  }

  /**
   * Only one service message is returned for a failed message: between two returns for the same key its record
   * ended, a full T(reassembly) after the first return or at a first segment that differs from the failed one.
   */
  lemma ReturnedOnce(cfg: Config, evs: seq<Event>, i: nat, j: nat, k: Key) returns (m: nat)
    requires i < j < |evs| && Returns(OutsAt(cfg, evs, i), k) && Returns(OutsAt(cfg, evs, j), k)
    ensures i < m <= j && RecordEndsAt(cfg, evs, m, k)
    ensures forall n :: i < n < m ==> !RecordEndsAt(cfg, evs, n, k)
    ensures evs[m].Fire? ==> evs[m].now >= evs[i].now + cfg.timeout
  {
    hide Good, ValidTable, TableAt, Step, EndsRecord, Returns;
    m := i + 1;
    while m < j && !RecordEndsAt(cfg, evs, m, k)
      invariant i < m <= j && forall n :: i < n < m ==> !RecordEndsAt(cfg, evs, n, k)
    {
      m := m + 1;
    }
    RecordStays(cfg, evs, i, m, k);
    if m == j {
      StepReturns(cfg, TableAt(cfg, evs, j), evs[j], k);
      StepReturnsOnlyWhenEnabled(cfg, TableAt(cfg, evs, j), evs[j], k);
    }
    FireIsLate(cfg, evs, m, k);
  }

  lemma FireIsLate(cfg: Config, evs: seq<Event>, m: nat, k: Key)
    requires m < |evs| && RecordEndsAt(cfg, evs, m, k)
    ensures evs[m].Fire? ==> TableAt(cfg, evs, m)[k].deadline <= evs[m].now
  {
  }

  lemma StepReturnsOnlyWhenEnabled(cfg: Config, t: Table, ev: Event, k: Key)
    requires ValidTable(t) && Returns(Step(cfg, t, ev).1, k)
    ensures Enabled(t, ev)
  {
  }

  /** With no record left, a message that has no process is not returned at all. */
  lemma NoRecordNoReturn(cfg: Config, t: Table, now: nat, u: Unitdata, barrier: Option<byte>, k: Key)
    requires ValidTable(t) && u.segmentation.Some? && KeyOf(u) == Some(k)
    requires Orphans(t) >= cfg.maxReassemblies && k !in t
    ensures forall o :: o in Receive(cfg, t, now, u, barrier).1 ==> !o.Returned?
    ensures Orphans(Receive(cfg, t, now, u, barrier).0) == Orphans(t)
  {
    assert t - {k} == t;
    PutWeighs(t, k, KeyReceive(cfg, None, RoomFor(cfg, t, k, |u.data|), now, u, barrier).0, OrphanWeight);
  }

  // ----- What is delivered was received -----

  /** Positions of the run at which the segments of a message arrived, in order. */
  ghost predicate Arrived(evs: seq<Event>, at: seq<nat>, segs: seq<Unitdata>, end: nat, k: Key) {
    && |at| == |segs|
    && (forall i :: 0 <= i < |at| ==> at[i] < end <= |evs| && evs[at[i]].Segment? && evs[at[i]].u == segs[i])
    && (forall i :: 0 <= i < |at| ==> segs[i].segmentation.Some? && KeyOf(segs[i]) == Some(k))
    && (forall i, j :: 0 <= i < j < |at| ==> at[i] < at[j])
  }

  lemma ArrivedPush(evs: seq<Event>, at: seq<nat>, segs: seq<Unitdata>, end: nat, k: Key, u: Unitdata)
    requires Arrived(evs, at, segs, end, k) && end < |evs| && evs[end].Segment? && evs[end].u == u
    requires u.segmentation.Some? && KeyOf(u) == Some(k)
    ensures Arrived(evs, at + [end], segs + [u], end + 1, k)
  {
  }

  /** The segments a live entry holds arrived, in order, one each. */
  lemma {:induction false} LiveArrived(cfg: Config, evs: seq<Event>, i: nat, k: Key) returns (at: seq<nat>)
    requires i <= |evs| && k in TableAt(cfg, evs, i) && TableAt(cfg, evs, i)[k].Live?
    ensures Arrived(evs, at, TableAt(cfg, evs, i)[k].segments, i, k)
    decreases i
  {
    hide Good, ValidTable, Step, Arrived, KeyOf;
    var t, ev := TableAt(cfg, evs, i - 1), evs[i - 1];
    var segs := TableAt(cfg, evs, i)[k].segments;
    if k in t && t[k].Live? && t[k].segments == segs {
      at := LiveArrived(cfg, evs, i - 1, k);
      ArrivedLater(evs, at, segs, i - 1, i, k);
    } else {
      LiveChanges(cfg, t, ev, k);
      if k in t && t[k].Live? && segs == t[k].segments + [ev.u] {
        at := LiveArrived(cfg, evs, i - 1, k);
        ArrivedPush(evs, at, t[k].segments, i - 1, k, ev.u);
        at := at + [i - 1];
      } else {
        ArrivedOne(evs, i - 1, k);
        at := [i - 1];
      }
    }
  }

  lemma ArrivedOne(evs: seq<Event>, i: nat, k: Key)
    requires i < |evs| && evs[i].Segment? && Subject(evs[i]) == Some(k)
    ensures Arrived(evs, [i], [evs[i].u], i + 1, k)
  {
  }

  lemma ArrivedLater(evs: seq<Event>, at: seq<nat>, segs: seq<Unitdata>, end: nat, later: nat, k: Key)
    requires Arrived(evs, at, segs, end, k) && end <= later <= |evs|
    ensures Arrived(evs, at, segs, later, k)
  {
  }

  /** An entry becomes live by a first segment, and grows by the segment that arrived. */
  lemma LiveChanges(cfg: Config, t: Table, ev: Event, k: Key)
    requires ValidTable(t)
    ensures var t' := Step(cfg, t, ev).0;
            k in t' && t'[k].Live? && !(k in t && t[k] == t'[k]) ==>
              && ev.Segment? && Subject(ev) == Some(k) && ev.u.segmentation.Some? && KeyOf(ev.u) == Some(k)
              && (t'[k].segments == [ev.u] || (k in t && t[k].Live? && t'[k].segments == t[k].segments + [ev.u]))
  {
  }

  /**
   * A delivered message is made of segments that arrived, in sequence, for one key: all the segments its first one
   * announces, each used once, the last one just now. Nothing else ends up in the user data.
   */
  lemma DeliveredArrived(cfg: Config, evs: seq<Event>, j: nat, o: Out) returns (k: Key, at: seq<nat>, segs: seq<Unitdata>)
    requires j < |evs| && o in OutsAt(cfg, evs, j) && o.Delivered?
    ensures Arrived(evs, at, segs, j + 1, k) && InSequence(segs) && |segs| == Announced(segs) && at[|at| - 1] == j
    ensures o.indication == IndicationOf(segs)
  {
    hide Good, Step, Arrived, InSequence, TableAt, IndicationOf;
    var t, ev := TableAt(cfg, evs, j), evs[j];
    k := DeliveringStep(cfg, t, ev, o);
    var before := t[k].segments;
    at := LiveArrived(cfg, evs, j, k);
    ArrivedPush(evs, at, before, j, k, ev.u);
    at, segs := at + [j], before + [ev.u];
    LengthsAgree(evs, at, segs, j + 1, k);
  }

  lemma LengthsAgree(evs: seq<Event>, at: seq<nat>, segs: seq<Unitdata>, end: nat, k: Key)
    requires Arrived(evs, at, segs, end, k)
    ensures |at| == |segs|
  {
  }

  /** Only the last segment of a process in progress delivers, and then every segment is there. */
  lemma DeliveringStep(cfg: Config, t: Table, ev: Event, o: Out) returns (k: Key)
    requires ValidTable(t) && Good(cfg, t) && o in Step(cfg, t, ev).1 && o.Delivered?
    ensures ev.Segment? && ev.u.segmentation.Some? && KeyOf(ev.u) == Some(k) && k in t && t[k].Live?
    ensures var segs := t[k].segments + [ev.u];
            InSequence(segs) && |segs| == Announced(segs) && o.indication == IndicationOf(segs)
  {
    k := Subject(ev).value;
    assert k in t ==> GoodEntry(k, t[k]);
    DeliveringKey(cfg, Get(t, k), RoomFor(cfg, t, k, |ev.u.data|), ev.now, ev.u, ev.barrier, o, k);
  }

  lemma DeliveringKey(cfg: Config, e: Option<Entry>, room: Room, now: nat, u: Unitdata, barrier: Option<byte>, o: Out, k: Key)
    requires IsSegment(u) && ValidEntry(e) && (e.Some? ==> GoodEntry(k, e.value))
    requires o in KeyReceive(cfg, e, room, now, u, barrier).1 && o.Delivered?
    ensures e.Some? && e.value.Live?
    ensures var segs := e.value.segments + [u];
            InSequence(segs) && |segs| == Announced(segs) && o.indication == IndicationOf(segs)
  {
    hide Data, AnyReturn, IndicationOf, InSequence;
    var segs := e.value.segments;
    PushInSequence(segs, u);
  }

  // ----- Expiry -----

  /** The table after every timer that is due has fired. */
  ghost function Expired(cfg: Config, t: Table, now: nat): Table {
    map k | k in t && !(t[k].Failed? && t[k].deadline <= now) ::
      if t[k].deadline <= now then Failed(false, Some(FirstHash(cfg, t[k])), now + cfg.timeout) else t[k]
  }

  function FirstHash(cfg: Config, e: Entry): nat {
    if ValidEntry(Some(e)) && e.Live? then HashOf(cfg, e.segments[0]) else 0
  }

  /** Timers fire one at a time, an earliest one first, until none is due. */
  ghost predicate Fires(cfg: Config, t: Table, now: nat, ks: seq<Key>, t': Table)
    requires ValidTable(t)
    decreases |ks|
  {
    if |ks| == 0 then t' == t && forall k :: k in t ==> t[k].deadline > now
    else
      && ks[0] in t && t[ks[0]].deadline <= now
      && (forall k :: k in t ==> t[ks[0]].deadline <= t[k].deadline)
      && (TimeoutValid(cfg, t, now, ks[0]); Fires(cfg, Timeout(cfg, t, now, ks[0]).0, now, ks[1..], t'))
  }

  lemma TimeoutValid(cfg: Config, t: Table, now: nat, k: Key)
    requires ValidTable(t) && k in t
    ensures ValidTable(Timeout(cfg, t, now, k).0)
  {
  }

  /** As Fires, with timers still due perhaps. */
  ghost predicate FiresTo(cfg: Config, t: Table, now: nat, ks: seq<Key>, t': Table)
    requires ValidTable(t)
    decreases |ks|
  {
    if |ks| == 0 then t' == t
    else
      && ks[0] in t && t[ks[0]].deadline <= now
      && (forall k :: k in t ==> t[ks[0]].deadline <= t[k].deadline)
      && (TimeoutValid(cfg, t, now, ks[0]); FiresTo(cfg, Timeout(cfg, t, now, ks[0]).0, now, ks[1..], t'))
  }

  /** What the timers put out, in the order in which they fire. */
  ghost function FiredOuts(cfg: Config, t: Table, now: nat, ks: seq<Key>): seq<Out>
    requires ValidTable(t)
    decreases |ks|
  {
    if |ks| == 0 || ks[0] !in t then [] else
    TimeoutValid(cfg, t, now, ks[0]);
    Timeout(cfg, t, now, ks[0]).1 + FiredOuts(cfg, Timeout(cfg, t, now, ks[0]).0, now, ks[1..])
  }

  lemma {:induction false} FiresOn(cfg: Config, t: Table, now: nat, ks: seq<Key>, u: Table, k: Key)
    requires ValidTable(t) && ValidTable(u) && FiresTo(cfg, t, now, ks, u)
    requires k in u && u[k].deadline <= now && forall j :: j in u ==> u[k].deadline <= u[j].deadline
    ensures FiresTo(cfg, t, now, ks + [k], Timeout(cfg, u, now, k).0)
    ensures FiredOuts(cfg, t, now, ks + [k]) == FiredOuts(cfg, t, now, ks) + Timeout(cfg, u, now, k).1
    decreases |ks|
  {
    hide Timeout, ValidTable;
    if |ks| == 0 {
      assert ks + [k] == [k];
      assert [k][1..] == [];
      TimeoutValid(cfg, t, now, k);
      assert Timeout(cfg, t, now, k).1 + [] == Timeout(cfg, t, now, k).1;
      assert [] + Timeout(cfg, t, now, k).1 == Timeout(cfg, t, now, k).1;
    } else {
      TimeoutValid(cfg, t, now, ks[0]);
      var t1 := Timeout(cfg, t, now, ks[0]).0;
      FiresOn(cfg, t1, now, ks[1..], u, k);
      assert (ks + [k])[1..] == ks[1..] + [k] && (ks + [k])[0] == ks[0];
    }
  }

  lemma {:induction false} FiresAll(cfg: Config, t: Table, now: nat, ks: seq<Key>, t': Table)
    requires ValidTable(t) && FiresTo(cfg, t, now, ks, t') && forall k :: k in t' ==> t'[k].deadline > now
    ensures Fires(cfg, t, now, ks, t')
    decreases |ks|
  {
    if |ks| > 0 {
      TimeoutValid(cfg, t, now, ks[0]);
      FiresAll(cfg, Timeout(cfg, t, now, ks[0]).0, now, ks[1..], t');
    }
  }

  /** Whatever order ties are broken in, expiry leaves the same table. */
  lemma {:induction false} ExpiryConfluent(cfg: Config, t: Table, now: nat, ks: seq<Key>, t': Table)
    requires ValidTable(t) && cfg.timeout > 0 && Fires(cfg, t, now, ks, t')
    ensures t' == Expired(cfg, t, now)
    decreases |ks|
  {
    if |ks| == 0 {
      assert Expired(cfg, t, now) == t;
    } else {
      hide Expired;
      TimeoutValid(cfg, t, now, ks[0]);
      ExpiryConfluent(cfg, Timeout(cfg, t, now, ks[0]).0, now, ks[1..], t');
      ExpiredStep(cfg, t, now, ks[0]);
    }
  }

  /** Every due timer fires exactly once, in the order of the deadlines, and no other timer fires. */
  lemma {:induction false} ExpiryExact(cfg: Config, t: Table, now: nat, ks: seq<Key>, t': Table)
    requires ValidTable(t) && cfg.timeout > 0 && Fires(cfg, t, now, ks, t')
    ensures forall k :: k in ks <==> k in t && t[k].deadline <= now
    ensures forall i, j :: 0 <= i < j < |ks| ==> ks[i] != ks[j] && t[ks[i]].deadline <= t[ks[j]].deadline
    decreases |ks|
  {
    if |ks| > 0 {
      var k0, rest := ks[0], ks[1..];
      var u := Timeout(cfg, t, now, k0).0;
      TimeoutValid(cfg, t, now, k0);
      TimeoutEffect(cfg, t, now, k0);
      ExpiryExact(cfg, u, now, rest, t');
      hide Timeout, Fires;
      assert forall k :: k in ks <==> k == k0 || k in rest;
      forall i, j | 0 <= i < j < |ks|
        ensures ks[i] != ks[j] && t[ks[i]].deadline <= t[ks[j]].deadline
      {
        assert ks[j] == rest[j - 1] && rest[j - 1] in rest;
        if i > 0 {
          assert ks[i] == rest[i - 1] && rest[i - 1] in rest;
        }
      }
    }
  }

  lemma TimeoutEffect(cfg: Config, t: Table, now: nat, k: Key)
    requires ValidTable(t) && k in t && cfg.timeout > 0
    ensures var u := Timeout(cfg, t, now, k).0;
            && (forall j :: j != k ==> (j in u <==> j in t) && (j in t ==> u[j] == t[j]))
            && (k in u ==> u[k].deadline > now)
  {
  }

  lemma ExpiredStep(cfg: Config, t: Table, now: nat, k: Key)
    requires ValidTable(t) && cfg.timeout > 0 && k in t && t[k].deadline <= now
    ensures Expired(cfg, Timeout(cfg, t, now, k).0, now) == Expired(cfg, t, now)
  {
    var u := Timeout(cfg, t, now, k).0;
    var x, y := Expired(cfg, u, now), Expired(cfg, t, now);
    assert ValidEntry(Some(t[k]));
    forall j ensures (j in x <==> j in y) && (j in x ==> x[j] == y[j]) {
      if j != k {
        assert (j in u <==> j in t) && (j in t ==> u[j] == t[j]);
      }
    }
  }

  /** Without further input two expiries drain everything: every process, every record, every octet. */
  lemma TwoExpiriesDrain(cfg: Config, t: Table, now: nat, later: nat)
    requires cfg.timeout > 0 && later >= now + cfg.timeout
    requires forall k :: k in t ==> t[k].deadline <= now
    ensures var u := Expired(cfg, Expired(cfg, t, now), later);
            u == map[] && Slots(u) == Orphans(u) == Octets(u) == 0
  {
    assert Expired(cfg, Expired(cfg, t, now), later) == map[];
  }

  /** And after the first of them no user data is held. */
  lemma ExpiryFreesOctets(cfg: Config, t: Table, now: nat)
    requires forall k :: k in t ==> t[k].deadline <= now
    ensures Octets(Expired(cfg, t, now)) == 0
  {
    NoLiveNoOctets(Expired(cfg, t, now));
  }

  lemma {:induction false} NoLiveNoOctets(t: Table)
    requires forall k :: k in t ==> t[k].Failed?
    ensures Octets(t) == 0
    decreases |t|
  {
    if t != map[] {
      var k :| k in t;
      WeighRemove(t, k, OctetWeight);
      assert (t - {k}).Keys == t.Keys - {k};
      NoLiveNoOctets(t - {k});
    }
  }
}
