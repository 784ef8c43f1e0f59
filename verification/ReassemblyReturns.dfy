/** When a message that fails is returned: which of its segments, and with which cause. */
module ReassemblyReturns {
  import opened Basics
  import opened Fields
  import opened Address
  import opened Messages
  import opened Reassembly
  import opened ReassemblyRuns

  /** Some segment asked for return on error. */
  ghost predicate Asked(segs: seq<Unitdata>) {
    exists i :: 0 <= i < |segs| && segs[i].protocolClass.returnOnError
  }

  lemma {:induction false} AskedExact(segs: seq<Unitdata>)
    ensures AnyReturn(segs) <==> Asked(segs)
  {
    if |segs| > 0 {
      var front := segs[..|segs| - 1];
      AskedExact(front);
      if Asked(front) {
        var i :| 0 <= i < |front| && front[i].protocolClass.returnOnError;
        assert segs[i].protocolClass.returnOnError;
      }
      if Asked(segs) && !segs[|segs| - 1].protocolClass.returnOnError {
        var i :| 0 <= i < |segs| && segs[i].protocolClass.returnOnError;
        assert front[i].protocolClass.returnOnError;
      }
    }
  }

  /** The outputs return the segment with the cause, once and nothing else, if asked for; nothing otherwise. */
  predicate ReturnsIf(outs: seq<Out>, asked: bool, u: Unitdata, cause: byte) {
    && (forall i :: 0 <= i < |outs| && outs[i].Returned? ==> asked && outs[i] == Returned(u, cause))
    && (asked ==> exists i :: 0 <= i < |outs| && outs[i].Returned?)
    && AtMostOneReturn(outs)
  }

  predicate ReturnsNothing(outs: seq<Out>) {
    forall o :: o in outs ==> !o.Returned?
  }

  // ----- One segment, or one timeout, for the entry of its key -----

  /** A process that has segs takes segment u next: everything is in order and there is room. */
  predicate Takes(segs: seq<Unitdata>, u: Unitdata, room: bool, barrier: Option<byte>)
    requires |segs| > 0 && segs[0].segmentation.Some? && u.segmentation.Some?
  {
    && barrier == None
    && u.segmentation.value.remaining as int == segs[0].segmentation.value.remaining as int - |segs|
    && |Data(segs)| + |u.data| <= |segs[0].data| * (segs[0].segmentation.value.remaining as int + 1)
    && |Data(segs)| + |u.data| <= 3952 && room
  }

  /** Why a process that does not take segment u fails: the first of these conditions that does not hold. */
  function FailureCause(segs: seq<Unitdata>, u: Unitdata, barrier: Option<byte>): byte
    requires |segs| > 0 && segs[0].segmentation.Some? && u.segmentation.Some?
  {
    if barrier.Some? then barrier.value
    else if u.segmentation.value.remaining as int != segs[0].segmentation.value.remaining as int - |segs| then 8
    else if |Data(segs)| + |u.data| > |segs[0].data| * (segs[0].segmentation.value.remaining as int + 1) then 8
    else if |Data(segs)| + |u.data| > 3952 then 10
    else 6
  }

  /** The record that a process leaves. */
  function RecordOf(cfg: Config, segs: seq<Unitdata>, now: nat): Entry
    requires |segs| > 0 && segs[0].segmentation.Some?
  {
    Failed(false, Some(cfg.hash(segs[0].data, segs[0].segmentation.value.remaining)), now + cfg.timeout)
  }

  /** A process whose next segment comes. */
  lemma ProcessReturns(cfg: Config, segs: seq<Unitdata>, deadline: nat, room: Room, now: nat, u: Unitdata, barrier: Option<byte>)
    requires |segs| > 0 && segs[0].segmentation.Some? && u.segmentation.Some? && !u.segmentation.value.first
    ensures var (e, outs) := KeyReceive(cfg, Some(Live(segs, deadline)), room, now, u, barrier);
            if Takes(segs, u, room.octets, barrier) then
              && ReturnsNothing(outs)
              && (u.segmentation.value.remaining > 0 ==> e == Some(Live(segs + [u], deadline)) && outs == [])
              && (u.segmentation.value.remaining == 0 ==> e == None)
            else
              && e == Some(RecordOf(cfg, segs, now))
              && ReturnsIf(outs, Asked(segs) || u.protocolClass.returnOnError, segs[0], FailureCause(segs, u, barrier))
  {
    AskedExact(segs);
    hide Data, AnyReturn, Asked;
    var (reason, why) :=
      if barrier.Some? then (Undeliverable(barrier.value), Undeliverable(barrier.value))
      else match FailureCause(segs, u, barrier)
           case 10 => (ExceedsMaximum, ExceedsMaximum)
           case 6 => (NoBuffer, NoBuffer)
           case _ => if Seg(u).remaining as int != Announced(segs) - 1 - |segs| then (WrongSegment, OutOfSequence) else (ExceedsBound, ExceedsBound);
    FailReturns(cfg, segs, now, AnyReturn(segs) || u.protocolClass.returnOnError, FailureCause(segs, u, barrier), reason,
                [Discarded(u.routing, u.typ, why)]);
  }

  /** What a process that fails puts out returns its first segment if asked for. */
  lemma FailReturns(cfg: Config, segs: seq<Unitdata>, now: nat, roe: bool, cause: byte, reason: Reason, more: seq<Out>)
    requires |segs| > 0 && segs[0].segmentation.Some? && ReturnsNothing(more)
    ensures var r := KeyFail(cfg, segs, now, roe, cause, reason);
            && r.0 == Some(RecordOf(cfg, segs, now)) && ReturnsIf(r.1 + more, roe, segs[0], cause)
  {
    RejectReturned(segs[0], roe, cause, reason, more);
  }

  lemma RejectReturned(u: Unitdata, roe: bool, cause: byte, reason: Reason, more: seq<Out>)
    requires ReturnsNothing(more)
    ensures ReturnsIf(Reject(u, roe, cause, reason) + more, roe, u, cause)
  {
    var outs := Reject(u, roe, cause, reason) + more;
    forall i | |Reject(u, roe, cause, reason)| <= i < |outs|
      ensures !outs[i].Returned?
    {
      assert outs[i] in more;
    }
    if roe {
      assert outs[1] == Returned(u, cause);
    }
  }

  /** The record of a message that has no process. */
  function OrphanOf(cfg: Config, u: Unitdata, now: nat): Entry
    requires u.segmentation.Some?
  {
    Failed(true, if u.segmentation.value.first then Some(cfg.hash(u.data, u.segmentation.value.remaining)) else None, now + cfg.timeout)
  }

  /** Segment u is refused: recorded, and returned if it asks for it, or only discarded when no record is left. */
  predicate RefusedWith(cfg: Config, u: Unitdata, now: nat, record: bool, cause: byte, r: (Option<Entry>, seq<Out>))
    requires u.segmentation.Some?
  {
    if record then r.0 == Some(OrphanOf(cfg, u, now)) && ReturnsIf(r.1, u.protocolClass.returnOnError, u, cause)
    else r.0 == None && ReturnsNothing(r.1)
  }

  lemma RefusalReturns(cfg: Config, room: Room, now: nat, u: Unitdata, cause: byte, reason: Reason)
    requires u.segmentation.Some?
    ensures RefusedWith(cfg, u, now, room.record, cause, KeyReject(cfg, room, now, u, cause, reason))
  {
    RejectReturned(u, u.protocolClass.returnOnError, cause, reason, []);
    assert Reject(u, u.protocolClass.returnOnError, cause, reason) + [] == Reject(u, u.protocolClass.returnOnError, cause, reason);
  }

  /** A segment for a key with no process: a first segment with room starts one, any other is refused. */
  lemma StartReturns(cfg: Config, room: Room, now: nat, u: Unitdata, barrier: Option<byte>)
    requires u.segmentation.Some?
    ensures var r := Start(cfg, room, now, u, barrier);
            if barrier == None && u.segmentation.value.first && room.slot && room.octets then r == (Some(Live([u], now + cfg.timeout)), [])
            else
              var cause := if barrier.Some? then barrier.value else if !u.segmentation.value.first then 8 else 6;
              RefusedWith(cfg, u, now, room.record, cause, r)
  {
    hide RefusedWith;
    if barrier.Some? {
      RefusalReturns(cfg, room, now, u, barrier.value, Undeliverable(barrier.value));
    } else if !u.segmentation.value.first {
      RefusalReturns(cfg, room, now, u, 8, NoProcess);
    } else {
      RefusalReturns(cfg, room, now, u, 6, NoBuffer);
    }
  }

  /** A first segment while a process runs: the process ends unreturned, and the segment is refused. */
  lemma CollisionReturns(cfg: Config, segs: seq<Unitdata>, room: Room, now: nat, u: Unitdata, barrier: Option<byte>)
    requires |segs| > 0 && u.segmentation.Some?
    ensures RefusedWith(cfg, u, now, room.record, if barrier.Some? then barrier.value else 8, Collide(cfg, segs, room, now, u, barrier))
  {
    var reason := if barrier.Some? then Undeliverable(barrier.value) else BusyReference;
    var cause: byte := if barrier.Some? then barrier.value else 8;
    RefusalReturns(cfg, room, now, u, cause, reason);
    var r := KeyReject(cfg, room, now, u, cause, reason);
    var first: Out := Discarded(segs[0].routing, segs[0].typ, NewFirstSegment);
    assert Collide(cfg, segs, room, now, u, barrier) == (r.0, [first] + r.1);
    if room.record && u.protocolClass.returnOnError {
      var i :| 0 <= i < |r.1| && r.1[i].Returned?;
      assert ([first] + r.1)[i + 1].Returned?;
    }
  }

  // ----- The whole table -----

  /** Segment u goes on with the process of its entry: there is one, and u is not a first segment. */
  predicate GoesOn(e: Option<Entry>, u: Unitdata)
    requires u.segmentation.Some?
  {
    e.Some? && e.value.Live? && !u.segmentation.value.first
  }

  /** Segment u belongs to the failed message that the entry records. */
  predicate OfFailed(cfg: Config, e: Option<Entry>, u: Unitdata)
    requires u.segmentation.Some?
  {
    && e.Some? && e.value.Failed?
    && !(u.segmentation.value.first && e.value.firstHash.Some?
         && e.value.firstHash.value != cfg.hash(u.data, u.segmentation.value.remaining))
  }

  /** What comes of the message of key k at this event, given its entry before. */
  ghost predicate Outcome(cfg: Config, t: Table, ev: Event, k: Key, e': Option<Entry>, outs: seq<Out>)
    requires ValidTable(t) && Enabled(t, ev)
  {
    match ev
    case Fire(now, key) =>
      if t[key].Live? then
        e' == Some(RecordOf(cfg, t[key].segments, now)) && ReturnsIf(outs, Asked(t[key].segments), t[key].segments[0], 8)
      else e' == None && ReturnsNothing(outs)
    case Segment(now, u, barrier) =>
      var e := Get(t, k);
      var octets := Octets(t) + |u.data| <= cfg.maxOctets && (cfg.perPeer == 0 || PeerOctets(t, PeerOf(k)) + |u.data| <= cfg.perPeer);
      var record := Orphans(t - {k}) < cfg.maxReassemblies;
      if OfFailed(cfg, e, u) then e' == e && ReturnsNothing(outs)
      else if GoesOn(e, u) then
        var segs := e.value.segments;
        if Takes(segs, u, octets, barrier) then
          ReturnsNothing(outs) && e' == if u.segmentation.value.remaining > 0 then Some(Live(segs + [u], e.value.deadline)) else None
        else e' == Some(RecordOf(cfg, segs, now))
             && ReturnsIf(outs, Asked(segs) || u.protocolClass.returnOnError, segs[0], FailureCause(segs, u, barrier))
      else if e.Some? && e.value.Live? then RefusedWith(cfg, u, now, record, if barrier.Some? then barrier.value else 8, (e', outs))
      else if barrier == None && u.segmentation.value.first && Slots(t - {k}) < cfg.maxReassemblies && octets then
        e' == Some(Live([u], now + cfg.timeout)) && outs == []
      else
        var cause := if barrier.Some? then barrier.value else if !u.segmentation.value.first then 8 else 6;
        RefusedWith(cfg, u, now, record, cause, (e', outs))
  }

  /** Every segment and every timeout has the outcome that is due, and changes the entry of no other key. */
  lemma OutcomeIs(cfg: Config, t: Table, ev: Event, k: Key)
    requires ValidTable(t) && Enabled(t, ev) && Subject(ev) == Some(k)
    ensures var (t', outs) := Step(cfg, t, ev);
            && Outcome(cfg, t, ev, k, Get(t', k), outs)
            && forall j :: j != k ==> Get(t', j) == Get(t, j)
  {
    hide Slots, Orphans, Octets, PeerOctets, RefusedWith, ReturnsIf, Asked, FailureCause, Takes, Data;
    match ev {
      case Fire(now, key) =>
        if t[k].Live? {
          AskedExact(t[k].segments);
          assert ReturnsNothing([]);
          FailReturns(cfg, t[k].segments, now, AnyReturn(t[k].segments), 8, Expired, []);
          var outs := KeyFail(cfg, t[k].segments, now, AnyReturn(t[k].segments), 8, Expired).1;
          assert outs + [] == outs;
        }
      case Segment(now, u, barrier) =>
        var e, room := Get(t, k), RoomFor(cfg, t, k, |u.data|);
        if GoesOn(e, u) {
          ProcessReturns(cfg, e.value.segments, e.value.deadline, room, now, u, barrier);
        } else if e.Some? && e.value.Live? {
          CollisionReturns(cfg, e.value.segments, room, now, u, barrier);
        } else {
          StartReturns(cfg, room, now, u, barrier);
        }
    }
  }

  /** The message of key k fails at an event that takes the table from t to t'. */
  predicate Fails(t: Table, t': Table, k: Key) {
    k in t' && t'[k].Failed? && !(k in t && t[k] == t'[k])
  }

  /**
   * A failed message is returned when it asked for it, and only then: in every run, when the message of a key fails at
   * an event, then the outputs return it if and only if one of its segments asked, the one just received included.
   * What is returned is the first segment of a process, and the segment received when there is none or it begins
   * another message. When no message fails, nothing is returned.
   */
  lemma FailedIsReturned(cfg: Config, evs: seq<Event>, i: nat, k: Key)
    requires i < |evs| && Enabled(TableAt(cfg, evs, i), evs[i]) && Subject(evs[i]) == Some(k)
    ensures var t, ev, outs := TableAt(cfg, evs, i), evs[i], OutsAt(cfg, evs, i);
            if !Fails(t, TableAt(cfg, evs, i + 1), k) then ReturnsNothing(outs)
            else if k in t && t[k].Live? && !(ev.Segment? && ev.u.segmentation.value.first) then
              ReturnsIf(outs, Asked(t[k].segments) || (ev.Segment? && ev.u.protocolClass.returnOnError), t[k].segments[0],
                        if ev.Fire? then 8 else FailureCause(t[k].segments, ev.u, ev.barrier))
            else
              ev.Segment? && ReturnsIf(outs, ev.u.protocolClass.returnOnError, ev.u,
                                       if ev.barrier.Some? then ev.barrier.value
                                       else if !ev.u.segmentation.value.first || (k in t && t[k].Live?) then 8 else 6)
  {
    hide TableAt, Step, Good, ReturnsIf, Asked, Data, Slots, Orphans, Octets, PeerOctets, FailureCause;
    OutcomeIs(cfg, TableAt(cfg, evs, i), evs[i], k);
    NextTable(cfg, evs, i);
  }

  lemma NextTable(cfg: Config, evs: seq<Event>, i: nat)
    requires i < |evs|
    ensures TableAt(cfg, evs, i + 1) == Step(cfg, TableAt(cfg, evs, i), evs[i]).0
    ensures OutsAt(cfg, evs, i) == Step(cfg, TableAt(cfg, evs, i), evs[i]).1
  {
    hide Step;
  }

  // ----- Keys -----

  /** Two segments belong to the same message exactly when label, calling address and reference agree. */
  lemma KeyExact(u: Unitdata, v: Unitdata)
    requires u.segmentation.Some? && v.segmentation.Some? && KeyOf(u).Some? && KeyOf(v).Some?
    ensures KeyOf(u) == KeyOf(v) <==>
            u.routing == v.routing && u.calling == v.calling && u.segmentation.value.reference == v.segmentation.value.reference
  {
    hide ValidAddress;
    if EncodeAddress(u.calling) == EncodeAddress(v.calling) {
      EncodingInjective(u.calling, v.calling);
    }
  }
}
