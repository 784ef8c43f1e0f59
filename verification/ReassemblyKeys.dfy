/**
 * Two consequences of how reassembly treats keys: messages of different keys do not disturb each other as long as
 * the shared bounds leave room, and a message fed in order is delivered whole.
 */
module ReassemblyKeys {
  import opened Basics
  import opened Fields
  import opened Messages
  import opened Reassembly
  import opened ReassemblyRuns

  const AMPLE := Room(true, true, true)

  /** The shared bounds do not bind at this event. */
  ghost predicate Unbound(cfg: Config, t: Table, ev: Event) {
    ev.Segment? && ev.u.segmentation.Some? && KeyOf(ev.u).Some? ==>
      RoomFor(cfg, t, KeyOf(ev.u).value, |ev.u.data|) == AMPLE
  }

  // ----- One key on its own -----

  /** An entry and an event of its key, with no other key in sight. */
  function AloneStep(cfg: Config, e: Option<Entry>, ev: Event): (Option<Entry>, seq<Out>)
    requires ValidEntry(e)
  {
    match ev
    case Segment(now, u, barrier) =>
      if IsSegment(u) then KeyReceive(cfg, e, AMPLE, now, u, barrier) else (e, [])
    case Fire(now, _) =>
      if e.Some? && e.value.deadline <= now then KeyTimeout(cfg, e.value, now) else (e, [])
  }

  lemma AloneValid(cfg: Config, e: Option<Entry>, ev: Event)
    requires ValidEntry(e)
    ensures ValidEntry(AloneStep(cfg, e, ev).0)
  {
  }

  /** A run of one key: the entry it ends with and everything it put out. */
  function Alone(cfg: Config, evs: seq<Event>): (r: (Option<Entry>, seq<Out>))
    ensures ValidEntry(r.0)
  {
    if |evs| == 0 then (None, []) else
    var before := Alone(cfg, evs[..|evs| - 1]);
    var r := AloneStep(cfg, before.0, evs[|evs| - 1]);
    AloneValid(cfg, before.0, evs[|evs| - 1]);
    (r.0, before.1 + r.1)
  }

  /** The events about key k, in order. */
  function Only(evs: seq<Event>, k: Key): seq<Event> {
    if |evs| == 0 then [] else
    var rest := Only(evs[..|evs| - 1], k);
    if Subject(evs[|evs| - 1]) == Some(k) then rest + [evs[|evs| - 1]] else rest
  }

  /** What the first i events of the shared run put out for key k. */
  ghost function OutsFor(cfg: Config, evs: seq<Event>, i: nat, k: Key): seq<Out>
    requires i <= |evs|
  {
    if i == 0 then []
    else OutsFor(cfg, evs, i - 1, k) + (if Subject(evs[i - 1]) == Some(k) then OutsAt(cfg, evs, i - 1) else [])
  }

  /** One step of the shared table is one step of the key it is about, and leaves every other key alone. */
  lemma StepIsAlone(cfg: Config, t: Table, ev: Event, k: Key)
    requires ValidTable(t) && Unbound(cfg, t, ev)
    ensures var (t', outs) := Step(cfg, t, ev);
            if Subject(ev) == Some(k) then
              ValidEntry(Get(t, k)) && (Get(t', k), outs) == AloneStep(cfg, Get(t, k), ev)
            else Get(t', k) == Get(t, k)
  {
    hide KeyReceive, KeyTimeout, RoomFor;
    if Subject(ev) == Some(k) {
      assert ValidEntry(Get(t, k));
      if Enabled(t, ev) {
        var r := if ev.Segment? then KeyReceive(cfg, Get(t, k), AMPLE, ev.now, ev.u, ev.barrier).0
                 else KeyTimeout(cfg, t[k], ev.now).0;
        PutGet(t, k, r, k);
      }
    } else if Enabled(t, ev) && Subject(ev).Some? {
      var s := Subject(ev).value;
      var r := if ev.Segment? then KeyReceive(cfg, Get(t, s), AMPLE, ev.now, ev.u, ev.barrier).0
               else KeyTimeout(cfg, t[s], ev.now).0;
      PutGet(t, s, r, k);
    }
  }

  lemma PutGet(t: Table, s: Key, e: Option<Entry>, k: Key)
    ensures Get(Put(t, s, e), k) == if k == s then e else Get(t, k)
  {
  }

  /** What a key's own run and the shared run agree on. */
  ghost predicate Agree(alone: (Option<Entry>, seq<Out>), t: Table, outs: seq<Out>, k: Key) {
    alone == (Get(t, k), outs)
  }

  lemma AgreeStep(cfg: Config, t: Table, ev: Event, k: Key, alone: (Option<Entry>, seq<Out>), outs: seq<Out>)
    requires ValidTable(t) && Unbound(cfg, t, ev) && Agree(alone, t, outs, k) && ValidEntry(alone.0)
    ensures var (t', more) := Step(cfg, t, ev);
            if Subject(ev) == Some(k) then
              Agree((AloneStep(cfg, alone.0, ev).0, alone.1 + AloneStep(cfg, alone.0, ev).1), t', outs + more, k)
            else Agree(alone, t', outs + [], k)
  {
    hide Step, AloneStep, Unbound, Get, Subject, ValidEntry;
    StepIsAlone(cfg, t, ev, k);
    assert outs + [] == outs;
  }

  /**
   * Independence of keys. In any interleaving of any number of messages in which the shared bounds never bind,
   * each key ends with the entry, and has put out exactly what, its own events give when they are run alone.
   */
  lemma {:induction false} KeysIndependent(cfg: Config, evs: seq<Event>, i: nat, k: Key)
    requires i <= |evs| && forall j :: 0 <= j < i ==> Unbound(cfg, TableAt(cfg, evs, j), evs[j])
    ensures Agree(Alone(cfg, Only(evs[..i], k)), TableAt(cfg, evs, i), OutsFor(cfg, evs, i, k), k)
  {
    hide Step, AloneStep, Unbound, Get, Good, TableAt, Subject, Alone, Only, OutsFor, ValidTable, ValidEntry, Agree;
    if i == 0 {
      NothingYet(cfg, evs, k);
    } else {
      var t, ev, outs := TableAt(cfg, evs, i - 1), evs[i - 1], OutsFor(cfg, evs, i - 1, k);
      KeysIndependent(cfg, evs, i - 1, k);
      TableStep(cfg, evs, i - 1, k);
      OnlyStep(cfg, evs, i - 1, k);
      AgreeStep(cfg, t, ev, k, Alone(cfg, Only(evs[..i - 1], k)), outs);
    }
  }

  lemma NothingYet(cfg: Config, evs: seq<Event>, k: Key)
    ensures Agree(Alone(cfg, Only(evs[..0], k)), TableAt(cfg, evs, 0), OutsFor(cfg, evs, 0, k), k)
  {
    assert evs[..0] == [];
  }

  lemma TableStep(cfg: Config, evs: seq<Event>, i: nat, k: Key)
    requires i < |evs|
    ensures TableAt(cfg, evs, i + 1) == Step(cfg, TableAt(cfg, evs, i), evs[i]).0
    ensures OutsFor(cfg, evs, i + 1, k)
            == OutsFor(cfg, evs, i, k) + (if Subject(evs[i]) == Some(k) then Step(cfg, TableAt(cfg, evs, i), evs[i]).1 else [])
  {
    hide Step, Subject;
  }

  lemma OnlyStep(cfg: Config, evs: seq<Event>, i: nat, k: Key)
    requires i < |evs|
    ensures var before := Alone(cfg, Only(evs[..i], k));
            Alone(cfg, Only(evs[..i + 1], k))
            == if Subject(evs[i]) == Some(k) then
                 (AloneStep(cfg, before.0, evs[i]).0, before.1 + AloneStep(cfg, before.0, evs[i]).1)
               else before
  {
    hide AloneStep, Subject;
    assert evs[..i + 1][..i] == evs[..i];
    var before := Only(evs[..i], k);
    if Subject(evs[i]) == Some(k) {
      assert (before + [evs[i]])[..|before|] == before;
    }
  }

  // ----- A message fed in order -----

  /** All the segments of one message, of key k. */
  ghost predicate WholeMessage(segs: seq<Unitdata>, k: Key) {
    InSequence(segs) && |segs| == Announced(segs) && forall i :: 0 <= i < |segs| ==> KeyOf(segs[i]) == Some(k)
  }

  /** Room for a whole message of an idle key. */
  ghost predicate HasRoomFor(cfg: Config, t: Table, k: Key, n: nat) {
    && k !in t && Slots(t) < cfg.maxReassemblies && Octets(t) + n <= cfg.maxOctets
    && (cfg.perPeer == 0 || PeerOctets(t, PeerOf(k)) + n <= cfg.perPeer)
  }

  lemma {:induction false} DataPrefix(segs: seq<Unitdata>, i: nat)
    requires i <= |segs|
    ensures |Data(segs[..i])| <= |Data(segs)|
    decreases |segs|
  {
    if i < |segs| {
      DataPrefix(segs[..|segs| - 1], i);
      assert segs[..|segs| - 1][..i] == segs[..i];
    } else {
      assert segs[..i] == segs;
    }
  }

  /** The table while the first i segments of the message are held. */
  function Holding(t: Table, k: Key, segs: seq<Unitdata>, i: nat, deadline: nat): Table
    requires i <= |segs|
  {
    if i == 0 || i == |segs| then t else t[k := Live(segs[..i], deadline)]
  }

  lemma HoldingWeighs(t: Table, k: Key, segs: seq<Unitdata>, i: nat, deadline: nat)
    requires i < |segs| && k !in t
    ensures var h := Holding(t, k, segs, i, deadline);
            && h - {k} == t && Octets(h) == Octets(t) + |Data(segs[..i])|
            && PeerOctets(h, PeerOf(k)) == PeerOctets(t, PeerOf(k)) + |Data(segs[..i])|
  {
    assert t - {k} == t;
    if i == 0 {
      assert segs[..0] == [];
    } else {
      hide Data;
      var e := Live(segs[..i], deadline);
      assert t[k := e] - {k} == t;
      WeighUpdate(t, k, e, OctetWeight);
      WeighUpdate(t, k, e, PeerWeight(PeerOf(k)));
    }
  }

  lemma NextFits(segs: seq<Unitdata>, i: nat)
    requires i < |segs|
    ensures |Data(segs[..i])| + |segs[i].data| <= |Data(segs)|
  {
    hide Data;
    DataPrefix(segs, i + 1);
    assert segs[..i + 1] == segs[..i] + [segs[i]];
    DataPush(segs[..i], segs[i]);
  }

  /** What holding part of the message leaves of the bounds. */
  lemma HoldingRoom(cfg: Config, t: Table, k: Key, segs: seq<Unitdata>, i: nat, deadline: nat)
    requires i < |segs| && HasRoomFor(cfg, t, k, |Data(segs)|)
    ensures var room := RoomFor(cfg, Holding(t, k, segs, i, deadline), k, |segs[i].data|); room.slot && room.octets
  {
    hide Holding, Data, Slots, Octets, PeerOctets;
    HoldingWeighs(t, k, segs, i, deadline);
    NextFits(segs, i);
  }

  lemma {:induction false} PrefixLengths(segs: seq<Unitdata>, n: nat, m: nat)
    requires InSequence(segs) && 0 < n <= m <= |segs|
    ensures segs[..n][0] == segs[0] && |Data(segs[..n])| <= |Data(segs[..m])| <= Bound(segs)
  {
    DataPrefix(segs, m);
    DataPrefix(segs[..m], n);
    assert segs[..m][..n] == segs[..n];
  }

  lemma FeedFirst(cfg: Config, segs: seq<Unitdata>, room: Room, now: nat, k: Key)
    requires WholeMessage(segs, k) && room.slot && room.octets
    ensures |segs| > 1 && Start(cfg, room, now, segs[0], None) == (Some(Live([segs[0]], now + cfg.timeout)), [])
  {
    assert IsSegment(segs[0]) && Seg(segs[0]).first;
  }

  lemma LaterReceived(cfg: Config, segs: seq<Unitdata>, i: nat, deadline: nat, room: Room, now: nat)
    requires InSequence(segs) && 0 < i < |segs|
    ensures var e := Some(Live(segs[..i], deadline));
            && ValidEntry(e) && segs[i].segmentation.Some?
            && KeyReceive(cfg, e, room, now, segs[i], None) == Continue(cfg, segs[..i], deadline, room, now, segs[i], None)
  {
    hide Data, Continue, AnyReturn, Bound, Start, Collide;
    assert IsSegment(segs[i]) && !Seg(segs[i]).first && IsSegment(segs[0]);
    assert segs[..i][0] == segs[0];
  }

  lemma LaterFits(segs: seq<Unitdata>, i: nat)
    requires InSequence(segs) && 0 < i < |segs|
    ensures segs[..i][0] == segs[0]
    ensures |Data(segs[..i])| + |segs[i].data| <= Bound(segs) && |Data(segs[..i])| + |segs[i].data| <= |Data(segs)|
  {
    hide Data, InSequence, Bound, Announced;
    assert segs[..i + 1] == segs[..i] + [segs[i]];
    PrefixLengths(segs, i, i + 1);
    DataPush(segs[..i], segs[i]);
    NextFits(segs, i);
  }

  lemma FeedLater(cfg: Config, segs: seq<Unitdata>, i: nat, deadline: nat, room: Room, now: nat, k: Key)
    requires WholeMessage(segs, k) && 0 < i < |segs| && room.octets
    ensures var e := Some(Live(segs[..i], deadline));
            && ValidEntry(e) && segs[i].segmentation.Some?
            && KeyReceive(cfg, e, room, now, segs[i], None)
               == if i + 1 == |segs| then (None, [Delivered(IndicationOf(segs))]) else (Some(Live(segs[..i + 1], deadline)), [])
  {
    hide Data, InSequence, Bound, Announced, IndicationOf, KeyReceive, Continue;
    LaterReceived(cfg, segs, i, deadline, room, now);
    LaterFits(segs, i);
    FeedNext(cfg, segs, i, deadline, room, now);
  }

  /** One segment in order: nothing is put out and the process grows, or the message is delivered and the key is idle. */
  lemma FeedOne(cfg: Config, t: Table, k: Key, segs: seq<Unitdata>, i: nat, deadline: nat, now: nat)
    requires WholeMessage(segs, k) && i < |segs| && HasRoomFor(cfg, t, k, |Data(segs)|) && ValidTable(t)
    requires i == 0 ==> deadline == now + cfg.timeout
    ensures var h := Holding(t, k, segs, i, deadline);
            && ValidTable(h) && segs[i].segmentation.Some?
            && Receive(cfg, h, now, segs[i], None)
               == (Holding(t, k, segs, i + 1, deadline), if i + 1 == |segs| then [Delivered(IndicationOf(segs))] else [])
  {
    if i == 0 {
      FeedOneFirst(cfg, t, k, segs, deadline, now);
    } else {
      FeedOneLater(cfg, t, k, segs, i, deadline, now);
    }
  }

  lemma SegmentKey(segs: seq<Unitdata>, k: Key, i: nat)
    requires WholeMessage(segs, k) && i < |segs|
    ensures segs[i].segmentation.Some? && KeyOf(segs[i]) == Some(k)
  {
    assert IsSegment(segs[i]);
  }

  /** What Receive does, given what the key does. */
  lemma Received(cfg: Config, t: Table, now: nat, u: Unitdata, k: Key, e: Option<Entry>, r: (Option<Entry>, seq<Out>))
    requires ValidTable(t) && u.segmentation.Some? && KeyOf(u) == Some(k) && Get(t, k) == e && ValidEntry(e)
    requires KeyReceive(cfg, e, RoomFor(cfg, t, k, |u.data|), now, u, None) == r
    ensures Receive(cfg, t, now, u, None) == (Put(t, k, r.0), r.1)
  {
    hide KeyReceive, RoomFor, Put, Get, ValidTable, ValidEntry;
  }

  lemma FeedOneFirst(cfg: Config, t: Table, k: Key, segs: seq<Unitdata>, deadline: nat, now: nat)
    requires WholeMessage(segs, k) && 0 < |segs| && HasRoomFor(cfg, t, k, |Data(segs)|) && ValidTable(t) && deadline == now + cfg.timeout
    ensures ValidTable(Holding(t, k, segs, 0, deadline)) && segs[0].segmentation.Some?
    ensures Receive(cfg, Holding(t, k, segs, 0, deadline), now, segs[0], None)
            == (Holding(t, k, segs, 1, deadline), if 1 == |segs| then [Delivered(IndicationOf(segs))] else [])
  {
    hide RoomFor, KeyReceive, IndicationOf, WholeMessage, KeyOf, Receive, ValidTable, Start, Data, Slots, Octets, PeerOctets;
    var room := RoomFor(cfg, t, k, |segs[0].data|);
    HoldingRoom(cfg, t, k, segs, 0, deadline);
    SegmentKey(segs, k, 0);
    FeedFirst(cfg, segs, room, now, k);
    StartOfNone(cfg, room, now, segs[0]);
    NotIdle(cfg, t, k, |Data(segs)|);
    Received(cfg, t, now, segs[0], k, None, (Some(Live([segs[0]], deadline)), []));
    assert segs[..1] == [segs[0]];
  }

  lemma FeedOneLater(cfg: Config, t: Table, k: Key, segs: seq<Unitdata>, i: nat, deadline: nat, now: nat)
    requires WholeMessage(segs, k) && 0 < i < |segs| && HasRoomFor(cfg, t, k, |Data(segs)|) && ValidTable(t)
    ensures ValidTable(Holding(t, k, segs, i, deadline)) && segs[i].segmentation.Some?
    ensures Receive(cfg, Holding(t, k, segs, i, deadline), now, segs[i], None)
            == (Holding(t, k, segs, i + 1, deadline), if i + 1 == |segs| then [Delivered(IndicationOf(segs))] else [])
  {
    hide RoomFor, HasRoomFor, KeyReceive, IndicationOf, WholeMessage, KeyOf, Receive, ValidTable, ValidEntry, Holding, Put, Get;
    var h := Holding(t, k, segs, i, deadline);
    var room := RoomFor(cfg, h, k, |segs[i].data|);
    HoldingRoom(cfg, t, k, segs, i, deadline);
    SegmentKey(segs, k, 0);
    SegmentKey(segs, k, i);
    FeedLater(cfg, segs, i, deadline, room, now, k);
    HoldingValid(t, k, segs, i, deadline);
    NotIdle(cfg, t, k, |Data(segs)|);
    HoldingPuts(t, k, segs, i, deadline);
    var r := if i + 1 == |segs| then (None, [Delivered(IndicationOf(segs))]) else (Some(Live(segs[..i + 1], deadline)), []);
    Received(cfg, h, now, segs[i], k, Some(Live(segs[..i], deadline)), r);
  }

  lemma HoldingPuts(t: Table, k: Key, segs: seq<Unitdata>, i: nat, deadline: nat)
    requires 0 < i < |segs| && k !in t
    ensures var h := Holding(t, k, segs, i, deadline);
            && Get(h, k) == Some(Live(segs[..i], deadline))
            && Holding(t, k, segs, i + 1, deadline)
               == Put(h, k, if i + 1 == |segs| then None else Some(Live(segs[..i + 1], deadline)))
  {
  }

  lemma NotIdle(cfg: Config, t: Table, k: Key, n: nat)
    requires HasRoomFor(cfg, t, k, n)
    ensures k !in t
  {
  }

  lemma HoldingValid(t: Table, k: Key, segs: seq<Unitdata>, i: nat, deadline: nat)
    requires ValidTable(t) && 0 < i < |segs| && ValidEntry(Some(Live(segs[..i], deadline)))
    ensures ValidTable(Holding(t, k, segs, i, deadline))
  {
    hide ValidEntry;
  }

  lemma StartOfNone(cfg: Config, room: Room, now: nat, u: Unitdata)
    requires u.segmentation.Some?
    ensures KeyReceive(cfg, None, room, now, u, None) == Start(cfg, room, now, u, None)
  {
  }

  lemma FeedNext(cfg: Config, segs: seq<Unitdata>, i: nat, deadline: nat, room: Room, now: nat)
    requires InSequence(segs) && |segs| == Announced(segs) && 0 < i < |segs| && room.octets
    requires segs[..i][0] == segs[0] && |Data(segs[..i])| + |segs[i].data| <= Bound(segs)
    requires |Data(segs[..i])| + |segs[i].data| <= |Data(segs)|
    ensures Continue(cfg, segs[..i], deadline, room, now, segs[i], None)
            == if i + 1 == |segs| then (None, [Delivered(IndicationOf(segs))]) else (Some(Live(segs[..i + 1], deadline)), [])
  {
    hide Data, AnyReturn, IndicationOf;
    assert Seg(segs[i]).remaining as int == Announced(segs) - 1 - i;
    assert segs[..i] + [segs[i]] == segs[..i + 1];
    if i + 1 == |segs| {
      assert segs[..i + 1] == segs;
    }
  }

  /** Feeding the segments i and after of a message, the first i being held. */
  ghost function Feed(cfg: Config, t: Table, segs: seq<Unitdata>, nows: seq<nat>, i: nat): (Table, seq<Out>)
    requires |nows| == |segs| && i <= |segs| && (forall u :: u in segs ==> u.segmentation.Some?)
    decreases |segs| - i
  {
    if i == |segs| || !ValidTable(t) then (t, []) else
    var (t1, outs) := Receive(cfg, t, nows[i], segs[i], None);
    var (t2, more) := Feed(cfg, t1, segs, nows, i + 1);
    (t2, outs + more)
  }

  lemma {:induction false} FeedFrom(cfg: Config, t: Table, k: Key, segs: seq<Unitdata>, nows: seq<nat>, i: nat)
    requires WholeMessage(segs, k) && |nows| == |segs| && i < |segs| && HasRoomFor(cfg, t, k, |Data(segs)|) && ValidTable(t)
    requires forall u :: u in segs ==> u.segmentation.Some?
    ensures Feed(cfg, Holding(t, k, segs, i, nows[0] + cfg.timeout), segs, nows, i) == (t, [Delivered(IndicationOf(segs))])
    decreases |segs| - i
  {
    hide Receive, WholeMessage, HasRoomFor, Good, IndicationOf, RoomFor;
    FeedOne(cfg, t, k, segs, i, nows[0] + cfg.timeout, nows[i]);
    var last: seq<Out> := [Delivered(IndicationOf(segs))];
    assert last + [] == last && [] + last == last;
    if i + 1 < |segs| {
      FeedFrom(cfg, t, k, segs, nows, i + 1);
    }
  }

  /**
   * A whole message fed in order to an idle key with room: nothing is put out before the last segment, which
   * delivers the message once; afterwards the table is as before. No check on sequence, length or room rejects.
   */
  lemma FedInOrderIsDelivered(cfg: Config, t: Table, k: Key, segs: seq<Unitdata>, nows: seq<nat>)
    requires WholeMessage(segs, k) && |nows| == |segs| && HasRoomFor(cfg, t, k, |Data(segs)|) && ValidTable(t)
    ensures forall u :: u in segs ==> u.segmentation.Some?
    ensures Feed(cfg, t, segs, nows, 0) == (t, [Delivered(IndicationOf(segs))])
  {
    assert forall i :: 0 <= i < |segs| ==> IsSegment(segs[i]);
    FeedFrom(cfg, t, k, segs, nows, 0);
  }
}
