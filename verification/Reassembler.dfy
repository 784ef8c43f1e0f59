/**
 * Reassembly as unitdata.go runs it, 616-894: process objects in a map, changed in place, four counters kept beside
 * it, and a timer for each object. The class refines the machine over values of Reassembly.
 */
module Reassemblers {
  import opened Basics
  import opened Fields
  import opened Address
  import opened Messages
  import opened Timers
  import opened Reassembly
  import opened ReassemblyRuns

  /** What a timer does: fail a process by T(reassembly), or end a record. */
  datatype Action = TimeOut(process: Process) | EndRecord(process: Process)

  /** A reassembly process, or the record of a failed message it has become. */
  class Process {
    const key: Key
    var first: Option<Unitdata>
    var expected: byte
    var segments: nat
    var bound: nat
    var firstLen: nat
    var data: bytes
    var returnOnError: bool
    var timer: Timer?<Action>
    var failed: bool
    var orphan: bool
    var firstKnown: bool
    var firstHash: nat

    /** A process started by first segment u. */
    constructor Started(key: Key, u: Unitdata)
      requires u.segmentation.Some? && Seg(u).remaining > 0
      ensures this.key == key && first == Some(u.(data := [])) && expected == Seg(u).remaining - 1
      ensures segments == Seg(u).remaining as int + 1 && bound == |u.data| * segments
      ensures firstLen == |u.data| && data == u.data && returnOnError == u.protocolClass.returnOnError
      ensures !failed && !orphan
    {
      this.key, first, expected := key, Some(u.(data := [])), Seg(u).remaining - 1;
      segments, bound := Seg(u).remaining as int + 1, |u.data| * (Seg(u).remaining as int + 1);
      firstLen, data, returnOnError := |u.data|, u.data, u.protocolClass.returnOnError;
      timer, failed, orphan, firstKnown, firstHash := null, false, false, false, 0;
    }

    /** The record of a message that had no process. */
    constructor Orphan(key: Key, firstKnown: bool, firstHash: nat, ghost deadline: nat)
      ensures this.key == key
      ensures Holds(Failed(true, if firstKnown then Some(firstHash) else None, deadline))
    {
      this.key, first, expected, segments, bound := key, None, 0, 0, 0;
      firstLen, data, returnOnError, timer := 0, [], false, null;
      failed, orphan, this.firstKnown, this.firstHash := true, true, firstKnown, firstHash;
    }

    /** The object's fields say what the entry says, return on error and timer apart. */
    ghost predicate Holds(e: Entry)
      reads this`first, this`expected, this`segments, this`bound, this`firstLen, this`data
      reads this`failed, this`orphan, this`firstKnown, this`firstHash
    {
      match e
      case Live(segs, _) =>
        && |segs| > 0 && segs[0].segmentation.Some? && |segs| <= Announced(segs)
        && !failed && !orphan
        && first == Some(segs[0].(data := [])) && firstLen == |segs[0].data|
        && expected as int == Max(Announced(segs) - 1 - |segs|, 0) && segments == Announced(segs)
        && bound == Bound(segs) && data == Data(segs)
      case Failed(o, hash, _) =>
        && failed && orphan == o && data == []
        && firstKnown == hash.Some? && (hash.Some? ==> firstHash == hash.value)
    }

    /** The process turns into the record of its message, timer apart. */
    method Become(hash: nat, ghost deadline: nat)
      modifies this`first, this`expected, this`segments, this`bound, this`firstLen, this`data, this`returnOnError
      modifies this`failed, this`orphan, this`firstKnown, this`firstHash
      ensures Holds(Failed(false, Some(hash), deadline))
    {
      first, expected, segments, bound, firstLen, data, returnOnError := None, 0, 0, 0, 0, [], false;
      failed, orphan, firstKnown, firstHash := true, false, true, hash;
    }

    /** What the timer of an entry does. */
    function ActionOf(e: Entry): Action {
      if e.Live? then TimeOut(this) else EndRecord(this)
    }

    ghost predicate Stores(e: Entry)
      reads this`first, this`expected, this`segments, this`bound, this`firstLen, this`data
      reads this`failed, this`orphan, this`firstKnown, this`firstHash, this`timer
    {
      Holds(e) && timer != null && timer.deadline == e.deadline && timer.action == ActionOf(e)
    }

    /** The first segment as received. */
    function FirstSegment(): Unitdata
      requires first.Some? && firstLen <= |data|
      reads this
    {
      first.value.(data := data[..firstLen])
    }
  }

  lemma {:induction false} DataStarts(segs: seq<Unitdata>)
    requires |segs| > 0
    ensures |segs[0].data| <= |Data(segs)| && Data(segs)[..|segs[0].data|] == segs[0].data
    decreases |segs|
  {
    if |segs| == 1 {
      assert segs == [segs[0]];
      DataOne(segs[0]);
    } else {
      DataStarts(segs[..|segs| - 1]);
    }
  }

  // ----- Octets by peer -----

  function PeerPlus(m: map<Peer, nat>, peer: Peer, n: int): map<Peer, nat>
    requires (if peer in m then m[peer] else 0) + n >= 0
  {
    var v := (if peer in m then m[peer] else 0) + n;
    if v != 0 then m[peer := v] else m - {peer}
  }

  /** The octets each peer holds, with no entry for a peer that holds none. */
  ghost predicate Tallies(m: map<Peer, nat>, t: Table) {
    forall p: Peer :: if p in m then m[p] > 0 && m[p] == PeerOctets(t, p) else PeerOctets(t, p) == 0
  }

  lemma TallyPut(m: map<Peer, nat>, t: Table, k: Key, r: Option<Entry>)
    requires Tallies(m, t)
    ensures var n := (if r.Some? then OctetWeight(k, r.value) else 0) - (if k in t then OctetWeight(k, t[k]) else 0);
            && (if PeerOf(k) in m then m[PeerOf(k)] else 0) + n >= 0
            && Octets(Put(t, k, r)) == Octets(t) + n
            && Tallies(PeerPlus(m, PeerOf(k), n), Put(t, k, r))
  {
    hide OctetWeight, Put;
    var n := (if r.Some? then OctetWeight(k, r.value) else 0) - (if k in t then OctetWeight(k, t[k]) else 0);
    PutWeighs(t, k, r, OctetWeight);
    var peer := PeerOf(k);
    PutWeighs(t, k, r, PeerWeight(peer));
    assert (if peer in m then m[peer] else 0) == PeerOctets(t, peer);
    forall p: Peer | p != peer
      ensures PeerOctets(Put(t, k, r), p) == PeerOctets(t, p)
    {
      PutWeighs(t, k, r, PeerWeight(p));
    }
  }

  lemma CountPut(t: Table, k: Key, r: Option<Entry>)
    ensures Slots(Put(t, k, r)) == Slots(t) + (if r.Some? then SlotWeight(k, r.value) else 0) - (if k in t then SlotWeight(k, t[k]) else 0)
    ensures Orphans(Put(t, k, r)) == Orphans(t) + (if r.Some? then OrphanWeight(k, r.value) else 0) - (if k in t then OrphanWeight(k, t[k]) else 0)
  {
    hide Put, SlotWeight, OrphanWeight;
    PutWeighs(t, k, r, SlotWeight);
    PutWeighs(t, k, r, OrphanWeight);
  }

  /** What entering an entry does to the counters. */
  lemma EnterCounts(m: map<Peer, nat>, t: Table, k: Key, e: Entry)
    requires Tallies(m, t) && k !in t
    ensures var u := t[k := e];
            var n := if e.Live? then |Data(e.segments)| else 0;
            && Slots(u) == Slots(t) + (if e.Failed? && e.orphan then 0 else 1)
            && Orphans(u) == Orphans(t) + (if e.Failed? && e.orphan then 1 else 0)
            && Octets(u) == Octets(t) + n
            && Tallies(PeerPlus(m, PeerOf(k), n), u)
            && (n == 0 ==> Tallies(m, u))
  {
    hide Slots, Orphans, Octets, PeerOctets, Tallies, Data;
    TallyPut(m, t, k, Some(e));
    CountPut(t, k, Some(e));
    SameTally(m, t, k);
  }

  /** What taking an entry out does to the counters. */
  lemma EndCounts(m: map<Peer, nat>, t: Table, k: Key)
    requires Tallies(m, t) && k in t
    ensures var u := t - {k};
            var e := t[k];
            var n := if e.Live? then |Data(e.segments)| else 0;
            && Slots(u) == Slots(t) - (if e.Failed? && e.orphan then 0 else 1)
            && Orphans(u) == Orphans(t) - (if e.Failed? && e.orphan then 1 else 0)
            && Octets(u) == Octets(t) - n
            && (if PeerOf(k) in m then m[PeerOf(k)] else 0) - n >= 0
            && Tallies(PeerPlus(m, PeerOf(k), -n), u)
            && (n == 0 ==> Tallies(m, u))
  {
    hide Slots, Orphans, Octets, PeerOctets, Tallies, Data;
    TallyPut(m, t, k, None);
    CountPut(t, k, None);
    assert Put(t, k, None) == t - {k};
    SameTally(m, t, k);
  }

  lemma SameTally(m: map<Peer, nat>, t: Table, k: Key)
    requires Tallies(m, t)
    ensures PeerPlus(m, PeerOf(k), 0) == m
  {
    hide PeerOctets;
  }

  // ----- Objects, timers and table -----

  type Objects = map<Key, Process>

  /** Process p stores entry e of key k, and its timer is one of running. */
  ghost predicate Stored(p: Process, k: Key, e: Entry, running: set<Timer<Action>>)
    reads p
  {
    && p.key == k && p.Stores(e) && p.timer in running
    && (e.Live? ==> p.returnOnError == AnyReturn(e.segments))
  }

  /** A running timer is the timer of an object that is in the map. */
  ghost predicate Owned(t: Timer<Action>, os: Objects)
    reads os.Values
  {
    var k := t.action.process.key;
    k in os && os[k] == t.action.process && os[k].timer == t
  }

  /** Objects, running timers and table agree: each entry has its object, each object one running timer, and no other runs. */
  ghost predicate Linked(os: Objects, t: Table, running: set<Timer<Action>>)
    reads os.Values
  {
    && t.Keys == os.Keys
    && (forall k :: k in os ==> Stored(os[k], k, t[k], running))
    && (forall tm :: tm in running ==> Owned(tm, os))
  }

  lemma SameKeys(os: Objects, t: Table, running: set<Timer<Action>>)
    requires Linked(os, t, running)
    ensures t.Keys == os.Keys
  {
  }

  /** No two processes share a timer. */
  lemma TimersDistinct(os: Objects, t: Table, running: set<Timer<Action>>, j: Key, k: Key)
    requires Linked(os, t, running) && j in os && k in os && j != k
    ensures os[j].timer != os[k].timer
  {
    assert Stored(os[j], j, t[j], running) && Stored(os[k], k, t[k], running);
  }

  lemma LinkedEnter(os: Objects, t: Table, rest: set<Timer<Action>>, p: Process, tm: Timer<Action>, e: Entry)
    requires Linked(os, t, rest) && p.key !in os && p.Stores(e) && p.timer == tm
    requires e.Live? ==> p.returnOnError == AnyReturn(e.segments)
    ensures Linked(os[p.key := p], t[p.key := e], rest + {tm})
  {
    hide Process.Stores, AnyReturn;
    OwnTimer(p, tm, e);
  }

  lemma OwnTimer(p: Process, tm: Timer<Action>, e: Entry)
    requires p.Stores(e) && p.timer == tm
    ensures tm.action.process == p
  {
  }

  lemma LinkedDrop(os: Objects, t: Table, running: set<Timer<Action>>, p: Process)
    requires Linked(os, t, running) && p.key in os && os[p.key] == p
    ensures Linked(os - {p.key}, t - {p.key}, running - {p.timer})
  {
    hide Process.Stores, AnyReturn;
    forall k | k in os && k != p.key
      ensures os[k].timer != p.timer
    {
      TimersDistinct(os, t, running, k, p.key);
    }
  }

  /** Every timer held is one the queue knows, running or not. */
  ghost predicate TimersKnown(os: Objects, all: set<Timer<Action>>)
    reads os.Values`timer
  {
    forall p :: p in os.Values ==> p.timer in all
  }

  lemma KnownEnter(os: Objects, p: Process, all: set<Timer<Action>>)
    requires TimersKnown(os, all) && p.timer in all
    ensures TimersKnown(os[p.key := p], all)
  {
  }

  lemma ValuesGrow(os: Objects, k: Key, p: Process)
    ensures os[k := p].Values <= os.Values + {p}
  {
  }

  lemma BackAgain(os: Objects, t: Table, p: Process)
    requires p.key in os && os[p.key] == p && p.key in t
    ensures (os - {p.key})[p.key := p] == os && (t - {p.key})[p.key := t[p.key]] == t
  {
  }

  lemma RecordFacts(cfg: Config, now: nat, u: Unitdata, p: Process)
    requires u.segmentation.Some?
    requires p.Holds(Failed(true, if Seg(u).first then Some(if Seg(u).first then HashOf(cfg, u) else 0) else None, now + cfg.timeout))
    ensures var e := RecordOf(cfg, now, u);
            e.Failed? && e.orphan && e.deadline == now + cfg.timeout && p.Holds(e) && p.ActionOf(e) == EndRecord(p)
  {
    hide Process.Holds;
  }

  class Reassembler {
    const cfg: Config
    const queue: TimerQueue<Action>
    var reassemblies: Objects
    var reassemblyOctets: int
    var peerOctets: map<Peer, nat>
    var reassemblySlots: int
    var orphanRecords: int
    ghost var table: Table

    /** The four counters are the counts and sums over a table. */
    ghost predicate Counts(t: Table)
      reads this`reassemblySlots, this`orphanRecords, this`reassemblyOctets, this`peerOctets
    {
      && reassemblySlots == Slots(t) && orphanRecords == Orphans(t)
      && reassemblyOctets == Octets(t) && Tallies(peerOctets, t)
    }

    ghost predicate Consistent()
      reads this, reassemblies.Values, queue, queue.all
    {
      && queue.Valid() && cfg.timeout > 0 && Counts(table)
      && Linked(reassemblies, table, queue.Running())
      && TimersKnown(reassemblies, queue.all)
    }

    /** As Consistent, with process p, which stores e, taken apart from the others, os and t. Its timer may have fired. */
    ghost predicate Apart(p: Process, e: Entry, os: Objects, t: Table)
      reads this, os.Values, queue, queue.all, p`timer
    {
      && queue.Valid() && cfg.timeout > 0 && Counts(table)
      && Linked(os, t, queue.Running() - {p.timer})
      && TimersKnown(os, queue.all) && p.timer in queue.all
      && p.key !in os && p.key !in t && p !in os.Values
      && reassemblies == os[p.key := p] && table == t[p.key := e]
    }

    ghost predicate Valid()
      reads this, reassemblies.Values, queue, queue.all
    {
      Consistent() && Good(cfg, table) && ValidTable(table)
    }

    constructor (cfg: Config)
      requires cfg.timeout > 0
      ensures Valid() && this.cfg == cfg && table == map[] && fresh(queue) && fresh(queue.all)
    {
      this.cfg := cfg;
      queue := new TimerQueue();
      reassemblies, reassemblyOctets, peerOctets, reassemblySlots, orphanRecords := map[], 0, map[], 0, 0;
      table := map[];
    }

    predicate HasRoom(peer: Peer, n: nat)
      reads this
    {
      && reassemblyOctets + n <= cfg.maxOctets
      && (cfg.perPeer == 0 || (if peer in peerOctets then peerOctets[peer] else 0) + n <= cfg.perPeer)
    }

    method Hold(peer: Peer, n: int)
      requires (if peer in peerOctets then peerOctets[peer] else 0) + n >= 0
      modifies this`reassemblyOctets, this`peerOctets
      ensures reassemblyOctets == old(reassemblyOctets) + n && peerOctets == PeerPlus(old(peerOctets), peer, n)
    {
      reassemblyOctets := reassemblyOctets + n;
      var v := (if peer in peerOctets then peerOctets[peer] else 0) + n;
      if v != 0 {
        peerOctets := peerOctets[peer := v];
      } else {
        peerOctets := peerOctets - {peer};
      }
    }

    predicate Current(p: Process)
      reads this`reassemblies
    {
      p.key in reassemblies && reassemblies[p.key] == p
    }

    lemma TakeApart(p: Process)
      requires Consistent() && Current(p)
      ensures p.key in table && p.Stores(table[p.key]) && p.timer in queue.Running()
      ensures Apart(p, table[p.key], reassemblies - {p.key}, table - {p.key})
      ensures table[p.key].Live? ==> p.returnOnError == AnyReturn(table[p.key].segments)
    {
      hide Counts, TimerQueue.Valid, TimerQueue.Running, AnyReturn, Process.Stores;
      LinkedDrop(reassemblies, table, queue.Running(), p);
      assert Stored(p, p.key, table[p.key], queue.Running());
      BackAgain(reassemblies, table, p);
    }

    /** A process ends: its entry goes, with its slot or record, its octets and its timer. */
    method EndReassembly(p: Process, ghost e: Entry, ghost os: Objects, ghost t: Table)
      requires if Current(p) then Apart(p, e, os, t) && p.Stores(e) else Consistent()
      modifies this, queue, queue.all
      ensures Consistent()
      ensures old(Current(p)) ==> reassemblies == os && table == t
      ensures !old(Current(p)) ==> reassemblies == old(reassemblies) && table == old(table)
      ensures queue.all == old(queue.all) && queue.Running() <= old(queue.Running())
    {
      hide Linked, Counts, TimerQueue.Valid, TimerQueue.Running, Owned, Process.Stores, TimersKnown;
      if !Current(p) {
        return;
      }
      Discount(p);
      assert reassemblies - {p.key} == os && table - {p.key} == t;
      reassemblies, table := reassemblies - {p.key}, table - {p.key};
      queue.Stop(p.timer);
    }

    /** The slot or record of a process and its octets are given back. */
    method Discount(p: Process)
      requires Counts(table) && p.key in table && p.Stores(table[p.key])
      modifies this`reassemblySlots, this`orphanRecords, this`reassemblyOctets, this`peerOctets
      ensures Counts(table - {p.key})
    {
      hide Slots, Orphans, Octets, PeerOctets, Tallies, PeerPlus, Data;
      EndCounts(peerOctets, table, p.key);
      if p.orphan {
        orphanRecords := orphanRecords - 1;
      } else {
        reassemblySlots := reassemblySlots - 1;
        Hold(PeerOf(p.key), -|p.data|);
      }
    }

    /** Starts the timer of an object that has joined the others. */
    method StartTimer(p: Process, deadline: nat, action: Action, ghost e: Entry, ghost os: Objects, ghost t: Table)
      requires queue.Valid() && Linked(os, t, queue.Running()) && TimersKnown(os, queue.all)
      requires p.key !in os && p !in os.Values && reassemblies == os[p.key := p]
      requires p.Holds(e) && e.deadline == deadline && action == p.ActionOf(e)
      requires e.Live? ==> p.returnOnError == AnyReturn(e.segments)
      modifies this`table, queue, queue.all, p`timer
      ensures table == t[p.key := e]
      ensures queue.Valid() && Linked(reassemblies, table, queue.Running()) && TimersKnown(reassemblies, queue.all)
      ensures fresh(queue.all - old(queue.all)) && p.timer != null && p.timer.deadline == deadline
      ensures queue.Running() == old(queue.Running()) + {p.timer}
    {
      hide Linked, TimerQueue.Valid, TimerQueue.Running, Owned, Process.Holds, AnyReturn;
      ghost var running := queue.Running();
      table := t[p.key := e];
      p.timer := queue.Schedule(deadline, action);
      LinkedEnter(os, t, running, p, p.timer, e);
    }

    /** A process that fails returns its first segment and becomes, in place, the record of its message. */
    method FailReassembly(now: nat, p: Process, cause: byte, reason: Reason,
                          ghost segs: seq<Unitdata>, ghost deadline: nat, ghost os: Objects, ghost t: Table)
      returns (outs: seq<Out>)
      requires |segs| > 0 && segs[0].segmentation.Some?
      requires Apart(p, Live(segs, deadline), os, t) && p.Stores(Live(segs, deadline))
      modifies this, queue, queue.all, p
      ensures Consistent() && reassemblies == old(reassemblies) && fresh(queue.all - old(queue.all))
      ensures var r := KeyFail(cfg, segs, now, old(p.returnOnError), cause, reason);
              outs == r.1 && table == t[p.key := r.0.value]
      ensures forall tm :: tm in queue.Running() - old(queue.Running()) ==> tm.deadline == now + cfg.timeout
    {
      hide Linked, Counts, TimerQueue.Valid, TimerQueue.Running, Owned, HashOf, Reject, TimersKnown, Process.Holds, Process.Stores;
      ghost var e := Failed(false, Some(HashOf(cfg, segs[0])), now + cfg.timeout);
      FirstFacts(p, segs, deadline);
      var hash := HashOf(cfg, p.FirstSegment());
      outs := Reject(p.FirstSegment(), p.returnOnError, cause, reason);
      assert table[p.key := e] == t[p.key := e];
      Release(p, e);
      Retire(p, hash, now + cfg.timeout, e, os, t);
    }

    static lemma FirstFacts(p: Process, segs: seq<Unitdata>, deadline: nat)
      requires p.Stores(Live(segs, deadline))
      ensures p.first.Some? && p.firstLen <= |p.data| && p.FirstSegment() == segs[0]
    {
      DataStarts(segs);
    }

    /** The process turns into the record of its message, with a timer of its own. */
    method Retire(p: Process, hash: nat, deadline: nat, ghost e: Entry, ghost os: Objects, ghost t: Table)
      requires queue.Valid() && Linked(os, t, queue.Running() - {p.timer}) && TimersKnown(os, queue.all)
      requires p.key !in os && p !in os.Values && reassemblies == os[p.key := p] && p.timer in queue.all
      requires e == Failed(false, Some(hash), deadline)
      modifies this`table, queue, queue.all, p
      ensures table == t[p.key := e]
      ensures queue.Valid() && Linked(reassemblies, table, queue.Running()) && TimersKnown(reassemblies, queue.all)
      ensures fresh(queue.all - old(queue.all))
      ensures forall tm :: tm in queue.Running() - old(queue.Running()) ==> tm.deadline == deadline
    {
      hide Linked, TimerQueue.Valid, TimerQueue.Running, Process.Holds, TimersKnown;
      p.Become(hash, deadline);
      queue.Stop(p.timer);
      StartTimer(p, deadline, EndRecord(p), e, os, t);
    }

    /** A process gives back its octets and keeps its slot. */
    method Release(p: Process, ghost e: Entry)
      requires Counts(table) && p.key in table && table[p.key].Live? && p.Stores(table[p.key]) && e.Failed? && !e.orphan
      modifies this`reassemblyOctets, this`peerOctets
      ensures Counts(table[p.key := e])
    {
      hide Slots, Orphans, Octets, PeerOctets, Tallies, PeerPlus, Data;
      TallyPut(peerOctets, table, p.key, Some(e));
      CountPut(table, p.key, Some(e));
      assert Put(table, p.key, Some(e)) == table[p.key := e];
      Hold(PeerOf(p.key), -|p.data|);
    }

    /** The segment of a message with no process is returned and recorded, or discarded when no record is left. */
    method RejectSegment(now: nat, key: Key, u: Unitdata, cause: byte, reason: Reason, ghost room: Room) returns (outs: seq<Out>)
      requires Consistent() && key !in reassemblies && u.segmentation.Some?
      requires room.record == (Orphans(table) < cfg.maxReassemblies)
      modifies this, queue, queue.all
      ensures Consistent() && fresh(queue.all - old(queue.all))
      ensures fresh(reassemblies.Values - old(reassemblies.Values))
      ensures var r := KeyReject(cfg, room, now, u, cause, reason); table == Put(old(table), key, r.0) && outs == r.1
    {
      hide Consistent, Counts, KeyReject, Put, Reject, RecordOf;
      RejectCases(cfg, room, now, u, cause, reason);
      NotRecorded(key);
      PutCases(table, key);
      if orphanRecords >= cfg.maxReassemblies {
        return [Discarded(u.routing, u.typ, Unrecorded(reason))];
      }
      outs := Reject(u, u.protocolClass.returnOnError, cause, reason);
      Record(now, key, u);
    }

    lemma NotRecorded(key: Key)
      requires Consistent() && key !in reassemblies
      ensures key !in table && orphanRecords == Orphans(table)
    {
      hide Orphans, TimerQueue.Valid, TimerQueue.Running;
      assert key !in table.Keys;
    }

    /** The record of a message that had no process is made. */
    method Record(now: nat, key: Key, u: Unitdata)
      requires Consistent() && key !in reassemblies && u.segmentation.Some?
      modifies this, queue, queue.all
      ensures Consistent() && fresh(queue.all - old(queue.all))
      ensures fresh(reassemblies.Values - old(reassemblies.Values))
      ensures table == old(table)[key := RecordOf(cfg, now, u)]
    {
      hide RecordOf, Linked, Counts, TimerQueue.Valid, TimerQueue.Running, Owned, Process.Holds, TimersKnown, HashOf;
      ghost var os, t := reassemblies, table;
      SameKeys(os, t, queue.Running());
      assert key !in t.Keys;
      var p := new Process.Orphan(key, Seg(u).first, if Seg(u).first then HashOf(cfg, u) else 0, now + cfg.timeout);
      ghost var e := RecordOf(cfg, now, u);
      RecordFacts(cfg, now, u, p);
      CountRecord(key, e);
      ValuesGrow(os, key, p);
      reassemblies := reassemblies[key := p];
      StartTimer(p, now + cfg.timeout, EndRecord(p), e, os, t);
    }

    method CountRecord(key: Key, ghost e: Entry)
      requires Counts(table) && key !in table && e.Failed? && e.orphan
      modifies this`orphanRecords
      ensures Counts(table[key := e])
    {
      hide Slots, Orphans, Octets, PeerOctets, Tallies;
      EnterCounts(peerOctets, table, key, e);
      orphanRecords := orphanRecords + 1;
    }

    /** A segment for a key with neither process nor record. */
    method StartProcess(now: nat, key: Key, u: Unitdata, barrier: Option<byte>, ghost room: Room) returns (outs: seq<Out>)
      requires Consistent() && key !in reassemblies && IsSegment(u)
      requires room == RoomFor(cfg, table, key, |u.data|)
      modifies this, queue, queue.all
      ensures Consistent() && fresh(queue.all - old(queue.all))
      ensures fresh(reassemblies.Values - old(reassemblies.Values))
      ensures var r := Start(cfg, room, now, u, barrier); table == Put(old(table), key, r.0) && outs == r.1
    {
      hide Consistent, Put, KeyReject, RoomFor;
      RoomHere(key, |u.data|);
      if barrier.Some? {
        outs := RejectSegment(now, key, u, barrier.value, Undeliverable(barrier.value), room);
      } else if !Seg(u).first {
        outs := RejectSegment(now, key, u, ERROR_IN_TRANSPORT, NoProcess, room);
      } else if reassemblySlots >= cfg.maxReassemblies || !HasRoom(PeerOf(key), |u.data|) {
        outs := RejectSegment(now, key, u, NETWORK_CONGESTION, NoBuffer, room);
      } else {
        PutCases(table, key);
        Admit(now, key, u);
        outs := [];
      }
    }

    /** What the counters say of the room left is what the table says. */
    lemma RoomHere(key: Key, n: nat)
      requires Consistent()
      ensures var room := RoomFor(cfg, table, key, n);
              && (key !in reassemblies ==>
                    && key !in table && room.slot == (reassemblySlots < cfg.maxReassemblies)
                    && room.record == (Orphans(table) < cfg.maxReassemblies))
              && room.octets == HasRoom(PeerOf(key), n)
    {
      hide Slots, Orphans, Octets, PeerOctets, TimerQueue.Valid, TimerQueue.Running;
      if key !in reassemblies {
        assert key !in table.Keys;
        assert table - {key} == table;
      }
    }

    /** A first segment is admitted: a process in a slot, with its octets and T(reassembly). */
    method Admit(now: nat, key: Key, u: Unitdata)
      requires Consistent() && key !in reassemblies && u.segmentation.Some? && Seg(u).remaining > 0
      modifies this, queue, queue.all
      ensures Consistent() && fresh(queue.all - old(queue.all))
      ensures fresh(reassemblies.Values - old(reassemblies.Values))
      ensures table == old(table)[key := Live([u], now + cfg.timeout)]
    {
      hide Linked, Counts, TimerQueue.Valid, TimerQueue.Running, Owned, Process.Holds, TimersKnown, Data, AnyReturn;
      ghost var os, t := reassemblies, table;
      SameKeys(os, t, queue.Running());
      assert key !in t.Keys;
      var p := new Process.Started(key, u);
      ghost var e := Live([u], now + cfg.timeout);
      StartFacts(p, u, now + cfg.timeout);
      CountProcess(key, u, e);
      ValuesGrow(os, key, p);
      reassemblies := reassemblies[key := p];
      StartTimer(p, now + cfg.timeout, TimeOut(p), e, os, t);
    }

    method CountProcess(key: Key, u: Unitdata, ghost e: Entry)
      requires Counts(table) && key !in table && e.Live? && e.segments == [u]
      modifies this`reassemblySlots, this`reassemblyOctets, this`peerOctets
      ensures Counts(table[key := e])
    {
      hide Slots, Orphans, Octets, PeerOctets, Tallies, Data;
      DataOne(u);
      EnterCounts(peerOctets, table, key, e);
      reassemblySlots := reassemblySlots + 1;
      Hold(PeerOf(key), |u.data|);
    }

    /** A segment other than the first for a process in progress. */
    method ContinueProcess(now: nat, p: Process, u: Unitdata, barrier: Option<byte>, ghost segs: seq<Unitdata>, ghost deadline: nat, ghost room: Room)
      returns (outs: seq<Out>)
      requires Consistent() && Current(p) && IsSegment(u)
      requires p.key in table && table[p.key] == Live(segs, deadline) && |segs| > 0 && segs[0].segmentation.Some?
      requires |segs| < Announced(segs)
      requires room == RoomFor(cfg, table, p.key, |u.data|)
      modifies this, queue, queue.all, p
      ensures Consistent() && fresh(queue.all - old(queue.all)) && reassemblies.Values <= old(reassemblies.Values)
      ensures var r := Continue(cfg, segs, deadline, room, now, u, barrier); table == Put(old(table), p.key, r.0) && outs == r.1
    {
      hide Consistent, Put, KeyFail, RoomFor, Data, AnyReturn, Bound, Announced, IndicationOf, Apart, Process.Stores;
      ghost var os, t := reassemblies - {p.key}, table - {p.key};
      PutCases(table, p.key);
      RoomHere(p.key, |u.data|);
      TakeApart(p);
      ProcessFacts(p, segs, deadline);
      Ask(p, u.protocolClass.returnOnError, Live(segs, deadline), os, t);
      var total := |p.data| + |u.data|;
      if barrier.Some? {
        outs := FailOn(now, p, barrier.value, Undeliverable(barrier.value), u, Undeliverable(barrier.value), segs, deadline, os, t);
      } else if Seg(u).remaining != p.expected {
        outs := FailOn(now, p, ERROR_IN_TRANSPORT, WrongSegment, u, OutOfSequence, segs, deadline, os, t);
      } else if total > p.bound {
        outs := FailOn(now, p, ERROR_IN_TRANSPORT, ExceedsBound, u, ExceedsBound, segs, deadline, os, t);
      } else if total > MAX_LONG_DATA {
        outs := FailOn(now, p, CANNOT_REASSEMBLE, ExceedsMaximum, u, ExceedsMaximum, segs, deadline, os, t);
      } else if !HasRoom(PeerOf(p.key), |u.data|) {
        outs := FailOn(now, p, NETWORK_CONGESTION, NoBuffer, u, NoBuffer, segs, deadline, os, t);
      } else {
        outs := Extend(p, u, segs, deadline, os, t);
      }
    }

    /** Any segment of a message can ask for return on error. */
    method Ask(p: Process, returnOnError: bool, ghost e: Entry, ghost os: Objects, ghost t: Table)
      requires Apart(p, e, os, t)
      modifies p`returnOnError
      ensures Apart(p, e, os, t) && p.returnOnError == (old(p.returnOnError) || returnOnError)
    {
      hide Counts, Linked, TimersKnown, TimerQueue.Valid, TimerQueue.Running;
      p.returnOnError := p.returnOnError || returnOnError;
    }

    /** What the fields of a process in progress say. */
    static lemma ProcessFacts(p: Process, segs: seq<Unitdata>, deadline: nat)
      requires p.Stores(Live(segs, deadline))
      ensures |segs| > 0 && segs[0].segmentation.Some?
      ensures p.data == Data(segs) && p.bound == Bound(segs) && p.expected as int == Max(Announced(segs) - 1 - |segs|, 0)
    {
    }

    /** A process fails on a segment, which is discarded. */
    method FailOn(now: nat, p: Process, cause: byte, reason: Reason, u: Unitdata, why: Reason,
                  ghost segs: seq<Unitdata>, ghost deadline: nat, ghost os: Objects, ghost t: Table)
      returns (outs: seq<Out>)
      requires u.segmentation.Some? && |segs| > 0 && segs[0].segmentation.Some?
      requires Apart(p, Live(segs, deadline), os, t) && p.Stores(Live(segs, deadline))
      modifies this, queue, queue.all, p
      ensures Consistent() && reassemblies == old(reassemblies) && fresh(queue.all - old(queue.all))
      ensures var r := Also(KeyFail(cfg, segs, now, old(p.returnOnError), cause, reason), Discarded(u.routing, u.typ, why));
              outs == r.1 && r.0.Some? && table == t[p.key := r.0.value]
    {
      hide Consistent, HashOf, Reject, Apart, Process.Stores;
      outs := FailReassembly(now, p, cause, reason, segs, deadline, os, t);
      outs := outs + [Discarded(u.routing, u.typ, why)];
    }

    /** The next segment is added, or the message delivered. */
    method Extend(p: Process, u: Unitdata, ghost segs: seq<Unitdata>, ghost deadline: nat, ghost os: Objects, ghost t: Table)
      returns (outs: seq<Out>)
      requires Apart(p, Live(segs, deadline), os, t) && p.Stores(Live(segs, deadline)) && p.timer in queue.Running()
      requires IsSegment(u) && |segs| > 0 && segs[0].segmentation.Some?
      requires |segs| < Announced(segs) && Seg(u).remaining as int == Announced(segs) - 1 - |segs|
      requires p.returnOnError == (AnyReturn(segs) || u.protocolClass.returnOnError)
      modifies this, queue, queue.all, p
      ensures Consistent() && fresh(queue.all - old(queue.all)) && reassemblies.Values <= old(reassemblies.Values)
      ensures if Seg(u).remaining > 0 then outs == [] && table == t[p.key := Live(segs + [u], deadline)]
              else outs == [Delivered(IndicationOf(segs + [u]))] && table == t
    {
      hide Consistent, IndicationOf, AnyReturn, Announced, Apart, Process.Stores;
      ghost var e := Live(segs + [u], deadline);
      Push(p, u, segs, deadline, os, t);
      ApartFacts(p, e, os, t);
      if Seg(u).remaining > 0 {
        return [];
      }
      IndicationFacts(p, segs + [u], deadline);
      EndReassembly(p, e, os, t);
      var f := p.first.value;
      outs := [Delivered(Indication(f.routing, f.typ, f.called, f.calling, if Seg(f).inSequence then 1 else 0,
                                    p.returnOnError, f.importance, p.data, p.segments))];
    }

    lemma ApartFacts(p: Process, e: Entry, os: Objects, t: Table)
      requires Apart(p, e, os, t)
      ensures table == t[p.key := e] && os.Values <= reassemblies.Values && p.key !in os && p.key !in t && Current(p)
    {
      hide Counts, TimerQueue.Valid, TimerQueue.Running, Linked, TimersKnown;
      forall q | q in os.Values
        ensures q in reassemblies.Values
      {
        var k :| k in os && os[k] == q;
        assert k in reassemblies && reassemblies[k] == q;
      }
    }

    /** What a complete process says of its message. */
    static lemma IndicationFacts(p: Process, segs: seq<Unitdata>, deadline: nat)
      requires p.Stores(Live(segs, deadline)) && p.returnOnError == AnyReturn(segs)
      ensures |segs| > 0 && segs[0].segmentation.Some? && p.first.Some? && p.first.value.segmentation.Some?
      ensures var f := p.first.value;
              IndicationOf(segs) == Indication(f.routing, f.typ, f.called, f.calling, if Seg(f).inSequence then 1 else 0,
                                               p.returnOnError, f.importance, p.data, p.segments)
    {
      hide AnyReturn, Data, Bound;
    }

    /** A segment joins those held. */
    method Push(p: Process, u: Unitdata, ghost segs: seq<Unitdata>, ghost deadline: nat, ghost os: Objects, ghost t: Table)
      requires Apart(p, Live(segs, deadline), os, t) && p.Stores(Live(segs, deadline)) && p.timer in queue.Running()
      requires IsSegment(u) && |segs| > 0 && segs[0].segmentation.Some?
      requires |segs| < Announced(segs) && Seg(u).remaining as int == Announced(segs) - 1 - |segs|
      requires p.returnOnError == (AnyReturn(segs) || u.protocolClass.returnOnError)
      modifies this, p`data, p`expected
      ensures Consistent() && reassemblies == old(reassemblies) && Current(p)
      ensures Apart(p, Live(segs + [u], deadline), os, t) && p.Stores(Live(segs + [u], deadline))
      ensures p.returnOnError == AnyReturn(segs + [u])
    {
      hide Counts, TimerQueue.Valid, TimerQueue.Running, Linked, Process.Stores, Data, AnyReturn, TimersKnown, Announced;
      ghost var e := Live(segs + [u], deadline);
      ghost var running := queue.Running();
      DataPush(segs, u);
      Grow(p, u, segs, deadline);
      Gain(p.key, u, segs, deadline);
      assert table[p.key := e] == t[p.key := e];
      table := table[p.key := e];
      LinkedEnter(os, t, running - {p.timer}, p, p.timer, e);
      assert running - {p.timer} + {p.timer} == running;
      KnownEnter(os, p, queue.all);
    }

    /** The octets of a segment are counted. */
    method Gain(k: Key, u: Unitdata, ghost segs: seq<Unitdata>, ghost deadline: nat)
      requires Counts(table) && k in table && table[k] == Live(segs, deadline)
      modifies this`reassemblyOctets, this`peerOctets
      ensures Counts(table[k := Live(segs + [u], deadline)])
    {
      hide Slots, Orphans, Octets, PeerOctets, Tallies, PeerPlus, Data;
      ghost var e := Live(segs + [u], deadline);
      DataPush(segs, u);
      TallyPut(peerOctets, table, k, Some(e));
      CountPut(table, k, Some(e));
      assert Put(table, k, Some(e)) == table[k := e];
      Hold(PeerOf(k), |u.data|);
    }

    static method Grow(p: Process, u: Unitdata, ghost segs: seq<Unitdata>, ghost deadline: nat)
      requires p.Stores(Live(segs, deadline)) && u.segmentation.Some?
      requires |segs| < Announced(segs) && Seg(u).remaining as int == Announced(segs) - 1 - |segs|
      modifies p`data, p`expected
      ensures p.Stores(Live(segs + [u], deadline))
    {
      DataPush(segs, u);
      assert (segs + [u])[0] == segs[0];
      hide Data;
      p.data := p.data + u.data;
      if Seg(u).remaining > 0 {
        p.expected := p.expected - 1;
      }
    }

    /** One segment. barrier is the cause for which the subsystem cannot receive, if any. */
    method Reassemble(now: nat, u: Unitdata, barrier: Option<byte>) returns (outs: seq<Out>)
      requires Valid() && IsSegment(u)
      modifies this, queue, queue.all, reassemblies.Values
      ensures Valid() && fresh(queue.all - old(queue.all)) && fresh(reassemblies.Values - old(reassemblies.Values))
      ensures (table, outs) == Receive(cfg, old(table), now, u, barrier)
    {
      ghost var t := table;
      var calling := EncodeAddress(u.calling);
      if calling == None {
        return [Discarded(u.routing, u.typ, CallingAddress)];
      }
      var key := Key(u.routing, calling.value, Seg(u).reference);
      outs := ReassembleKey(now, key, u, barrier);
      StepKeepsGood(cfg, t, Segment(now, u, barrier));
      GoodIsValid(cfg, table);
    }

    method ReassembleKey(now: nat, key: Key, u: Unitdata, barrier: Option<byte>) returns (outs: seq<Out>)
      requires Valid() && IsSegment(u) && KeyOf(u) == Some(key)
      modifies this, queue, queue.all, reassemblies.Values
      ensures Consistent() && fresh(queue.all - old(queue.all)) && fresh(reassemblies.Values - old(reassemblies.Values))
      ensures ValidEntry(Get(old(table), key))
      ensures var r := KeyReceive(cfg, Get(old(table), key), RoomFor(cfg, old(table), key, |u.data|), now, u, barrier);
              table == Put(old(table), key, r.0) && outs == r.1
    {
      hide Consistent, Put, Start, Collide, Continue, Apart, Process.Stores, RoomFor, StartsAfresh, ValidTable, Good;
      ghost var t, room := table, RoomFor(cfg, table, key, |u.data|);
      EntryHere(key);
      if key !in reassemblies {
        outs := StartProcess(now, key, u, barrier, room);
        return;
      }
      var p := reassemblies[key];
      ghost var e := table[key];
      TakeApart(p);
      KindFacts(p, e);
      if p.failed {
        RecordHash(p, cfg, e, u);
        if !Seg(u).first || !p.firstKnown || p.firstHash == HashOf(cfg, u) {
          PutSame(t, key);
          return [Discarded(u.routing, u.typ, FailedMessage)];
        }
        outs := ReplaceRecord(now, p, u, barrier, e, reassemblies - {key}, t - {key}, room);
      } else if Seg(u).first {
        outs := CollideProcess(now, p, u, barrier, e, reassemblies - {key}, t - {key}, room);
      } else {
        outs := ContinueProcess(now, p, u, barrier, e.segments, e.deadline, room);
      }
    }

    lemma EntryHere(key: Key)
      requires Valid()
      ensures key in reassemblies <==> key in table
      ensures ValidEntry(Get(table, key))
      ensures key in table && table[key].Live? ==> |table[key].segments| < Announced(table[key].segments)
      ensures key in reassemblies ==> reassemblies[key].key == key && Current(reassemblies[key])
    {
      hide Counts, TimerQueue.Valid, TimerQueue.Running, WithinBounds, Data, Announced, InSequence, Process.Stores, AnyReturn;
      assert key in reassemblies.Keys <==> key in table.Keys;
      if key in reassemblies {
        assert Stored(reassemblies[key], key, table[key], queue.Running());
        assert GoodEntry(key, table[key]);
      }
    }

    static lemma KindFacts(p: Process, e: Entry)
      requires p.Stores(e)
      ensures p.failed == e.Failed?
      ensures !p.failed ==> |e.segments| > 0 && p.first.Some? && p.first.value == e.segments[0].(data := [])
    {
    }

    static lemma RecordHash(p: Process, cfg: Config, e: Entry, u: Unitdata)
      requires p.Stores(e) && e.Failed? && u.segmentation.Some?
      ensures StartsAfresh(cfg, e, u) == (Seg(u).first && p.firstKnown && p.firstHash != HashOf(cfg, u))
    {
      hide HashOf;
    }

    /** The first segment of a new message takes the place of the record of an old one. */
    method ReplaceRecord(now: nat, p: Process, u: Unitdata, barrier: Option<byte>,
                         ghost e: Entry, ghost os: Objects, ghost t: Table, ghost room: Room)
      returns (outs: seq<Out>)
      requires Apart(p, e, os, t) && p.Stores(e) && e.Failed? && IsSegment(u) && Current(p)
      requires room == RoomFor(cfg, table, p.key, |u.data|)
      modifies this, queue, queue.all
      ensures Consistent() && fresh(queue.all - old(queue.all)) && fresh(reassemblies.Values - old(reassemblies.Values))
      ensures var r := Start(cfg, room, now, u, barrier); table == Put(old(table), p.key, r.0) && outs == r.1
    {
      hide Consistent, Put, Start, Apart, Process.Stores, RoomFor;
      ApartFacts(p, e, os, t);
      RoomStays(cfg, t, p.key, e, |u.data|);
      EndReassembly(p, e, os, t);
      outs := StartProcess(now, p.key, u, barrier, room);
      PutTwice(t, p.key, e);
    }

    /** A first segment for a busy reference ends the process and is rejected. */
    method CollideProcess(now: nat, p: Process, u: Unitdata, barrier: Option<byte>,
                          ghost e: Entry, ghost os: Objects, ghost t: Table, ghost room: Room)
      returns (outs: seq<Out>)
      requires Apart(p, e, os, t) && p.Stores(e) && e.Live? && IsSegment(u) && Current(p)
      requires |e.segments| > 0 && p.first.Some? && p.first.value == e.segments[0].(data := [])
      requires room == RoomFor(cfg, table, p.key, |u.data|)
      modifies this, queue, queue.all
      ensures Consistent() && fresh(queue.all - old(queue.all)) && fresh(reassemblies.Values - old(reassemblies.Values))
      ensures var r := Collide(cfg, e.segments, room, now, u, barrier); table == Put(old(table), p.key, r.0) && outs == r.1
    {
      hide Consistent, Put, KeyReject, Apart, Process.Stores, RoomFor;
      ApartFacts(p, e, os, t);
      RecordRoom(cfg, t, p.key, e, |u.data|);
      EndReassembly(p, e, os, t);
      var cause, reason := ERROR_IN_TRANSPORT, BusyReference;
      if barrier.Some? {
        cause, reason := barrier.value, Undeliverable(barrier.value);
      }
      outs := RejectSegment(now, p.key, u, cause, reason, room);
      outs := [Discarded(p.first.value.routing, p.first.value.typ, NewFirstSegment)] + outs;
      PutTwice(t, p.key, e);
    }

    /** The earliest timer fires: it leaves the heap and runs its action. */
    method FireEarliest(now: nat) returns (outs: seq<Out>, ghost k: Key)
      requires Valid() && |queue.timers| > 0 && queue.timers[0].deadline <= now
      modifies this, queue, queue.all, reassemblies.Values
      ensures Valid() && reassemblies.Values <= old(reassemblies.Values) && fresh(queue.all - old(queue.all))
      ensures k in old(table) && old(table)[k].deadline <= now
      ensures forall j :: j in old(table) ==> old(table)[k].deadline <= old(table)[j].deadline
      ensures (table, outs) == Timeout(cfg, old(table), now, k)
      ensures queue.Due(now) < old(queue.Due(now))
    {
      hide Consistent, Good, ValidTable, Apart, Process.Stores, TimerQueue.Valid, TimerQueue.Running, TimerQueue.Due, Timeout;
      ValidFacts();
      var p := queue.timers[0].action.process;
      k := p.key;
      EarliestFacts();
      ghost var t, e := table, table[k];
      ghost var due, tm := queue.Due(now), queue.timers[0];
      forall m: Timer<Action> | m in queue.Running() && m.deadline <= now
        ensures m in due
      {
        queue.DueIsRunning(now, m);
      }
      TakeApart(p);
      outs := FireTimer(now, p, e, reassemblies - {k}, t - {k});
      forall m: Timer<Action> | m in queue.Due(now)
        ensures m in due && m != tm
      {
        queue.DueIsRunning(now, m);
      }
      FireKeepsGood(cfg, t, now, k);
    }

    static lemma FireKeepsGood(cfg: Config, t: Table, now: nat, k: Key)
      requires Good(cfg, t) && ValidTable(t) && k in t && t[k].deadline <= now
      ensures var u := Timeout(cfg, t, now, k).0; Good(cfg, u) && ValidTable(u)
    {
      hide Good, Timeout, ValidTable;
      StepKeepsGood(cfg, t, Fire(now, k));
      GoodIsValid(cfg, Timeout(cfg, t, now, k).0);
    }

    method FireTimer(now: nat, p: Process, ghost e: Entry, ghost os: Objects, ghost t: Table) returns (outs: seq<Out>)
      requires Apart(p, e, os, t) && p.Stores(e) && |queue.timers| > 0 && queue.timers[0] == p.timer
      requires (e.Live? ==> p.returnOnError == AnyReturn(e.segments)) && ValidEntry(Some(e)) && ValidTable(table)
      requires queue.timers[0].action == p.ActionOf(e) && p.timer in queue.Running()
      modifies this, queue, queue.all, p
      ensures Consistent() && reassemblies.Values <= old(reassemblies.Values) && fresh(queue.all - old(queue.all))
      ensures old(p.key in table) && (table, outs) == Timeout(cfg, old(table), now, p.key)
      ensures forall tm :: tm in queue.Running() ==>
                (tm in old(queue.Running()) && tm != old(p.timer)) || tm.deadline == now + cfg.timeout
    {
      hide Consistent, Apart, Process.Stores, TimerQueue.Valid, TimerQueue.Running, HashOf, Reject, ValidTable;
      ApartFacts(p, e, os, t);
      KindFacts(p, e);
      TimeoutCases(cfg, t, now, p.key, e);
      var tm := PopApart(p, e, os, t);
      if tm.action.TimeOut? {
        outs := FailReassembly(now, p, ERROR_IN_TRANSPORT, Expired, e.segments, e.deadline, os, t);
      } else {
        EndReassembly(p, e, os, t);
        outs := [];
      }
    }

    /** The earliest timer is that of an entry of the table, and no entry is due before it. */
    lemma EarliestFacts()
      requires Valid() && |queue.timers| > 0
      ensures var tm := queue.timers[0];
              var p := tm.action.process;
              && Current(p) && p.timer == tm && p.key in table && table[p.key].deadline == tm.deadline && ValidEntry(Some(table[p.key]))
              && tm.action == p.ActionOf(table[p.key])
              && forall j :: j in table ==> tm.deadline <= table[j].deadline
    {
      hide Counts, Good, Process.Holds;
      var tm := queue.timers[0];
      var p := tm.action.process;
      assert Owned(tm, reassemblies);
      assert Stored(p, p.key, table[p.key], queue.Running());
      forall j | j in table
        ensures tm.deadline <= table[j].deadline
      {
        assert j in reassemblies.Keys;
        assert Stored(reassemblies[j], j, table[j], queue.Running());
        var i :| 0 <= i < |queue.timers| && queue.timers[i] == reassemblies[j].timer;
        RootIsEarliest(queue.Deadlines(), i);
      }
    }

    /** The earliest timer leaves the heap. */
    method PopApart(p: Process, ghost e: Entry, ghost os: Objects, ghost t: Table) returns (tm: Timer<Action>)
      requires Apart(p, e, os, t) && |queue.timers| > 0 && queue.timers[0] == p.timer
      modifies queue, queue.all
      ensures Apart(p, e, os, t) && tm == p.timer && queue.all == old(queue.all)
      ensures queue.Running() == old(queue.Running()) - {tm}
    {
      hide Counts, TimerQueue.Valid, TimerQueue.Running, Linked, TimersKnown;
      tm := queue.Pop();
      assert old(queue.Running()) - {tm} - {tm} == old(queue.Running()) - {tm};
    }

    /** Every timer that is due fires, earliest first, until none is due. */
    method Expire(now: nat) returns (outs: seq<Out>, ghost ks: seq<Key>)
      requires Valid()
      modifies this, queue, queue.all, reassemblies.Values
      ensures Valid() && reassemblies.Values <= old(reassemblies.Values) && fresh(queue.all - old(queue.all))
      ensures Fires(cfg, old(table), now, ks, table) && outs == FiredOuts(cfg, old(table), now, ks)
      ensures table == ReassemblyRuns.Expired(cfg, old(table), now) && queue.Due(now) == {}
    {
      hide Valid, FiresTo, FiredOuts, Fires, TimerQueue.Due, ReassemblyRuns.Expired, Timeout;
      ValidFacts();
      ghost var t := table;
      outs, ks := [], [];
      FiresNone(cfg, t, now);
      while |queue.timers| > 0 && queue.timers[0].deadline <= now
        invariant Valid() && reassemblies.Values <= old(reassemblies.Values) && fresh(queue.all - old(queue.all))
        invariant FiresTo(cfg, t, now, ks, table) && outs == FiredOuts(cfg, t, now, ks)
        decreases |queue.Due(now)|
      {
        ghost var before, u := queue.Due(now), table;
        ValidFacts();
        var more, k := FireEarliest(now);
        FiresOn(cfg, t, now, ks, u, k);
        Fewer(queue.Due(now), before);
        outs, ks := outs + more, ks + [k];
      }
      NoneDue(now);
      FiresAll(cfg, t, now, ks, table);
      ExpiryConfluent(cfg, t, now, ks, table);
    }

    lemma ValidFacts()
      requires Valid()
      ensures ValidTable(table) && cfg.timeout > 0
    {
    }

    /**
     * Every entry has exactly one running timer, due when the entry is, and the heap holds no other: no timer of a
     * process that has ended is left to fire.
     */
    lemma TimersMatchEntries()
      requires Valid()
      ensures reassemblies.Keys == table.Keys
      ensures forall t :: t in queue.Running() ==>
                var p := t.action.process;
                Current(p) && p.timer == t && t.deadline == table[p.key].deadline && t.action == p.ActionOf(table[p.key])
      ensures forall k :: k in table ==> reassemblies[k].key == k && reassemblies[k].timer in queue.Running()
      ensures forall t, u :: t in queue.Running() && u in queue.Running() && t.action.process == u.action.process ==> t == u
    {
      hide Counts, Good, ValidTable, TimerQueue.Valid, TimerQueue.Running, Process.Holds;
      forall t | t in queue.Running()
        ensures var p := t.action.process;
                Current(p) && p.timer == t && t.deadline == table[p.key].deadline && t.action == p.ActionOf(table[p.key])
      {
        var p := t.action.process;
        assert Owned(t, reassemblies);
        assert Stored(p, p.key, table[p.key], queue.Running());
      }
      forall k | k in table
        ensures reassemblies[k].key == k && reassemblies[k].timer in queue.Running()
      {
        assert k in reassemblies.Keys;
        assert Stored(reassemblies[k], k, table[k], queue.Running());
      }
    }

    lemma NoneDue(now: nat)
      requires Valid() && !(|queue.timers| > 0 && queue.timers[0].deadline <= now)
      ensures queue.Due(now) == {} && forall k :: k in table ==> table[k].deadline > now
    {
      hide Counts, Good, ValidTable;
      forall tm | tm in queue.timers
        ensures tm.deadline > now
      {
        var i :| 0 <= i < |queue.timers| && queue.timers[i] == tm;
        RootIsEarliest(queue.Deadlines(), i);
      }
      forall k | k in table
        ensures table[k].deadline > now
      {
        assert k in reassemblies.Keys;
        assert Stored(reassemblies[k], k, table[k], queue.Running());
      }
    }
  }

  lemma Fewer<T>(a: set<T>, b: set<T>)
    requires a < b
    ensures |a| < |b|
  {
    assert |b| == |a| + |b - a| by { assert a + (b - a) == b && a !! (b - a); }
    var x :| x in b && x !in a;
    assert x in b - a;
  }

  lemma FiresNone(cfg: Config, t: Table, now: nat)
    requires ValidTable(t)
    ensures FiresTo(cfg, t, now, [], t) && FiredOuts(cfg, t, now, []) == []
  {
  }

  lemma TimeoutCases(cfg: Config, t: Table, now: nat, k: Key, e: Entry)
    requires ValidTable(t[k := e]) && ValidEntry(Some(e)) && k !in t
    ensures var r := KeyTimeout(cfg, e, now);
            Timeout(cfg, t[k := e], now, k) == (if r.0.Some? then t[k := r.0.value] else t, r.1)
  {
    hide KeyTimeout;
    assert t[k := e] - {k} == t;
    var x := KeyTimeout(cfg, e, now).0;
    if x.Some? {
      assert t[k := e][k := x.value] == t[k := x.value];
    }
  }

  lemma PutSame(t: Table, k: Key)
    requires k in t
    ensures Put(t, k, Some(t[k])) == t
  {
  }

  lemma PutTwice(t: Table, k: Key, e: Entry)
    requires k !in t
    ensures forall r :: Put(t, k, r) == Put(t[k := e], k, r)
  {
    assert t[k := e] - {k} == t - {k};
  }

  /** A record takes no octets, so that its end makes no room for them. */
  lemma RoomStays(cfg: Config, t: Table, k: Key, e: Entry, n: nat)
    requires k !in t && e.Failed?
    ensures RoomFor(cfg, t[k := e], k, n) == RoomFor(cfg, t, k, n)
  {
    assert t[k := e] - {k} == t - {k};
    WeighUpdate(t, k, e, OctetWeight);
    WeighUpdate(t, k, e, PeerWeight(PeerOf(k)));
  }

  lemma RecordRoom(cfg: Config, t: Table, k: Key, e: Entry, n: nat)
    requires k !in t
    ensures RoomFor(cfg, t[k := e], k, n).record == (Orphans(t) < cfg.maxReassemblies)
  {
    assert t[k := e] - {k} == t;
  }

  lemma StartFacts(p: Process, u: Unitdata, deadline: nat)
    requires u.segmentation.Some? && Seg(u).remaining > 0
    requires p.first == Some(u.(data := [])) && p.expected == Seg(u).remaining - 1
    requires p.segments == Seg(u).remaining as int + 1 && p.bound == |u.data| * p.segments
    requires p.firstLen == |u.data| && p.data == u.data && p.returnOnError == u.protocolClass.returnOnError
    requires !p.failed && !p.orphan
    ensures p.Holds(Live([u], deadline)) && p.ActionOf(Live([u], deadline)) == TimeOut(p)
    ensures p.returnOnError == AnyReturn([u])
  {
    DataOne(u);
  }

  /** The record of a message that had no process. */
  ghost function RecordOf(cfg: Config, now: nat, u: Unitdata): Entry
    requires u.segmentation.Some?
  {
    Failed(true, if Seg(u).first then Some(HashOf(cfg, u)) else None, now + cfg.timeout)
  }

  lemma RejectCases(cfg: Config, room: Room, now: nat, u: Unitdata, cause: byte, reason: Reason)
    requires u.segmentation.Some?
    ensures KeyReject(cfg, room, now, u, cause, reason)
            == if room.record then (Some(RecordOf(cfg, now, u)), Reject(u, u.protocolClass.returnOnError, cause, reason))
               else (None, [Discarded(u.routing, u.typ, Unrecorded(reason))])
  {
  }

  lemma PutCases(t: Table, k: Key)
    ensures Put(t, k, None) == t - {k} && (k !in t ==> Put(t, k, None) == t)
    ensures forall e :: Put(t, k, Some(e)) == t[k := e]
  {
  }
}
