/**
 * The connection procedures as the stack runs them: section objects in a map, changed in place, six timer handles each,
 * counters kept beside them, and timers in a heap. The class refines the machine over values of Connections.
 */
module ConnectionStacks {
  import opened Basics
  import opened Fields
  import opened Address
  import opened Messages
  import opened Timers
  import opened Connections
  import opened ConnectionRuns
  import opened ConnectionExpiry
  import References

  datatype Action = Action(section: SectionObject, kind: TimerKind)

  type Handle = Timer<Action>

  datatype State = IncomingPending | OutgoingPending | DataTransfer | ReleasePending | FrozenReference

  /** A connection section. unfreeze stands for the timer that only the heap refers to. */
  class SectionObject {
    const ref: u32
    var state: State
    var remoteRef: u32
    var remote: RoutingLabel
    var establishment: Timer?<Action>
    var releaseTimer: Timer?<Action>
    var repeatRelease: Timer?<Action>
    var giveUp: Timer?<Action>
    var sendInactivity: Timer?<Action>
    var receiveInactivity: Timer?<Action>
    var reassembly: bytes
    var capacity: nat
    var releaseMessage: Option<Message>
    var disconnect: Option<Disconnection>
    ghost var unfreeze: Timer?<Action>

    constructor (ref: u32, state: State, remoteRef: u32, remote: RoutingLabel)
      ensures this.ref == ref && this.state == state && this.remoteRef == remoteRef && this.remote == remote
      ensures Handles() == {} && unfreeze == null && reassembly == [] && capacity == 0 && disconnect == None
    {
      this.ref, this.state, this.remoteRef, this.remote := ref, state, remoteRef, remote;
      establishment, releaseTimer, repeatRelease, giveUp, sendInactivity, receiveInactivity := null, null, null, null, null, null;
      reassembly, capacity, releaseMessage, disconnect, unfreeze := [], 0, None, None, null;
    }

    /** The timers the object refers to, running or not. */
    ghost function Handles(): (hs: set<Handle>)
      reads this`establishment, this`releaseTimer, this`repeatRelease, this`giveUp, this`sendInactivity, this`receiveInactivity, this`unfreeze
    {
      (if establishment == null then {} else {establishment}) + (if releaseTimer == null then {} else {releaseTimer})
      + (if repeatRelease == null then {} else {repeatRelease}) + (if giveUp == null then {} else {giveUp})
      + (if sendInactivity == null then {} else {sendInactivity}) + (if receiveInactivity == null then {} else {receiveInactivity})
      + (if unfreeze == null then {} else {unfreeze})
    }

    /** The handle is a timer of this object that does kind at the deadline. */
    ghost predicate Runs(t: Timer?<Action>, kind: TimerKind, deadline: nat) {
      t != null && t.deadline == deadline && t.action == Action(this, kind)
    }

    /** The object's fields say what the section says. */
    ghost predicate Stores(c: Section)
      reads this
    {
      && (!c.Frozen? ==> unfreeze == null)
      && match c
         case Incoming(r, l) => state == IncomingPending && remoteRef == r && remote == l && capacity == 0 && reassembly == [] && disconnect == None
         case Outgoing(l, t, d) =>
           && state == OutgoingPending && remote == l && remoteRef == 0 && disconnect == d && capacity == 0 && reassembly == []
           && Runs(establishment, TEstablishment, t)
         case Established(r, l, ias, iar, data, n) =>
           && state == DataTransfer && remoteRef == r && remote == l && reassembly == data && capacity == n && disconnect == None
           && Runs(sendInactivity, TSend, ias) && Runs(receiveInactivity, TReceive, iar)
         case Releasing(r, l, m, wait) =>
           && state == ReleasePending && remoteRef == r && remote == l && capacity == 0 && reassembly == [] && releaseMessage == Some(m)
           && disconnect == None && sendInactivity == null
           && (match wait
               case First(t) => Runs(releaseTimer, TRelease, t)
               case Repeating(t, None) => Runs(giveUp, TGiveUp, t)
               case Repeating(t, Some(u)) => Runs(giveUp, TGiveUp, t) && Runs(repeatRelease, TRepeat, u))
         case Frozen(t) => state == FrozenReference && capacity == 0 && Runs(unfreeze, TUnfreeze, t)
    }

    /** Every handle is a timer of this object. */
    ghost predicate OwnHandles()
      reads this`establishment, this`releaseTimer, this`repeatRelease, this`giveUp, this`sendInactivity, this`receiveInactivity, this`unfreeze
    {
      forall h :: h in Handles() ==> h.action.section == this
    }

    /** The timers that run while the object stores the section. */
    ghost function Running(c: Section): (hs: set<Handle>)
      requires Stores(c)
      reads this
    {
      match c
      case Incoming(_, _) => {}
      case Outgoing(_, _, _) => {establishment}
      case Established(_, _, _, _, _, _) => {sendInactivity, receiveInactivity}
      case Releasing(_, _, _, First(_)) => {releaseTimer}
      case Releasing(_, _, _, Repeating(_, None)) => {giveUp}
      case Releasing(_, _, _, Repeating(_, Some(_))) => {giveUp, repeatRelease}
      case Frozen(_) => {unfreeze}
    }

    lemma HandleList()
      requires unfreeze == null
      ensures var hs := [establishment, releaseTimer, repeatRelease, giveUp, sendInactivity, receiveInactivity];
              && (forall h :: h in Handles() ==> h in hs)
              && (forall h: Timer?<Action> :: h in hs && h != null ==> h in Handles())
    {
    }

    lemma InHandles()
      ensures sendInactivity != null ==> sendInactivity in Handles()
      ensures receiveInactivity != null ==> receiveInactivity in Handles()
      ensures establishment != null ==> establishment in Handles()
    {
    }

    method Clear()
      requires unfreeze == null
      modifies this`establishment, this`releaseTimer, this`repeatRelease, this`giveUp, this`sendInactivity, this`receiveInactivity
      ensures Handles() == {}
    {
      establishment, releaseTimer, repeatRelease := null, null, null;
      giveUp, sendInactivity, receiveInactivity := null, null, null;
    }

    method SetEstablishment(h: Timer?<Action>)
      requires OwnHandles() && (h != null ==> h.action.section == this)
      modifies this`establishment
      ensures establishment == h && OwnHandles() && (h != null ==> h in Handles())
      ensures forall x :: x in Handles() ==> x in old(Handles()) || x == h
    {
      establishment := h;
    }

    method SetRelease(h: Timer?<Action>)
      requires OwnHandles() && (h != null ==> h.action.section == this)
      modifies this`releaseTimer
      ensures releaseTimer == h && OwnHandles() && (h != null ==> h in Handles())
      ensures forall x :: x in Handles() ==> x in old(Handles()) || x == h
    {
      releaseTimer := h;
    }

    method SetRepeat(h: Timer?<Action>)
      requires OwnHandles() && (h != null ==> h.action.section == this)
      modifies this`repeatRelease
      ensures repeatRelease == h && OwnHandles() && (h != null ==> h in Handles())
      ensures forall x :: x in Handles() ==> x in old(Handles()) || x == h
    {
      repeatRelease := h;
    }

    method SetGiveUp(h: Timer?<Action>)
      requires OwnHandles() && (h != null ==> h.action.section == this)
      modifies this`giveUp
      ensures giveUp == h && OwnHandles() && (h != null ==> h in Handles())
      ensures forall x :: x in Handles() ==> x in old(Handles()) || x == h
    {
      giveUp := h;
    }

    method SetSend(h: Timer?<Action>)
      requires OwnHandles() && (h != null ==> h.action.section == this)
      modifies this`sendInactivity
      ensures sendInactivity == h && OwnHandles() && (h != null ==> h in Handles())
      ensures forall x :: x in Handles() ==> x in old(Handles()) || x == h
    {
      sendInactivity := h;
    }

    method SetReceive(h: Timer?<Action>)
      requires OwnHandles() && (h != null ==> h.action.section == this)
      modifies this`receiveInactivity
      ensures receiveInactivity == h && OwnHandles() && (h != null ==> h in Handles())
      ensures forall x :: x in Handles() ==> x in old(Handles()) || x == h
    {
      receiveInactivity := h;
    }

    /** An object runs at most one timer of each kind. */
    lemma RunningOnce(c: Section, t: Handle, u: Handle)
      requires Stores(c) && t in Running(c) && u in Running(c) && t.action == u.action
      ensures t == u
    {
    }

    lemma RunningHandles(c: Section)
      requires Stores(c)
      ensures Running(c) <= Handles() && forall t :: t in Running(c) ==> t.action.section == this
      ensures forall t :: t in Running(c) ==> t.action.kind in Deadlines(c) && Deadlines(c)[t.action.kind] == t.deadline
      ensures forall kind :: kind in Deadlines(c) ==> exists t :: t in Running(c) && t.action.kind == kind && t.deadline == Deadlines(c)[kind]
    {
    }
  }

  // ----- Objects, timers and sections -----

  type Objects = map<nat, SectionObject>

  ghost predicate Stored(p: SectionObject, ref: nat, c: Section, running: set<Handle>, all: set<Handle>)
    reads p
  {
    p.ref == ref && p.Stores(c) && p.Running(c) <= running && p.Handles() <= all && p.OwnHandles()
  }

  /** A running timer is one that runs in the state of an object that is in the map. */
  ghost predicate Owned(t: Handle, os: Objects, s: Sections)
    reads os.Values
  {
    var ref: nat := t.action.section.ref;
    ref in os && ref in s && os[ref] == t.action.section && os[ref].Stores(s[ref]) && t in os[ref].Running(s[ref])
  }

  /** Each section has its object, exactly the timers of its state run, and no timer of anything else runs. */
  ghost predicate Linked(os: Objects, s: Sections, running: set<Handle>, all: set<Handle>)
    reads os.Values
  {
    && s.Keys == os.Keys
    && (forall ref :: ref in os ==> Stored(os[ref], ref, s[ref], running, all))
    && (forall t :: t in running ==> Owned(t, os, s))
  }

  lemma StoredMore(os: Objects, s: Sections, rest: set<Handle>, all: set<Handle>, more: set<Handle>, ref: nat)
    requires Linked(os, s, rest, all) && ref in os && rest <= more
    ensures ref in s && Stored(os[ref], ref, s[ref], more, all)
  {
    hide SectionObject.Stores, SectionObject.Running, SectionObject.Handles, SectionObject.OwnHandles, Owned;
  }

  lemma OwnedMore(os: Objects, s: Sections, rest: set<Handle>, all: set<Handle>, p: SectionObject, c: Section, t: Handle)
    requires Linked(os, s, rest, all) && p.ref as nat !in os && t in rest
    ensures Owned(t, os[p.ref := p], s[p.ref := c])
  {
    hide SectionObject.Stores, SectionObject.Running, SectionObject.Handles, SectionObject.OwnHandles, Stored;
    assert Owned(t, os, s);
  }

  lemma OwnNow(os: Objects, s: Sections, p: SectionObject, c: Section, t: Handle)
    requires p.Stores(c) && t in p.Running(c)
    ensures Owned(t, os[p.ref := p], s[p.ref := c])
  {
    p.RunningHandles(c);
    hide SectionObject.Stores, SectionObject.Running, SectionObject.Handles;
  }

  lemma LinkedEnter(os: Objects, s: Sections, rest: set<Handle>, all: set<Handle>, p: SectionObject, c: Section)
    requires Linked(os, s, rest, all) && p.ref as nat !in os && p.Stores(c) && p.Handles() <= all && p.OwnHandles()
    ensures Linked(os[p.ref := p], s[p.ref := c], rest + p.Running(c), all)
  {
    hide SectionObject.Stores, SectionObject.Running, SectionObject.Handles, SectionObject.OwnHandles, Owned;
    var os', s', running := os[p.ref := p], s[p.ref := c], rest + p.Running(c);
    forall ref | ref in os'
      ensures ref in s' && Stored(os'[ref], ref, s'[ref], running, all)
    {
      if ref != p.ref as nat {
        StoredMore(os, s, rest, all, running, ref);
      }
    }
    forall t | t in running
      ensures Owned(t, os', s')
    {
      if t in rest {
        OwnedMore(os, s, rest, all, p, c, t);
      } else {
        OwnNow(os, s, p, c, t);
      }
    }
  }

  lemma StoredHere(os: Objects, s: Sections, running: set<Handle>, all: set<Handle>, ref: nat)
    requires Linked(os, s, running, all) && ref in os
    ensures ref in s && Stored(os[ref], ref, s[ref], running, all)
  {
  }

  /** No two sections share a running timer. */
  lemma RunningDisjoint(os: Objects, s: Sections, running: set<Handle>, all: set<Handle>, j: nat, k: nat)
    requires Linked(os, s, running, all) && j in os && k in os && j != k
    ensures j in s && k in s && os[j].Stores(s[j]) && os[k].Stores(s[k]) && os[j].Running(s[j]) !! os[k].Running(s[k])
  {
    StoredHere(os, s, running, all, j);
    StoredHere(os, s, running, all, k);
    os[j].RunningHandles(s[j]);
    os[k].RunningHandles(s[k]);
    hide SectionObject.Stores, SectionObject.Running;
  }

  lemma LinkedDrop(os: Objects, s: Sections, running: set<Handle>, all: set<Handle>, p: SectionObject)
    requires Linked(os, s, running, all) && p.ref as nat in os && os[p.ref] == p
    ensures p.ref as nat in s && p.Stores(s[p.ref]) && p.Running(s[p.ref]) <= running && p.Handles() <= all && p.OwnHandles()
    ensures Linked(os - {p.ref}, s - {p.ref}, running - p.Running(s[p.ref]), all)
  {
    hide SectionObject.Stores, SectionObject.Running, SectionObject.Handles, SectionObject.OwnHandles;
    StoredHere(os, s, running, all, p.ref);
    forall k | k in os && k != p.ref as nat
      ensures k in s && os[k].Stores(s[k]) && os[k].Running(s[k]) !! p.Running(s[p.ref])
    {
      RunningDisjoint(os, s, running, all, k, p.ref);
    }
  }

  lemma LinkedMore(os: Objects, s: Sections, running: set<Handle>, all: set<Handle>, more: set<Handle>)
    requires Linked(os, s, running, all) && all <= more
    ensures Linked(os, s, running, more)
  {
    hide SectionObject.Stores, SectionObject.Running, SectionObject.Handles, Owned;
  }

  lemma NotAmong(os: Objects, s: Sections, running: set<Handle>, all: set<Handle>, p: SectionObject)
    requires Linked(os, s, running, all) && p.ref as nat !in os
    ensures p !in os.Values
  {
    hide SectionObject.Stores, SectionObject.Running, SectionObject.Handles, SectionObject.OwnHandles;
    forall k | k in os
      ensures os[k] != p
    {
      StoredHere(os, s, running, all, k);
    }
  }

  class ConnectionStack {
    const cfg: Config
    const queue: TimerQueue<Action>
    var sections: Objects
    var next: nat
    var sls: byte
    var active: int
    var reassemblyOctets: int
    ghost var table: Sections

    ghost predicate Consistent()
      reads this`sections, this`table, this`active, this`reassemblyOctets, sections.Values, queue, queue.all
    {
      && queue.Valid() && ValidConfig(cfg) && Linked(sections, table, queue.Running(), queue.all)
      && active == Active(table) && reassemblyOctets == Held(table)
    }

    ghost function View(): Stack
      reads this
    {
      Stack(table, next, sls)
    }

    ghost predicate Valid()
      reads this, sections.Values, queue, queue.all
    {
      Consistent() && Good(cfg, View()) && ValidSections(table)
    }

    constructor (cfg: Config)
      requires ValidConfig(cfg)
      ensures Valid() && this.cfg == cfg && View() == Stack(map[], 1, 0) && fresh(queue) && fresh(queue.all)
    {
      this.cfg := cfg;
      queue := new TimerQueue();
      sections, next, sls, active, reassemblyOctets := map[], 1, 0, 0, 0;
      table := map[];
    }

    /** Section p, of which the timers mine run, taken apart from the others, os and s. */
    ghost predicate Apart(p: SectionObject, os: Objects, s: Sections, mine: set<Handle>)
      reads this`sections, this`active, os.Values, queue, queue.all
    {
      && queue.Valid() && ValidConfig(cfg) && Linked(os, s, queue.Running() - mine, queue.all) && mine <= queue.Running()
      && p.ref as nat !in os && p !in os.Values && sections == os[p.ref := p] && active == Active(s) + 1
    }

    /** Its handles are known to the queue, and its buffer counts. */
    ghost predicate Counts(p: SectionObject, s: Sections)
      reads this`reassemblyOctets, queue`all, p`capacity
      reads p`establishment, p`releaseTimer, p`repeatRelease, p`giveUp, p`sendInactivity, p`receiveInactivity, p`unfreeze
    {
      p.Handles() <= queue.all && p.OwnHandles() && p.unfreeze == null && reassemblyOctets == Held(s) + p.capacity
    }

    predicate Current(p: SectionObject)
      reads this`sections
    {
      p.ref as nat in sections && sections[p.ref] == p
    }

    lemma TakeApart(p: SectionObject)
      requires Consistent() && Current(p)
      ensures p.ref as nat in table && p.Stores(table[p.ref])
      ensures !table[p.ref].Frozen? ==>
                Apart(p, sections - {p.ref}, table - {p.ref}, p.Running(table[p.ref])) && Counts(p, table - {p.ref})
    {
      hide TimerQueue.Valid, TimerQueue.Running, SectionObject.Running, SectionObject.Handles, SectionObject.OwnHandles, Active, Held;
      LinkedDrop(sections, table, queue.Running(), queue.all, p);
      var c := table[p.ref];
      var os, s := sections - {p.ref}, table - {p.ref};
      NotAmong(os, s, queue.Running() - p.Running(c), queue.all, p);
      assert os[p.ref := p] == sections;
      if !c.Frozen? {
        DropCounts(table, p.ref);
        p.RunningHandles(c);
      }
    }

    /** The section is put back among the others, as c. */
    ghost method Close(p: SectionObject, c: Section, os: Objects, s: Sections, mine: set<Handle>)
      requires Apart(p, os, s, mine) && Counts(p, s) && p.Stores(c) && mine == p.Running(c) && !c.Frozen?
      modifies this`table
      ensures Consistent() && table == s[p.ref := c]
    {
      hide TimerQueue.Valid, TimerQueue.Running, SectionObject.Running, SectionObject.Handles, SectionObject.OwnHandles, Active, Held;
      LinkedEnter(os, s, queue.Running() - mine, queue.all, p, c);
      assert queue.Running() - mine + mine == queue.Running();
      EnterCounts(os, s, queue.Running() - mine, queue.all, p.ref, c);
      table := s[p.ref := c];
    }

    // ----- Timers and messages of one section -----

    method StopTimer(h: Timer?<Action>, ghost p: SectionObject, ghost os: Objects, ghost s: Sections, ghost mine: set<Handle>)
      requires Apart(p, os, s, mine) && (h != null ==> h in queue.all && (h in queue.Running() ==> h in mine))
      modifies queue, queue.all
      ensures queue.all == old(queue.all)
      ensures h == null ==> Apart(p, os, s, mine) && queue.Running() == old(queue.Running())
      ensures h != null ==> Apart(p, os, s, mine - {h}) && queue.Running() == old(queue.Running()) - {h}
    {
      hide TimerQueue.Valid, TimerQueue.Running, Linked, Active;
      if h != null {
        ghost var running := queue.Running();
        queue.Stop(h);
        assert running - {h} - (mine - {h}) == running - mine;
      }
    }

    /** A timer of the section starts. */
    method StartTimer(p: SectionObject, kind: TimerKind, deadline: nat, ghost os: Objects, ghost s: Sections, ghost mine: set<Handle>)
      returns (h: Handle)
      requires Apart(p, os, s, mine)
      modifies queue, queue.all
      ensures Apart(p, os, s, mine + {h}) && p.Runs(h, kind, deadline) && fresh(h)
      ensures queue.all == old(queue.all) + {h} && queue.Running() == old(queue.Running()) + {h}
    {
      hide TimerQueue.Valid, TimerQueue.Running, Linked, Active;
      ghost var running, all := queue.Running(), queue.all;
      h := queue.Schedule(deadline, Action(p, kind));
      LinkedMore(os, s, running - mine, all, queue.all);
      assert queue.Running() - (mine + {h}) == running - mine;
    }

    /** A timer of the section that runs is one of those that are said to. */
    lemma MineExact(p: SectionObject, os: Objects, s: Sections, mine: set<Handle>, h: Handle)
      requires Apart(p, os, s, mine) && h.action.section == p && h in queue.Running()
      ensures h in mine
    {
      hide TimerQueue.Valid, TimerQueue.Running, SectionObject.Stores, SectionObject.Running, SectionObject.Handles, Active;
      assert h in queue.Running() - mine ==> Owned(h, os, s);
    }

    lemma ApartFacts(p: SectionObject, os: Objects, s: Sections, mine: set<Handle>)
      requires Apart(p, os, s, mine)
      ensures p !in os.Values && p.ref as nat !in os && p.ref as nat !in s && sections == os[p.ref := p]
      ensures ValidConfig(cfg) && mine <= queue.Running()
    {
      hide TimerQueue.Valid, TimerQueue.Running, Active;
      assert s.Keys == os.Keys;
    }

    /** Stops a handle of the section. */
    method StopHandle(h: Timer?<Action>, p: SectionObject, ghost os: Objects, ghost s: Sections, ghost mine: set<Handle>)
      requires Apart(p, os, s, mine) && Counts(p, s) && (h != null ==> h in p.Handles())
      modifies queue, queue.all
      ensures queue.all == old(queue.all) && Counts(p, s)
      ensures h == null ==> Apart(p, os, s, mine) && queue.Running() == old(queue.Running())
      ensures h != null ==> Apart(p, os, s, mine - {h}) && queue.Running() == old(queue.Running()) - {h}
    {
      hide TimerQueue.Valid, TimerQueue.Running, Apart, SectionObject.Handles, Held;
      if h != null && h in queue.Running() {
        MineExact(p, os, s, mine, h);
      }
      StopTimer(h, p, os, s, mine);
    }

    method DropReassembly(p: SectionObject, ghost s: Sections)
      requires Counts(p, s)
      modifies this`reassemblyOctets, p`reassembly, p`capacity
      ensures Counts(p, s) && p.reassembly == [] && p.capacity == 0
    {
      hide SectionObject.Handles, Held;
      reassemblyOctets := reassemblyOctets - p.capacity;
      p.reassembly, p.capacity := [], 0;
    }

    /** Stops the handles in turn. */
    method StopAll(hs: seq<Timer?<Action>>, p: SectionObject, ghost os: Objects, ghost s: Sections, ghost mine: set<Handle>)
      requires Apart(p, os, s, mine) && Counts(p, s) && (forall h :: h in mine ==> h in hs)
      requires forall h: Timer?<Action> :: h in hs && h != null ==> h in p.Handles()
      modifies queue, queue.all
      ensures Apart(p, os, s, {}) && queue.all == old(queue.all) && Counts(p, s)
      ensures queue.Running() <= old(queue.Running())
    {
      hide Apart, Counts, TimerQueue.Running, TimerQueue.Valid, SectionObject.Handles;
      ghost var left := mine;
      var i := 0;
      while i < |hs|
        invariant i <= |hs| && Apart(p, os, s, left) && Counts(p, s) && queue.all == old(queue.all)
        invariant left <= mine && queue.Running() <= old(queue.Running())
        invariant forall k :: 0 <= k < i ==> hs[k] !in left
      {
        StopHandle(hs[i], p, os, s, left);
        if hs[i] != null {
          left := left - {hs[i]};
        }
        i := i + 1;
      }
      assert left == {};
    }

    /** stopConnectionTimers: every handle is stopped and cleared, the buffer dropped, a deferred disconnect forgotten. */
    method StopTimers(p: SectionObject, ghost os: Objects, ghost s: Sections, ghost mine: set<Handle>)
      requires Apart(p, os, s, mine) && Counts(p, s) && mine <= p.Handles()
      modifies this`reassemblyOctets, queue, queue.all, p
      ensures Apart(p, os, s, {}) && Counts(p, s) && queue.all == old(queue.all) && p.Handles() == {}
      ensures queue.Running() <= old(queue.Running())
      ensures p.reassembly == [] && p.capacity == 0 && p.disconnect == None
      ensures p.state == old(p.state) && p.remoteRef == old(p.remoteRef) && p.remote == old(p.remote) && p.releaseMessage == old(p.releaseMessage)
    {
      hide Apart, Held, TimerQueue.Running, TimerQueue.Valid, SectionObject.Handles;
      ApartFacts(p, os, s, mine);
      p.HandleList();
      StopAll([p.establishment, p.releaseTimer, p.repeatRelease, p.giveUp, p.sendInactivity, p.receiveInactivity], p, os, s, mine);
      Forget(p, s);
    }

    method Forget(p: SectionObject, ghost s: Sections)
      requires Counts(p, s)
      modifies this`reassemblyOctets, p
      ensures Counts(p, s) && p.Handles() == {} && p.reassembly == [] && p.capacity == 0 && p.disconnect == None
      ensures p.state == old(p.state) && p.remoteRef == old(p.remoteRef) && p.remote == old(p.remote) && p.releaseMessage == old(p.releaseMessage)
    {
      hide SectionObject.Handles, Held;
      p.Clear();
      DropReassembly(p, s);
      p.disconnect := None;
    }

    /** restartConnectionSend. */
    method RestartSend(now: nat, p: SectionObject, ghost os: Objects, ghost s: Sections, ghost mine: set<Handle>) returns (ghost after: set<Handle>)
      requires Apart(p, os, s, mine) && Counts(p, s)
      modifies queue, queue.all, p`sendInactivity
      ensures Apart(p, os, s, after) && Counts(p, s) && fresh(queue.all - old(queue.all))
      ensures forall h :: h in after <==> (h in mine && h != old(p.sendInactivity)) || (p.state == DataTransfer && h == p.sendInactivity)
      ensures if p.state == DataTransfer then p.Runs(p.sendInactivity, TSend, now + cfg.ias) && fresh(p.sendInactivity) else p.sendInactivity == null
    {
      hide Apart, Held, TimerQueue.Running, TimerQueue.Valid, SectionObject.Handles, SectionObject.OwnHandles;
      ApartFacts(p, os, s, mine);
      p.InHandles();
      StopHandle(p.sendInactivity, p, os, s, mine);
      after := if p.sendInactivity == null then mine else mine - {p.sendInactivity};
      if p.state != DataTransfer {
        p.SetSend(null);
        return;
      }
      var h := StartTimer(p, TSend, now + cfg.ias, os, s, after);
      p.SetSend(h);
      after := after + {h};
    }

    /** restartConnectionReceive. */
    method RestartReceive(now: nat, p: SectionObject, ghost os: Objects, ghost s: Sections, ghost mine: set<Handle>) returns (ghost after: set<Handle>)
      requires Apart(p, os, s, mine) && Counts(p, s)
      modifies queue, queue.all, p`receiveInactivity
      ensures Apart(p, os, s, after) && Counts(p, s) && fresh(queue.all - old(queue.all))
      ensures forall h :: h in after <==> (h in mine && h != old(p.receiveInactivity)) || (p.state == DataTransfer && h == p.receiveInactivity)
      ensures if p.state == DataTransfer then p.Runs(p.receiveInactivity, TReceive, now + cfg.iar) && fresh(p.receiveInactivity) else p.receiveInactivity == null
    {
      hide Apart, Held, TimerQueue.Running, TimerQueue.Valid, SectionObject.Handles, SectionObject.OwnHandles;
      ApartFacts(p, os, s, mine);
      p.InHandles();
      StopHandle(p.receiveInactivity, p, os, s, mine);
      after := if p.receiveInactivity == null then mine else mine - {p.receiveInactivity};
      if p.state != DataTransfer {
        p.SetReceive(null);
        return;
      }
      var h := StartTimer(p, TReceive, now + cfg.iar, os, s, after);
      p.SetReceive(h);
      after := after + {h};
    }

    /** sendConnectionMessage: a message of the section is sent on its own label, and restarts T(ias). */
    method SendMessage(now: nat, p: SectionObject, m: Message, ghost os: Objects, ghost s: Sections, ghost mine: set<Handle>)
      returns (outs: seq<Out>, ghost after: set<Handle>)
      requires Apart(p, os, s, mine) && Counts(p, s)
      modifies queue, queue.all, p`sendInactivity
      ensures Apart(p, os, s, after) && Counts(p, s) && fresh(queue.all - old(queue.all))
      ensures outs == Transfer(cfg, p.remote, m)
      ensures !cfg.fits(m) ==> after == mine && p.sendInactivity == old(p.sendInactivity)
      ensures cfg.fits(m) ==>
                && (forall h :: h in after <==> (h in mine && h != old(p.sendInactivity)) || (p.state == DataTransfer && h == p.sendInactivity))
                && if p.state == DataTransfer then p.Runs(p.sendInactivity, TSend, now + cfg.ias) && fresh(p.sendInactivity) else p.sendInactivity == null
    {
      hide Apart, Counts, SectionObject.Runs;
      outs := Transfer(cfg, p.remote, m);
      after := mine;
      if cfg.fits(m) {
        after := RestartSend(now, p, os, s, mine);
      }
    }

    /** beginConnectionRelease: RLSD, T(rel), and the indication if the user did not ask. */
    method Release(now: nat, p: SectionObject, m: Message, notify: bool, ghost os: Objects, ghost s: Sections, ghost mine: set<Handle>)
      returns (outs: seq<Out>)
      requires Apart(p, os, s, mine) && Counts(p, s) && mine <= p.Handles() && m.RLSD?
      modifies this`reassemblyOctets, this`table, queue, queue.all, p
      ensures Consistent() && sections == old(sections) && fresh(queue.all - old(queue.all))
      ensures var r := BeginRelease(cfg, p.ref, old(p.remoteRef), old(p.remote), m, notify, now); table == s[p.ref := r.0] && outs == r.1
    {
      hide Apart, Counts, Consistent, SectionObject.Handles, SectionObject.Stores, SectionObject.Runs, TimerQueue.Running;
      StopTimers(p, os, s, mine);
      p.InHandles();
      MarkReleasing(p, m, os, s);
      ghost var after: set<Handle>;
      outs, after := SendMessage(now, p, m, os, s, {});
      assert after == {};
      if notify {
        outs := outs + [DisconnectedBy(p.ref, m.cause)];
      }
      AwaitRelease(now, p, m, os, s);
    }

    method MarkReleasing(p: SectionObject, m: Message, ghost os: Objects, ghost s: Sections)
      requires Apart(p, os, s, {}) && Counts(p, s)
      modifies p`state, p`releaseMessage
      ensures Apart(p, os, s, {}) && Counts(p, s) && p.state == ReleasePending && p.releaseMessage == Some(m)
    {
      hide Apart, Counts;
      ApartFacts(p, os, s, {});
      p.state, p.releaseMessage := ReleasePending, Some(m);
    }

    /** T(rel) starts. */
    method AwaitRelease(now: nat, p: SectionObject, m: Message, ghost os: Objects, ghost s: Sections)
      requires Apart(p, os, s, {}) && Counts(p, s) && p.state == ReleasePending && p.releaseMessage == Some(m)
      requires p.capacity == 0 && p.reassembly == [] && p.disconnect == None && p.sendInactivity == null
      modifies this`table, queue, queue.all, p`releaseTimer
      ensures Consistent() && fresh(queue.all - old(queue.all))
      ensures table == s[p.ref := Releasing(p.remoteRef, p.remote, m, First(now + cfg.release))]
    {
      hide Apart, Held, Consistent, SectionObject.Handles, SectionObject.OwnHandles, TimerQueue.Running;
      ApartFacts(p, os, s, {});
      var h := StartTimer(p, TRelease, now + cfg.release, os, s, {});
      p.SetRelease(h);
      assert {} + {h} == {h};
      Close(p, Releasing(p.remoteRef, p.remote, m, First(now + cfg.release)), os, s, {h});
    }

    /** freezeConnection: the section's resources go, and a new object keeps its reference for a while. */
    method Freeze(now: nat, p: SectionObject, ghost os: Objects, ghost s: Sections, ghost mine: set<Handle>)
      requires Apart(p, os, s, mine) && Counts(p, s) && mine <= p.Handles() && p.state != FrozenReference
      modifies this`reassemblyOctets, this`active, this`sections, this`table, queue, queue.all, p
      ensures Consistent() && fresh(queue.all - old(queue.all)) && fresh(sections.Values - old(sections.Values))
      ensures table == s[p.ref := Connections.Freeze(cfg, now)]
    {
      hide Apart, Counts, Consistent, SectionObject.Handles, TimerQueue.Running;
      StopTimers(p, os, s, mine);
      if p.state == FrozenReference {
        return;
      }
      var frozen := new SectionObject(p.ref, FrozenReference, p.remoteRef, p.remote);
      ApartFacts(p, os, s, {});
      Replace(now, p, frozen, os, s);
    }

    method Replace(now: nat, p: SectionObject, frozen: SectionObject, ghost os: Objects, ghost s: Sections)
      requires Apart(p, os, s, {}) && Counts(p, s) && p.capacity == 0 && frozen.ref == p.ref && frozen !in os.Values
      requires frozen.state == FrozenReference && frozen.Handles() == {} && frozen.capacity == 0
      modifies this`active, this`sections, this`table, queue, queue.all, frozen`unfreeze
      ensures Consistent() && fresh(queue.all - old(queue.all)) && sections == old(sections)[p.ref := frozen]
      ensures table == s[p.ref := Connections.Freeze(cfg, now)]
    {
      hide Held, Active, Linked, SectionObject.Handles, SectionObject.OwnHandles, TimerQueue.Running, TimerQueue.Valid;
      assert queue.Running() - {} == queue.Running();
      ghost var c := Connections.Freeze(cfg, now);
      EnterCounts(os, s, queue.Running(), queue.all, p.ref, c);
      active := active - 1;
      sections := sections[p.ref := frozen];
      assert sections == os[p.ref := frozen];
      table := s[p.ref := c];
      ScheduleUnfreeze(frozen, now + cfg.freeze, os, s);
    }

    method ScheduleUnfreeze(frozen: SectionObject, deadline: nat, ghost os: Objects, ghost s: Sections)
      requires queue.Valid() && Linked(os, s, queue.Running(), queue.all) && frozen.ref as nat !in os && frozen !in os.Values
      requires frozen.state == FrozenReference && frozen.Handles() == {} && frozen.capacity == 0
      modifies queue, queue.all, frozen`unfreeze
      ensures queue.Valid() && Linked(os[frozen.ref := frozen], s[frozen.ref := Frozen(deadline)], queue.Running(), queue.all)
      ensures fresh(queue.all - old(queue.all))
    {
      hide Linked, SectionObject.OwnHandles, TimerQueue.Running, TimerQueue.Valid;
      ghost var running, all := queue.Running(), queue.all;
      var h := queue.Schedule(deadline, Action(frozen, TUnfreeze));
      frozen.unfreeze := h;
      LinkedMore(os, s, running, all, queue.all);
      FrozenStored(frozen, h, deadline);
      LinkedEnter(os, s, running, queue.all, frozen, Frozen(deadline));
    }

    static lemma FrozenStored(p: SectionObject, h: Handle, deadline: nat)
      requires p.state == FrozenReference && p.capacity == 0 && p.unfreeze == h && p.Runs(h, TUnfreeze, deadline)
      requires p.Handles() == {h}
      ensures p.Stores(Frozen(deadline)) && p.Running(Frozen(deadline)) == {h} && p.OwnHandles()
    {
    }

    // ----- Received messages -----

    /** The release that the provider starts. */
    method ReleaseByProvider(now: nat, p: SectionObject, cause: byte, ghost os: Objects, ghost s: Sections, ghost mine: set<Handle>)
      returns (outs: seq<Out>)
      requires Apart(p, os, s, mine) && Counts(p, s) && mine <= p.Handles()
      modifies this`reassemblyOctets, this`table, queue, queue.all, p
      ensures Consistent() && sections == old(sections) && fresh(queue.all - old(queue.all))
      ensures var r := ProviderRelease(cfg, p.ref, old(p.remoteRef), old(p.remote), cause, now); table == s[p.ref := r.0] && outs == r.1
    {
      hide Apart, Counts, Consistent, SectionObject.Handles, BeginRelease;
      outs := Release(now, p, ProcedureRelease(p.ref, p.remoteRef, cause), true, os, s, mine);
    }

    /** receiveConnectionSetup and the other messages in c3. */
    method ReceiveSetup(now: nat, routing: RoutingLabel, p: SectionObject, m: Message, ghost c: Section, ghost os: Objects, ghost s: Sections)
      returns (outs: seq<Out>)
      requires c.Outgoing? && p.Stores(c) && Apart(p, os, s, p.Running(c)) && Counts(p, s) && SectionMessage(m)
      modifies this`reassemblyOctets, this`active, this`sections, this`table, queue, queue.all, p
      ensures Consistent() && fresh(queue.all - old(queue.all)) && fresh(sections.Values - old(sections.Values))
      ensures var r := Setup(cfg, p.ref, c, now, routing, m); table == s[p.ref := r.0] && outs == r.1
    {
      hide Apart, Counts, Consistent, SectionObject.Handles, BeginRelease, ProviderRelease;
      p.RunningHandles(c);
      if m.CREF? {
        outs := [];
        if p.disconnect == None {
          outs := [Indicated(DisconnectIndication(p.ref, Refuser(m.cause), true, m.cause, m.responding, m.data))];
        }
        Freeze(now, p, os, s, p.Running(c));
        return;
      }
      if m.CC? {
        outs := ReceiveConfirm(now, routing, p, m, c, os, s);
        return;
      }
      outs := [Discarded(routing, TypeOf(m), WrongState)];
      if m.RLSD? {
        outs := outs + Reply(cfg, ReplyLabel(routing), RLC(m.source, m.destination), routing, TRLSD);
      }
      if p.disconnect == None {
        outs := outs + [RefusedBy(p.ref, REFUSAL_UNQUALIFIED)];
      }
      Freeze(now, p, os, s, p.Running(c));
    }

    method ReceiveConfirm(now: nat, routing: RoutingLabel, p: SectionObject, m: Message, ghost c: Section, ghost os: Objects, ghost s: Sections)
      returns (outs: seq<Out>)
      requires c.Outgoing? && p.Stores(c) && Apart(p, os, s, p.Running(c)) && Counts(p, s) && m.CC?
      modifies this`reassemblyOctets, this`active, this`sections, this`table, queue, queue.all, p
      ensures Consistent() && fresh(queue.all - old(queue.all)) && sections == old(sections)
      ensures var r := Setup(cfg, p.ref, c, now, routing, m); table == s[p.ref := r.0] && outs == r.1
    {
      hide Apart, Counts, Consistent, SectionObject.Handles, BeginRelease, ProviderRelease, TimerQueue.Running;
      Confirm(p, m, routing, c, os, s);
      outs := [];
      if m.protocolClass.number != 2 {
        outs := [Discarded(routing, TCC, WrongState)];
      }
      if p.disconnect.Some? {
        var d := p.disconnect.value;
        ApartFacts(p, os, s, {});
        p.disconnect := None;
        var more := Release(now, p, ReleaseOf(p.ref, p.remoteRef, d), false, os, s, {});
        outs := outs + more;
        return;
      }
      if m.protocolClass.number != 2 {
        var more := ReleaseByProvider(now, p, REMOTE_PROCEDURE_ERROR, os, s, {});
        outs := outs + more;
        return;
      }
      EstablishSection(now, p, os, s);
      outs := outs + [Indicated(ConnectConfirmation(p.ref, m.responding, m.data))];
    }

    /** T(conn est) stops, and the section takes on its peer. */
    method Confirm(p: SectionObject, m: Message, routing: RoutingLabel, ghost c: Section, ghost os: Objects, ghost s: Sections)
      requires c.Outgoing? && p.Stores(c) && Apart(p, os, s, p.Running(c)) && Counts(p, s) && m.CC?
      modifies queue, queue.all, p`establishment, p`remoteRef, p`remote
      ensures Apart(p, os, s, {}) && Counts(p, s) && fresh(queue.all - old(queue.all))
      ensures p.remoteRef == m.source && p.remote == old(p.remote).(dpc := routing.opc, ni := routing.ni)
    {
      hide Apart, Held, SectionObject.Handles, SectionObject.OwnHandles, TimerQueue.Running, TimerQueue.Valid;
      ApartFacts(p, os, s, p.Running(c));
      p.InHandles();
      StopHandle(p.establishment, p, os, s, p.Running(c));
      assert p.Running(c) - {p.establishment} == {};
      p.SetEstablishment(null);
      p.remoteRef := m.source;
      p.remote := p.remote.(dpc := routing.opc, ni := routing.ni);
    }

    /** Data transfer begins: both inactivity timers start. */
    method EstablishSection(now: nat, p: SectionObject, ghost os: Objects, ghost s: Sections)
      requires Apart(p, os, s, {}) && Counts(p, s) && p.capacity == 0 && p.reassembly == [] && p.disconnect == None
      modifies this`table, queue, queue.all, p`state, p`sendInactivity, p`receiveInactivity
      ensures Consistent() && fresh(queue.all - old(queue.all))
      ensures table == s[p.ref := Establish(cfg, p.remoteRef, p.remote, now)]
    {
      hide Apart, Held, Consistent, SectionObject.Handles, SectionObject.OwnHandles, TimerQueue.Running;
      ApartFacts(p, os, s, {});
      p.state := DataTransfer;
      ghost var sending := RestartSend(now, p, os, s, {});
      ghost var both := RestartReceive(now, p, os, s, sending);
      assert both == {p.sendInactivity, p.receiveInactivity};
      Close(p, Establish(cfg, p.remoteRef, p.remote, now), os, s, both);
    }

    /** appendConnectionData: the buffer grows by doubling, or by what is needed when room is short. */
    method AppendData(p: SectionObject, data: bytes, ghost s: Sections) returns (ok: bool)
      requires Counts(p, s) && |p.reassembly| + |data| <= cfg.maxDataLength && p.capacity <= cfg.maxDataLength
      modifies this`reassemblyOctets, p`reassembly, p`capacity
      ensures Counts(p, s)
      ensures var grown := Grown(cfg, old(p.capacity), |old(p.reassembly)| + |data|, Max(cfg.maxOctets - old(reassemblyOctets), 0));
              && ok == grown.Some?
              && (ok ==> p.reassembly == old(p.reassembly) + data && p.capacity == grown.value)
              && (!ok ==> p.reassembly == old(p.reassembly) && p.capacity == old(p.capacity))
    {
      hide Held, SectionObject.Handles, SectionObject.OwnHandles;
      var length, oldCap := |p.reassembly| + |data|, p.capacity;
      if length > oldCap {
        var newCap := cfg.maxDataLength;
        if oldCap <= newCap / 2 {
          newCap := Max(length, 2 * oldCap);
        }
        var available := cfg.maxOctets - reassemblyOctets;
        if newCap - oldCap > available {
          newCap := length;
        }
        if newCap - oldCap > available {
          return false;
        }
        p.capacity := newCap;
        reassemblyOctets := reassemblyOctets + (newCap - oldCap);
      }
      p.reassembly := p.reassembly + data;
      ok := true;
    }

    /** A message in c4: whatever it is, it restarts T(iar). */
    method ReceiveInTransfer(now: nat, routing: RoutingLabel, p: SectionObject, m: Message, ghost c: Section, ghost os: Objects, ghost s: Sections)
      returns (outs: seq<Out>)
      requires c.Established? && p.Stores(c) && Apart(p, os, s, p.Running(c)) && Counts(p, s) && SectionMessage(m)
      requires |c.data| <= c.capacity <= cfg.maxDataLength
      modifies this`reassemblyOctets, this`active, this`sections, this`table, queue, queue.all, p
      ensures Consistent() && fresh(queue.all - old(queue.all)) && fresh(sections.Values - old(sections.Values))
      ensures var r := Transferring(cfg, p.ref, c, now, routing, m, Max(cfg.maxOctets - old(reassemblyOctets), 0));
              table == s[p.ref := r.0] && outs == r.1
    {
      hide Apart, Counts, Consistent, SectionObject.Handles, ProviderRelease, SectionObject.Stores, SectionObject.Running;
      ghost var heard := Hear(now, p, c, os, s);
      p.RunningHandles(heard);
      InTransfer(p, heard);
      if m.CC? || m.CREF? || m.RLC? {
        outs := [Discarded(routing, TypeOf(m), WrongState)];
        Close(p, heard, os, s, p.Running(heard));
      } else if m.DT1? {
        outs := ReceiveData(now, routing, p, m, heard, os, s);
      } else if m.RLSD? {
        outs := ReceiveReleased(now, p, m, heard, os, s);
      } else if m.ERR? {
        if m.cause == SERVICE_CLASS_MISMATCH {
          outs := ReleaseByProvider(now, p, INCONSISTENT_CONNECTION_DATA, os, s, p.Running(heard));
        } else {
          outs := [DisconnectedBy(p.ref, REMOTE_PROCEDURE_ERROR)];
          Freeze(now, p, os, s, p.Running(heard));
        }
      } else if m.protocolClass.number != 2 {
        outs := ReleaseByProvider(now, p, INCONSISTENT_CONNECTION_DATA, os, s, p.Running(heard));
        outs := [Discarded(routing, TIT, WrongState)] + outs;
      } else {
        outs := [];
        Close(p, heard, os, s, p.Running(heard));
      }
    }

    static lemma InTransfer(p: SectionObject, c: Section)
      requires c.Established? && p.Stores(c)
      ensures p.state == DataTransfer && p.remoteRef == c.remoteRef && p.remote == c.remote && p.reassembly == c.data && p.capacity == c.capacity
    {
    }

    static lemma TransferTimers(p: SectionObject, c: Section)
      requires c.Established? && p.Stores(c)
      ensures p.Runs(p.sendInactivity, TSend, c.ias) && p.Runs(p.receiveInactivity, TReceive, c.iar)
      ensures p.Running(c) == {p.sendInactivity, p.receiveInactivity} && p.unfreeze == null && p.disconnect == None
    {
    }

    static lemma StoresTransfer(p: SectionObject, c: Section, mine: set<Handle>)
      requires c.Established? && p.state == DataTransfer && p.remoteRef == c.remoteRef && p.remote == c.remote
      requires p.reassembly == c.data && p.capacity == c.capacity && p.unfreeze == null && p.disconnect == None
      requires p.Runs(p.sendInactivity, TSend, c.ias) && p.Runs(p.receiveInactivity, TReceive, c.iar)
      requires mine == {p.sendInactivity, p.receiveInactivity}
      ensures p.Stores(c) && p.Running(c) == mine
    {
    }

    method ReceiveReleased(now: nat, p: SectionObject, m: Message, ghost c: Section, ghost os: Objects, ghost s: Sections)
      returns (outs: seq<Out>)
      requires c.Established? && p.Stores(c) && Apart(p, os, s, p.Running(c)) && Counts(p, s) && m.RLSD?
      modifies this`reassemblyOctets, this`active, this`sections, this`table, queue, queue.all, p
      ensures Consistent() && fresh(queue.all - old(queue.all)) && fresh(sections.Values - old(sections.Values))
      ensures table == s[p.ref := Connections.Freeze(cfg, now)]
      ensures outs == Transfer(cfg, c.remote, RLC(c.remoteRef, p.ref))
                      + [Indicated(DisconnectIndication(p.ref, Releaser(m.cause), false, m.cause, None, m.data))]
    {
      hide Apart, Counts, Consistent, SectionObject.Handles, SectionObject.Stores, SectionObject.Running;
      p.RunningHandles(c);
      InTransfer(p, c);
      TransferTimers(p, c);
      ghost var after: set<Handle>;
      outs, after := SendMessage(now, p, RLC(p.remoteRef, p.ref), os, s, p.Running(c));
      p.InHandles();
      outs := outs + [Indicated(DisconnectIndication(p.ref, Releaser(m.cause), false, m.cause, None, m.data))];
      Freeze(now, p, os, s, after);
    }

    /** T(iar) restarts. */
    method Hear(now: nat, p: SectionObject, ghost c: Section, ghost os: Objects, ghost s: Sections) returns (ghost heard: Section)
      requires c.Established? && p.Stores(c) && Apart(p, os, s, p.Running(c)) && Counts(p, s)
      modifies queue, queue.all, p`receiveInactivity
      ensures heard == c.(iar := now + cfg.iar) && p.Stores(heard) && Apart(p, os, s, p.Running(heard)) && Counts(p, s)
      ensures fresh(queue.all - old(queue.all))
    {
      hide Apart, Counts, SectionObject.Handles;
      heard := c.(iar := now + cfg.iar);
      ghost var after := RestartReceive(now, p, os, s, p.Running(c));
      assert after == p.Running(heard);
    }

    method ReceiveData(now: nat, routing: RoutingLabel, p: SectionObject, m: Message, ghost c: Section, ghost os: Objects, ghost s: Sections)
      returns (outs: seq<Out>)
      requires c.Established? && p.Stores(c) && Apart(p, os, s, p.Running(c)) && Counts(p, s) && m.DT1?
      requires |c.data| <= c.capacity <= cfg.maxDataLength && c.iar == now + cfg.iar
      modifies this`reassemblyOctets, this`table, queue, queue.all, p
      ensures Consistent() && fresh(queue.all - old(queue.all)) && sections == old(sections)
      ensures var r := Transferring(cfg, p.ref, c, now, routing, m, Max(cfg.maxOctets - old(reassemblyOctets), 0));
              table == s[p.ref := r.0] && outs == r.1
    {
      hide Apart, Counts, Consistent, SectionObject.Handles, ProviderRelease, SectionObject.Stores, SectionObject.Running, Grown, Transferring;
      ApartFacts(p, os, s, p.Running(c));
      p.RunningHandles(c);
      InTransfer(p, c);
      DataCases(cfg, p.ref, c, now, routing, m, Max(cfg.maxOctets - reassemblyOctets, 0));
      if |m.data| > cfg.maxDataLength - |p.reassembly| {
        outs := ReleaseByProvider(now, p, REMOTE_PROCEDURE_ERROR, os, s, p.Running(c));
        outs := [Discarded(routing, TDT1, TooLong)] + outs;
        return;
      }
      TransferTimers(p, c);
      outs := StoreData(now, routing, p, m, c, os, s, p.Running(c));
    }

    /** The data joins the buffer when there is room. */
    method StoreData(now: nat, routing: RoutingLabel, p: SectionObject, m: Message,
                     ghost c: Section, ghost os: Objects, ghost s: Sections, ghost mine: set<Handle>)
      returns (outs: seq<Out>)
      requires Apart(p, os, s, mine) && Counts(p, s) && mine == {p.sendInactivity, p.receiveInactivity} && mine <= p.Handles() && m.DT1?
      requires c.Established? && p.state == DataTransfer && p.remoteRef == c.remoteRef && p.remote == c.remote && p.disconnect == None
      requires p.Runs(p.sendInactivity, TSend, c.ias) && p.Runs(p.receiveInactivity, TReceive, c.iar) && p.unfreeze == null
      requires |p.reassembly| + |m.data| <= cfg.maxDataLength && p.capacity <= cfg.maxDataLength
      modifies this`reassemblyOctets, this`table, queue, queue.all, p
      ensures Consistent() && fresh(queue.all - old(queue.all)) && sections == old(sections)
      ensures var grown := Grown(cfg, old(p.capacity), |old(p.reassembly)| + |m.data|, Max(cfg.maxOctets - old(reassemblyOctets), 0));
              if grown == None then
                var r := ProviderRelease(cfg, p.ref, c.remoteRef, c.remote, RELEASE_NETWORK_CONGESTION, now);
                table == s[p.ref := r.0] && outs == [Discarded(routing, TDT1, NoCapacity)] + r.1
              else if m.moreData then
                table == s[p.ref := c.(data := old(p.reassembly) + m.data, capacity := grown.value)] && outs == []
              else
                table == s[p.ref := c.(data := [], capacity := 0)]
                && outs == [Indicated(DataIndication(p.ref, old(p.reassembly) + m.data))]
    {
      hide Apart, Counts, Consistent, SectionObject.Handles, ProviderRelease, Grown;
      ApartFacts(p, os, s, mine);
      var ok := AppendData(p, m.data, s);
      if !ok {
        outs := ReleaseByProvider(now, p, RELEASE_NETWORK_CONGESTION, os, s, mine);
        outs := [Discarded(routing, TDT1, NoCapacity)] + outs;
        return;
      }
      outs := Deliver(p, m.moreData, c, os, s, mine);
    }

    /** The buffer waits for more, or is delivered and dropped. */
    method Deliver(p: SectionObject, more: bool, ghost c: Section, ghost os: Objects, ghost s: Sections, ghost mine: set<Handle>)
      returns (outs: seq<Out>)
      requires Apart(p, os, s, mine) && Counts(p, s) && mine == {p.sendInactivity, p.receiveInactivity}
      requires c.Established? && p.state == DataTransfer && p.remoteRef == c.remoteRef && p.remote == c.remote && p.disconnect == None
      requires p.Runs(p.sendInactivity, TSend, c.ias) && p.Runs(p.receiveInactivity, TReceive, c.iar) && p.unfreeze == null
      modifies this`reassemblyOctets, this`table, p`reassembly, p`capacity
      ensures Consistent()
      ensures if more then outs == [] && table == s[p.ref := c.(data := old(p.reassembly), capacity := old(p.capacity))]
              else outs == [Indicated(DataIndication(p.ref, old(p.reassembly)))] && table == s[p.ref := c.(data := [], capacity := 0)]
    {
      hide Apart, Counts, Consistent, SectionObject.Handles, SectionObject.Stores, SectionObject.Running;
      ApartFacts(p, os, s, mine);
      outs := [];
      if !more {
        outs := [Indicated(DataIndication(p.ref, p.reassembly))];
        DropReassembly(p, s);
      }
      ghost var c' := c.(data := p.reassembly, capacity := p.capacity);
      StoresTransfer(p, c', mine);
      Close(p, c', os, s, mine);
    }

    /** The RLSD that began the release is sent again. */
    method Resend(now: nat, p: SectionObject, ghost c: Section, ghost os: Objects, ghost s: Sections) returns (outs: seq<Out>)
      requires c.Releasing? && p.Stores(c) && Apart(p, os, s, p.Running(c)) && Counts(p, s)
      modifies queue, queue.all, p`sendInactivity
      ensures p.Stores(c) && Apart(p, os, s, p.Running(c)) && Counts(p, s) && fresh(queue.all - old(queue.all))
      ensures outs == Transfer(cfg, c.remote, c.release)
    {
      hide Apart, Counts, SectionObject.Handles;
      ghost var after: set<Handle>;
      outs, after := SendMessage(now, p, p.releaseMessage.value, os, s, p.Running(c));
      assert after == p.Running(c);
    }

    /** A message with another source reference than the peer's. */
    method ReceiveWrongSource(now: nat, routing: RoutingLabel, p: SectionObject, m: Message, ghost c: Section, ghost os: Objects, ghost s: Sections)
      returns (outs: seq<Out>)
      requires !c.Frozen? && !c.Outgoing? && (c.Releasing? ==> c.release.RLSD?) && SectionMessage(m)
      requires p.Stores(c) && Apart(p, os, s, p.Running(c)) && Counts(p, s)
      modifies this`reassemblyOctets, this`table, queue, queue.all, p
      ensures Consistent() && fresh(queue.all - old(queue.all)) && sections == old(sections)
      ensures var r := WrongSource(cfg, p.ref, c, now, routing, m); table == s[p.ref := r.0] && outs == r.1
    {
      hide Apart, Counts, Consistent, SectionObject.Handles, ProviderRelease, SectionObject.Running;
      p.RunningHandles(c);
      outs := [Discarded(routing, TypeOf(m), ReferenceMismatch)];
      var back := ReplyLabel(routing);
      if m.RLSD? {
        outs := outs + Reply(cfg, back, ERR(m.source, INCONSISTENT_SOURCE, []), routing, TERR);
      } else if m.IT? {
        outs := outs + Reply(cfg, back, RLSD(m.source, m.destination, INCONSISTENT_CONNECTION_DATA, [], None, []), routing, TRLSD);
        if p.state == ReleasePending {
          var more := Resend(now, p, c, os, s);
          outs := outs + more;
        } else {
          var more := ReleaseByProvider(now, p, INCONSISTENT_CONNECTION_DATA, os, s, p.Running(c));
          outs := outs + more;
          return;
        }
      }
      Close(p, c, os, s, p.Running(c));
    }

    /** A message in c6. */
    method ReceiveInRelease(now: nat, routing: RoutingLabel, p: SectionObject, m: Message, ghost c: Section, ghost os: Objects, ghost s: Sections)
      returns (outs: seq<Out>)
      requires c.Releasing? && SectionMessage(m) && p.Stores(c) && Apart(p, os, s, p.Running(c)) && Counts(p, s)
      modifies this`reassemblyOctets, this`active, this`sections, this`table, queue, queue.all, p
      ensures Consistent() && fresh(queue.all - old(queue.all)) && fresh(sections.Values - old(sections.Values))
      ensures var r := Completing(cfg, c, now, routing, m); table == s[p.ref := r.0] && outs == r.1
    {
      hide Apart, Counts, Consistent, SectionObject.Handles, SectionObject.Running;
      p.RunningHandles(c);
      outs := [];
      if m.RLSD? || m.RLC? {
        Freeze(now, p, os, s, p.Running(c));
        return;
      }
      outs := [Discarded(routing, TypeOf(m), WrongState)];
      if m.ERR? {
        Freeze(now, p, os, s, p.Running(c));
      } else {
        Close(p, c, os, s, p.Running(c));
      }
    }

    /** dispatchConnectionState. */
    method ReceiveInState(now: nat, routing: RoutingLabel, p: SectionObject, m: Message, ghost c: Section, ghost os: Objects, ghost s: Sections)
      returns (outs: seq<Out>)
      requires !c.Frozen? && SectionMessage(m) && p.Stores(c) && Apart(p, os, s, p.Running(c)) && Counts(p, s)
      requires c.Established? ==> |c.data| <= c.capacity <= cfg.maxDataLength
      modifies this`reassemblyOctets, this`active, this`sections, this`table, queue, queue.all, p
      ensures Consistent() && fresh(queue.all - old(queue.all)) && fresh(sections.Values - old(sections.Values))
      ensures var r := Dispatch(cfg, p.ref, c, now, routing, m, Max(cfg.maxOctets - old(reassemblyOctets), 0));
              table == s[p.ref := r.0] && outs == r.1
    {
      hide Apart, Counts, Consistent, SectionObject.Handles, SectionObject.Running, SectionObject.Stores, Setup, Transferring, Completing;
      KindOfState(p, c);
      match p.state {
        case IncomingPending =>
          outs := [Discarded(routing, TypeOf(m), WrongState)];
          Close(p, c, os, s, p.Running(c));
        case OutgoingPending =>
          outs := ReceiveSetup(now, routing, p, m, c, os, s);
        case DataTransfer =>
          outs := ReceiveInTransfer(now, routing, p, m, c, os, s);
        case ReleasePending =>
          outs := ReceiveInRelease(now, routing, p, m, c, os, s);
      }
    }

    /** A message for a section: the checks of its sender, then what its state makes of it. */
    method ReceiveAt(now: nat, routing: RoutingLabel, p: SectionObject, m: Message) returns (outs: seq<Out>)
      requires Valid() && Current(p) && p.state != FrozenReference && SectionMessage(m)
      modifies this`reassemblyOctets, this`active, this`sections, this`table, queue, queue.all, p
      ensures Consistent() && fresh(queue.all - old(queue.all)) && fresh(sections.Values - old(sections.Values))
      ensures old(p.ref as nat in table) && !old(table)[p.ref].Frozen? && (old(table)[p.ref].Releasing? ==> old(table)[p.ref].release.RLSD?)
      ensures var r := Connections.Receive(cfg, p.ref, old(table)[p.ref], now, routing, m, Available(cfg, old(table)));
              table == old(table)[p.ref := r.0] && outs == r.1
    {
      hide Apart, Counts, Consistent, SectionObject.Handles, SectionObject.Running, SectionObject.Stores, WrongSource, WrongPeer, Dispatch;
      hide Good, GoodSection, Available;
      TakeApart(p);
      ghost var c, os, s := table[p.ref], sections - {p.ref}, table - {p.ref};
      KindOfState(p, c);
      GoodHere(p.ref);
      UpdateBack(table, p.ref, Connections.Receive(cfg, p.ref, c, now, routing, m, Available(cfg, table)).0);
      var checkPeer := p.state != OutgoingPending && !m.CC? && !m.CREF?;
      if checkPeer && (routing.opc != p.remote.dpc || routing.ni != p.remote.ni) {
        outs := WrongPeer(cfg, routing, m);
        Close(p, c, os, s, p.Running(c));
      } else if checkPeer && SourceOf(m).Some? && SourceOf(m).value != p.remoteRef {
        outs := ReceiveWrongSource(now, routing, p, m, c, os, s);
      } else {
        outs := ReceiveInState(now, routing, p, m, c, os, s);
      }
    }

    static lemma UpdateBack(s: Sections, ref: nat, c: Section)
      ensures (s - {ref})[ref := c] == s[ref := c]
    {
    }

    static lemma KindOfState(p: SectionObject, c: Section)
      requires p.Stores(c)
      ensures p.state == (match c
                          case Incoming(_, _) => IncomingPending
                          case Outgoing(_, _, _) => OutgoingPending
                          case Established(_, _, _, _, _, _) => DataTransfer
                          case Releasing(_, _, _, _) => ReleasePending
                          case Frozen(_) => FrozenReference)
      ensures !c.Frozen? ==> p.remote == c.remote
      ensures c.Incoming? || c.Established? || c.Releasing? ==> p.remoteRef == c.remoteRef
    {
    }

    lemma GoodHere(ref: nat)
      requires Valid() && ref in table
      ensures GoodSection(cfg, ref, table[ref]) && (table[ref].Releasing? ==> table[ref].release.RLSD?)
      ensures table[ref].Established? ==> |table[ref].data| <= table[ref].capacity <= cfg.maxDataLength
      ensures Available(cfg, table) == Max(cfg.maxOctets - reassemblyOctets, 0)
    {
      hide TimerQueue.Valid, TimerQueue.Running, Linked, Active, Held;
    }

    // ----- Timers that fire -----

    /** T(ias): an IT is sent, and the timer starts again even when the IT cannot be encoded. */
    method FireSend(now: nat, p: SectionObject, tm: Handle, ghost c: Section, ghost os: Objects, ghost s: Sections) returns (outs: seq<Out>)
      requires c.Established? && p.Stores(c) && tm == p.sendInactivity && Counts(p, s)
      requires Apart(p, os, s, p.Running(c) - {tm})
      modifies this`table, queue, queue.all, p`sendInactivity
      ensures Consistent() && fresh(queue.all - old(queue.all))
      ensures table == s[p.ref := c.(ias := now + cfg.ias)]
      ensures outs == Transfer(cfg, c.remote, IT(c.remoteRef, p.ref, ProtocolClass(2, false), Sequencing(0, 0, false), 0))
    {
      hide Apart, Counts, Consistent, SectionObject.Handles, SectionObject.Stores, SectionObject.Running;
      InTransfer(p, c);
      TransferTimers(p, c);
      ghost var receiving := p.receiveInactivity;
      assert p.Running(c) - {tm} == {receiving};
      ghost var after: set<Handle>;
      outs, after := SendMessage(now, p, IT(p.remoteRef, p.ref, ProtocolClass(2, false), Sequencing(0, 0, false), 0), os, s, {receiving});
      StoppedIndex(p, os, s, after);
      if p.sendInactivity == null || p.sendInactivity.index < 0 {
        after := RestartSend(now, p, os, s, after);
      }
      assert after == {p.sendInactivity, p.receiveInactivity};
      StoresTransfer(p, c.(ias := now + cfg.ias), after);
      Close(p, c.(ias := now + cfg.ias), os, s, after);
    }

    /** A handle that is not among the running timers of its section has index -1. */
    lemma StoppedIndex(p: SectionObject, os: Objects, s: Sections, mine: set<Handle>)
      requires Apart(p, os, s, mine) && Counts(p, s)
      ensures p.sendInactivity != null && p.sendInactivity !in mine ==> p.sendInactivity.index == -1
    {
      p.InHandles();
      if p.sendInactivity != null {
        if p.sendInactivity in queue.Running() {
          MineExact(p, os, s, mine, p.sendInactivity);
        }
        queue.RunningByIndex(p.sendInactivity);
      }
    }

    /** scheduleConnectionRepeat: only when the repetition comes before T(int) ends. The section is put back. */
    method ScheduleRepeat(now: nat, p: SectionObject, m: Message, ghost os: Objects, ghost s: Sections)
      requires p.giveUp != null && p.Runs(p.giveUp, TGiveUp, p.giveUp.deadline) && p.state == ReleasePending && p.releaseMessage == Some(m)
      requires p.capacity == 0 && p.reassembly == [] && p.disconnect == None && p.sendInactivity == null
      requires Apart(p, os, s, {p.giveUp}) && Counts(p, s)
      modifies this`table, queue, queue.all, p`repeatRelease
      ensures Consistent() && fresh(queue.all - old(queue.all))
      ensures table == s[p.ref := Releasing(p.remoteRef, p.remote, m, Repeating(p.giveUp.deadline, NextRepeat(cfg, now, p.giveUp.deadline)))]
    {
      hide Apart, Held, Consistent, SectionObject.Handles, SectionObject.OwnHandles, TimerQueue.Running;
      ApartFacts(p, os, s, {p.giveUp});
      var deadline := now + cfg.repeat;
      ghost var mine := {p.giveUp};
      if deadline < p.giveUp.deadline {
        var h := StartTimer(p, TRepeat, deadline, os, s, {p.giveUp});
        p.SetRepeat(h);
        mine := {p.giveUp, h};
        assert {p.giveUp} + {h} == mine;
      }
      Close(p, Releasing(p.remoteRef, p.remote, m, Repeating(p.giveUp.deadline, NextRepeat(cfg, now, p.giveUp.deadline))), os, s, mine);
    }

    method StartGiveUp(now: nat, p: SectionObject, ghost os: Objects, ghost s: Sections)
      requires Apart(p, os, s, {}) && Counts(p, s)
      modifies queue, queue.all, p`giveUp
      ensures p.Runs(p.giveUp, TGiveUp, now + cfg.giveUp) && Apart(p, os, s, {p.giveUp}) && Counts(p, s)
      ensures fresh(queue.all - old(queue.all))
    {
      hide Apart, Held, SectionObject.Handles, SectionObject.OwnHandles, TimerQueue.Running;
      ApartFacts(p, os, s, {});
      var h := StartTimer(p, TGiveUp, now + cfg.giveUp, os, s, {});
      assert {} + {h} == {h};
      p.SetGiveUp(h);
    }

    /** The RLSD is sent again: by T(rel), which starts T(int), or by a repetition. */
    method FireRelease(now: nat, p: SectionObject, tm: Handle, ghost c: Section, ghost os: Objects, ghost s: Sections) returns (outs: seq<Out>)
      requires c.Releasing? && tm.action.kind in Deadlines(c) && tm.action.kind in {TRelease, TRepeat}
      requires p.Stores(c) && tm in p.Running(c) && Counts(p, s) && Apart(p, os, s, p.Running(c) - {tm})
      modifies this`table, queue, queue.all, p
      ensures Consistent() && fresh(queue.all - old(queue.all))
      ensures var r := Connections.Fire(cfg, p.ref, c, tm.action.kind, now); r.0.Some? && table == s[p.ref := r.0.value] && outs == r.1
    {
      hide Apart, Counts, Consistent, SectionObject.Handles;
      ApartFacts(p, os, s, p.Running(c) - {tm});
      ghost var mine: set<Handle> := if tm.action.kind == TRelease then {} else {p.giveUp};
      assert p.Running(c) - {tm} == mine;
      ghost var after: set<Handle>;
      outs, after := SendMessage(now, p, p.releaseMessage.value, os, s, mine);
      assert after == mine;
      if tm.action.kind == TRelease {
        StartGiveUp(now, p, os, s);
      }
      ScheduleRepeat(now, p, p.releaseMessage.value, os, s);
    }

    /** A timer of a section that is not frozen has fired. */
    method FireAt(now: nat, p: SectionObject, tm: Handle, ghost c: Section, ghost os: Objects, ghost s: Sections) returns (outs: seq<Out>)
      requires !c.Frozen? && tm.action.kind in Deadlines(c)
      requires p.Stores(c) && tm in p.Running(c) && Counts(p, s) && Apart(p, os, s, p.Running(c) - {tm})
      modifies this`reassemblyOctets, this`active, this`sections, this`table, queue, queue.all, p
      ensures Consistent() && fresh(queue.all - old(queue.all)) && fresh(sections.Values - old(sections.Values))
      ensures var r := Connections.Fire(cfg, p.ref, c, tm.action.kind, now); r.0.Some? && table == s[p.ref := r.0.value] && outs == r.1
    {
      hide Apart, Counts, Consistent, SectionObject.Handles, SectionObject.Stores, SectionObject.Running, ProviderRelease;
      KindOfState(p, c);
      p.RunningHandles(c);
      match tm.action.kind {
        case TEstablishment =>
          outs := [];
          Pending(p, c);
          if p.disconnect == None {
            outs := [RefusedBy(p.ref, EXPIRATION_OF_ESTABLISHMENT)];
          }
          Freeze(now, p, os, s, p.Running(c) - {tm});
        case TSend =>
          SendHandle(p, c, tm);
          outs := FireSend(now, p, tm, c, os, s);
        case TReceive =>
          outs := ReleaseByProvider(now, p, EXPIRATION_OF_RECEIVE_INACTIVITY, os, s, p.Running(c) - {tm});
        case TRelease =>
          outs := FireRelease(now, p, tm, c, os, s);
        case TRepeat =>
          outs := FireRelease(now, p, tm, c, os, s);
        case TGiveUp =>
          outs := [Indicated(ReleaseIncomplete(p.ref, p.remote, p.remoteRef))];
          Freeze(now, p, os, s, p.Running(c) - {tm});
      }
    }

    static lemma Pending(p: SectionObject, c: Section)
      requires c.Outgoing? && p.Stores(c)
      ensures p.disconnect == c.disconnect
    {
    }

    static lemma SendHandle(p: SectionObject, c: Section, tm: Handle)
      requires c.Established? && p.Stores(c) && tm in p.Running(c) && tm.action.kind == TSend
      ensures tm == p.sendInactivity
    {
    }

    method PopApart(p: SectionObject, ghost c: Section, ghost os: Objects, ghost s: Sections) returns (tm: Handle)
      requires p.Stores(c) && Apart(p, os, s, p.Running(c)) && |queue.timers| > 0 && queue.timers[0] in p.Running(c)
      modifies queue, queue.all
      ensures Apart(p, os, s, p.Running(c) - {tm}) && tm == old(queue.timers[0]) && queue.all == old(queue.all)
    {
      hide TimerQueue.Valid, TimerQueue.Running, Linked, Active, SectionObject.Stores, SectionObject.Running;
      ghost var running, mine := queue.Running(), p.Running(c);
      tm := queue.Pop();
      assert running - {tm} - (mine - {tm}) == running - mine;
    }

    /** The freeze of a reference ends. */
    method Thaw(p: SectionObject) returns (outs: seq<Out>)
      requires Consistent() && Current(p) && |queue.timers| > 0
      requires p.ref as nat in table && table[p.ref].Frozen? && p.Stores(table[p.ref]) && queue.timers[0] in p.Running(table[p.ref])
      modifies this`sections, this`table, queue, queue.all
      ensures Consistent() && queue.all == old(queue.all) && sections == old(sections) - {p.ref}
      ensures table == old(table) - {p.ref} && outs == []
    {
      hide TimerQueue.Valid, TimerQueue.Running, Linked, Active, Held, SectionObject.Handles;
      LinkedDrop(sections, table, queue.Running(), queue.all, p);
      DropCounts(table, p.ref);
      assert p.Running(table[p.ref]) == {queue.timers[0]};
      if p.ref as nat in sections && sections[p.ref] == p {
        sections := sections - {p.ref};
      }
      table := table - {p.ref};
      var tm := queue.Pop();
      outs := [];
    }

    /** The timer at the root of the heap is a timer of a section of the table, and none there is earlier. */
    lemma EarliestFacts(now: nat)
      requires Valid() && |queue.timers| > 0 && queue.timers[0].deadline <= now
      ensures var tm := queue.timers[0];
              var p := tm.action.section;
              && Current(p) && p.ref as nat in table && p.Stores(table[p.ref]) && tm in p.Running(table[p.ref])
              && tm.action.kind in Deadlines(table[p.ref]) && Earliest(table, now, p.ref, tm.action.kind)
    {
      hide Good, ValidSections, Active, Held, SectionObject.Stores, SectionObject.Running, SectionObject.Handles;
      var tm := queue.timers[0];
      var p := tm.action.section;
      assert Owned(tm, sections, table);
      p.RunningHandles(table[p.ref]);
      forall r, k | r in table && k in Deadlines(table[r])
        ensures tm.deadline <= Deadlines(table[r])[k]
      {
        NotEarlier(r, k);
      }
    }

    lemma NotEarlier(ref: nat, kind: TimerKind)
      requires Consistent() && |queue.timers| > 0 && ref in table && kind in Deadlines(table[ref])
      ensures queue.timers[0].deadline <= Deadlines(table[ref])[kind]
    {
      hide Active, Held, SectionObject.Stores, SectionObject.Running, SectionObject.Handles;
      assert ref in sections.Keys;
      StoredHere(sections, table, queue.Running(), queue.all, ref);
      sections[ref].RunningHandles(table[ref]);
      var t :| t in sections[ref].Running(table[ref]) && t.action.kind == kind && t.deadline == Deadlines(table[ref])[kind];
      assert t in queue.Running();
      var i :| 0 <= i < |queue.timers| && queue.timers[i] == t;
      RootIsEarliest(queue.Deadlines(), i);
    }

    /** The earliest timer fires: it leaves the heap and runs. */
    method FireEarliest(now: nat) returns (outs: seq<Out>, ghost ref: nat, ghost kind: TimerKind)
      requires Valid() && |queue.timers| > 0 && queue.timers[0].deadline <= now
      modifies this, queue, queue.all, sections.Values
      ensures Valid() && fresh(queue.all - old(queue.all)) && fresh(sections.Values - old(sections.Values))
      ensures Earliest(old(table), now, ref, kind) && ValidSections(old(table))
      ensures (View(), outs) == Step(cfg, old(View()), Timeout(now, ref, kind))
    {
      hide Consistent, Good, ValidSections, Apart, Counts, SectionObject.Stores, SectionObject.Running, SectionObject.Handles, TimerQueue.Running, TimerQueue.Valid, Connections.Fire;
      EarliestFacts(now);
      var tm := queue.timers[0];
      var p := tm.action.section;
      ref, kind := p.ref, tm.action.kind;
      ghost var view, c := View(), table[p.ref];
      TakeApart(p);
      KindOfState(p, c);
      FiredStep(cfg, view, now, ref, kind);
      if p.state == FrozenReference {
        outs := Thaw(p);
      } else {
        UpdateBack(view.sections, ref, Connections.Fire(cfg, ref, c, kind, now).0.value);
        var popped := PopApart(p, c, sections - {p.ref}, table - {p.ref});
        outs := FireAt(now, p, tm, c, sections - {p.ref}, table - {p.ref});
      }
    }

    /** The reference that is looked for is the one of the machine over values. */
    lemma SameCandidate()
      requires Valid()
      ensures active >= 0 && Candidate(cfg, View()) == References.Candidates(active, cfg.maxConnections, sections.Keys, next, LOCAL_REFERENCE_RESERVED)
      ensures var c := Candidate(cfg, View()); c.Reference? ==> c.ref < LOCAL_REFERENCE_RESERVED && c.ref !in sections
    {
      hide TimerQueue.Valid, TimerQueue.Running, Active, Held, Good, ValidSections;
      assert table.Keys == sections.Keys;
      References.CandidateExact(active, cfg.maxConnections, sections.Keys, next, LOCAL_REFERENCE_RESERVED);
    }

    method Offer(routing: RoutingLabel, m: Message, ref: nat) returns (outs: seq<Out>)
      requires Consistent() && m.CR? && ref < LOCAL_REFERENCE_RESERVED && ref !in sections
      modifies this`sections, this`active, this`next, this`table
      ensures Consistent() && fresh(sections.Values - old(sections.Values)) && next == ref + 1
      ensures var r := Offered(routing, m, ref); table == old(table)[ref := r.0] && outs == r.1
    {
      hide Consistent, Apart, Counts, SectionObject.Handles;
      var p := new SectionObject(ref, IncomingPending, m.source, RequestOrigin(routing, m));
      ghost var os, s := sections, table;
      Register(p);
      ghost var c := Offered(routing, m, ref).0;
      IncomingStored(p, c);
      Close(p, c, os, s, {});
      NewValue(os, ref, p);
      outs := [Indicated(ConnectIndication(routing, ref, m.called, m.originating, m.data, m.importance))];
    }

    static lemma IncomingStored(p: SectionObject, c: Section)
      requires c.Incoming? && p.state == IncomingPending && p.remoteRef == c.remoteRef && p.remote == c.remote && p.unfreeze == null
      requires p.capacity == 0 && p.reassembly == [] && p.disconnect == None
      ensures p.Stores(c) && p.Running(c) == {}
    {
    }

    static lemma NewValue(os: Objects, ref: nat, p: SectionObject)
      ensures os[ref := p].Values <= os.Values + {p}
    {
    }

    /** Every timer that is due fires, an earliest one first, until none is due. */
    method Expire(now: nat) returns (outs: seq<Out>, ghost evs: seq<Event>)
      requires Valid()
      modifies this, queue, queue.all, sections.Values
      ensures Valid() && fresh(queue.all - old(queue.all)) && fresh(sections.Values - old(sections.Values))
      ensures Good(cfg, old(View())) && ValidSections(old(table)) && InOrder(cfg, old(View()), now, evs)
      ensures (View(), outs) == AfterTimeouts(cfg, old(View()), evs)
      ensures DueTimers(table, now) == {}
    {
      hide Valid, InOrder, AfterTimeouts, Earliest, DueTimers, Step, ValidSections, Good;
      ghost var view := View();
      outs, evs := [], [];
      ValidFacts();
      NoTimeouts(cfg, view, now);
      while |queue.timers| > 0 && queue.timers[0].deadline <= now
        invariant Valid() && fresh(queue.all - old(queue.all)) && fresh(sections.Values - old(sections.Values))
        invariant InOrder(cfg, view, now, evs) && (View(), outs) == AfterTimeouts(cfg, view, evs)
        decreases |DueTimers(table, now)|
      {
        ghost var before := View();
        ValidFacts();
        var more, ref, kind := FireEarliest(now);
        InOrderMore(cfg, view, now, evs, ref, kind);
        EarliestIsDue(before.sections, now, ref, kind);
        FireShrinks(cfg, before, now, ref, kind);
        outs, evs := outs + more, evs + [Timeout(now, ref, kind)];
      }
      NoneDue(now);
    }

    lemma ValidFacts()
      requires Valid()
      ensures Good(cfg, View()) && ValidSections(table) && ValidConfig(cfg)
    {
      hide Linked, TimerQueue.Valid, TimerQueue.Running, Active, Held;
    }

    lemma NoneDue(now: nat)
      requires Valid() && !(|queue.timers| > 0 && queue.timers[0].deadline <= now)
      ensures DueTimers(table, now) == {}
    {
      hide Good, ValidSections, Active, Held, DueTimers;
      forall x: (nat, TimerKind)
        ensures x !in DueTimers(table, now)
      {
        DueExact(table, now, x.0, x.1);
        if x.0 in table && x.1 in Deadlines(table[x.0]) {
          IsRunning(x.0, x.1);
          NotEarlier(x.0, x.1);
        }
      }
    }

    lemma IsRunning(ref: nat, kind: TimerKind)
      requires Consistent() && ref in table && kind in Deadlines(table[ref])
      ensures |queue.timers| > 0
    {
      hide Active, Held, SectionObject.Stores, SectionObject.Running, SectionObject.Handles;
      assert ref in sections.Keys;
      StoredHere(sections, table, queue.Running(), queue.all, ref);
      sections[ref].RunningHandles(table[ref]);
      var t :| t in sections[ref].Running(table[ref]) && t.action.kind == kind;
      assert t in queue.Running();
    }

    /**
     * The heap holds the timers of the table and no others: a running timer belongs to the object that has the
     * reference now, runs in the state of its section and has its deadline; each timer of a section runs, once.
     */
    lemma TimersMatchStates()
      requires Valid()
      ensures sections.Keys == table.Keys
      ensures forall t :: t in queue.Running() ==>
                var p := t.action.section;
                Current(p) && t.action.kind in Deadlines(table[p.ref]) && t.deadline == Deadlines(table[p.ref])[t.action.kind]
      ensures forall ref, kind :: ref in table && kind in Deadlines(table[ref]) ==> RunsTimer(ref, kind)
      ensures forall t, u :: t in queue.Running() && u in queue.Running() && t.action == u.action ==> t == u
    {
      hide Good, ValidSections, Active, Held, TimerQueue.Valid, TimerQueue.Running, SectionObject.Handles;
      forall t | t in queue.Running()
        ensures var p := t.action.section;
                Current(p) && p.Stores(table[p.ref]) && t in p.Running(table[p.ref])
      {
        assert Owned(t, sections, table);
      }
      forall t | t in queue.Running()
        ensures var p := t.action.section;
                t.action.kind in Deadlines(table[p.ref]) && t.deadline == Deadlines(table[p.ref])[t.action.kind]
      {
        t.action.section.RunningHandles(table[t.action.section.ref]);
      }
      forall ref, kind | ref in table && kind in Deadlines(table[ref])
        ensures RunsTimer(ref, kind)
      {
        assert ref in sections.Keys;
        StoredHere(sections, table, queue.Running(), queue.all, ref);
        sections[ref].RunningHandles(table[ref]);
        var t :| t in sections[ref].Running(table[ref]) && t.action.kind == kind && t.deadline == Deadlines(table[ref])[kind];
        assert t in queue.Running();
      }
      forall t, u | t in queue.Running() && u in queue.Running() && t.action == u.action
        ensures t == u
      {
        t.action.section.RunningOnce(table[t.action.section.ref], t, u);
      }
    }

    /** The object of the reference has a running timer of the kind. */
    ghost predicate RunsTimer(ref: nat, kind: TimerKind)
      reads this`sections, sections.Values, queue
    {
      ref in sections && exists t :: t in queue.Running() && t.action == Action(sections[ref], kind)
    }

    // ----- Messages and requests -----

    /** A new section takes its reference. */
    method Register(p: SectionObject)
      requires Consistent() && p.ref as nat !in sections && p.Handles() == {} && p.unfreeze == null && p.capacity == 0
      modifies this`sections, this`active, this`next
      ensures sections == old(sections)[p.ref := p] && next == p.ref as nat + 1
      ensures Apart(p, old(sections), table, {}) && Counts(p, table)
    {
      hide TimerQueue.Valid, TimerQueue.Running, Linked, Active, Held, SectionObject.Handles;
      NotAmong(sections, table, queue.Running(), queue.all, p);
      assert queue.Running() - {} == queue.Running();
      sections := sections[p.ref := p];
      active := active + 1;
      next := p.ref as nat + 1;
    }

    /** receiveConnectionRequest. */
    method ReceiveRequest(routing: RoutingLabel, m: Message, local: bool, subsystems: map<byte, bool>, ghost ev: Event) returns (outs: seq<Out>)
      requires Valid() && m.CR? && ev.Arrival? && ev.routing == routing && ev.m == m && ev.local == local && ev.subsystems == subsystems
      modifies this`sections, this`active, this`next, this`table
      ensures Consistent() && fresh(sections.Values - old(sections.Values))
      ensures ValidSections(old(table)) && (View(), outs) == (Apply(old(View()), ev, RequestArrives(cfg, old(View()), ev)), RequestArrives(cfg, old(View()), ev).outs)
    {
      hide Consistent, Good, ValidSections, Admits, Refuse, SectionObject.Handles;
      ValidFacts();
      SameCandidate();
      var admission := Admits(routing, m, local, subsystems);
      match admission {
        case Dropped(dropped) => outs := dropped;
        case RefuseWith(cause, alert) => outs := Refuse(cfg, routing, m, cause) + alert;
        case Admit =>
          var chosen := References.CandidateReference(active, cfg.maxConnections, sections, next, LOCAL_REFERENCE_RESERVED);
          if chosen.Refused? {
            return Refuse(cfg, routing, m, RESOURCE_NOT_AVAILABLE_TRANSIENT);
          }
          outs := Offer(routing, m, chosen.ref);
      }
    }

    /** handleConnectionOriented, once the timers that are due have run. */
    method HandleMessage(now: nat, routing: RoutingLabel, m: Message, local: bool, subsystems: map<byte, bool>) returns (outs: seq<Out>)
      requires Valid() && ConnectionOriented(m)
      modifies this, queue, queue.all, sections.Values
      ensures Valid() && fresh(queue.all - old(queue.all)) && fresh(sections.Values - old(sections.Values)) && ValidSections(old(table))
      ensures (View(), outs) == Step(cfg, old(View()), Arrival(now, routing, m, local, subsystems))
    {
      hide Consistent, Good, ValidSections, RequestArrives, MessageArrives;
      ghost var view, ev := View(), Arrival(now, routing, m, local, subsystems);
      ValidFacts();
      StepValid(cfg, view, ev);
      if ClassThree(m) {
        return [Discarded(routing, TypeOf(m), NotSupported)];
      }
      if InvalidParameter(m) {
        return [Discarded(routing, TypeOf(m), SyntaxError)];
      }
      if m.CR? {
        outs := ReceiveRequest(routing, m, local, subsystems, ev);
        return;
      }
      if ReservedReference(m) {
        return [Discarded(routing, TypeOf(m), SyntaxError)];
      }
      outs := ReceiveMessage(now, routing, m, ev);
    }

    method ReceiveMessage(now: nat, routing: RoutingLabel, m: Message, ghost ev: Event) returns (outs: seq<Out>)
      requires Valid() && SectionMessage(m) && ev.Arrival? && ev.now == now && ev.routing == routing && ev.m == m
      modifies this`reassemblyOctets, this`active, this`sections, this`table, queue, queue.all, sections.Values
      ensures Consistent() && fresh(queue.all - old(queue.all)) && fresh(sections.Values - old(sections.Values)) && ValidSections(old(table))
      ensures var e := MessageArrives(cfg, old(View()), ev); (View(), outs) == (Apply(old(View()), ev, e), e.outs)
    {
      hide Consistent, Good, Connections.Receive, Unassigned, Available, Deadlines;
      ValidFacts();
      var ref: nat := DestinationOf(m);
      SectionHere(ref);
      if ref !in sections || sections[ref].state == FrozenReference {
        return Unassigned(cfg, routing, m);
      }
      outs := ReceiveAt(now, routing, sections[ref], m);
    }

    lemma SectionHere(ref: nat)
      requires Valid()
      ensures ref in sections <==> ref in table
      ensures ref in sections ==> Current(sections[ref]) && sections[ref].ref as nat == ref && sections[ref].Stores(table[ref])
      ensures ref in sections ==> (sections[ref].state == FrozenReference <==> table[ref].Frozen?)
    {
      hide TimerQueue.Valid, TimerQueue.Running, Active, Held, Good, ValidSections, SectionObject.Stores, SectionObject.Running, SectionObject.Handles;
      assert ref in sections.Keys <==> ref in table.Keys;
      if ref in sections {
        StoredHere(sections, table, queue.Running(), queue.all, ref);
        KindOfState(sections[ref], table[ref]);
      }
    }

    /** N-CONNECT request. */
    method Connect(now: nat, req: ConnectRequest) returns (outs: seq<Out>, error: Option<RequestError>)
      requires Valid()
      modifies this, queue, queue.all
      ensures Valid() && fresh(queue.all - old(queue.all)) && fresh(sections.Values - old(sections.Values)) && ValidSections(old(table))
      ensures error == EffectOf(cfg, old(View()), ConnectRequested(now, req)).error
      ensures (View(), outs) == Step(cfg, old(View()), ConnectRequested(now, req))
    {
      hide Consistent, Good, ValidSections, Connectable, Candidate, RequestOf, EffectOf, Step, CalledNode, References.Candidates;
      ghost var view, ev := View(), ConnectRequested(now, req);
      ValidFacts();
      SameCandidate();
      ConnectCases(cfg, view, req, now);
      StepValid(cfg, view, ev);
      if !Connectable(cfg, req) {
        return [], Some(InvalidRequest);
      }
      var chosen := References.CandidateReference(active, cfg.maxConnections, sections, next, LOCAL_REFERENCE_RESERVED);
      if chosen.Refused? {
        return [], Some(InvalidRequest);
      }
      var ref: u32 := chosen.ref;
      var remote := CalledNode(cfg, req, sls);
      if !cfg.fits(RequestOf(cfg, req, ref)) {
        return [], Some(InvalidRequest);
      }
      Call(now, ref, remote);
      sls := (sls + 1) % 16;
      outs, error := [Sent(remote, RequestOf(cfg, req, ref))], None;
    }

    /** An outgoing section is registered, and T(conn est) starts. */
    method Call(now: nat, ref: u32, remote: RoutingLabel)
      requires Consistent() && ref < LOCAL_REFERENCE_RESERVED && ref as nat !in sections
      modifies this`sections, this`active, this`next, this`table, queue, queue.all
      ensures Consistent() && fresh(queue.all - old(queue.all)) && fresh(sections.Values - old(sections.Values)) && next == ref as nat + 1
      ensures table == old(table)[ref := Outgoing(remote, now + cfg.establishment, None)]
    {
      hide Consistent, Apart, Counts, SectionObject.Handles;
      var p := new SectionObject(ref, OutgoingPending, 0, remote);
      ghost var os, s := sections, table;
      Register(p);
      NewValue(os, ref, p);
      AwaitConfirm(now, p, os, s);
    }

    method AwaitConfirm(now: nat, p: SectionObject, ghost os: Objects, ghost s: Sections)
      requires Apart(p, os, s, {}) && Counts(p, s) && p.state == OutgoingPending && p.remoteRef == 0
      requires p.capacity == 0 && p.reassembly == [] && p.disconnect == None
      modifies this`table, queue, queue.all, p`establishment
      ensures Consistent() && fresh(queue.all - old(queue.all))
      ensures table == s[p.ref := Outgoing(p.remote, now + cfg.establishment, None)]
    {
      hide Consistent, Apart, Held, SectionObject.Handles, SectionObject.OwnHandles;
      ApartFacts(p, os, s, {});
      var h := StartTimer(p, TEstablishment, now + cfg.establishment, os, s, {});
      assert {} + {h} == {h};
      p.SetEstablishment(h);
      Close(p, Outgoing(p.remote, now + cfg.establishment, None), os, s, {h});
    }

    /** N-CONNECT response. */
    method Accept(now: nat, ref: nat, responding: Option<PartyAddress>, data: bytes, importance: Option<byte>)
      returns (outs: seq<Out>, error: Option<RequestError>)
      requires Valid()
      modifies this`table, queue, queue.all, sections.Values
      ensures Valid() && fresh(queue.all - old(queue.all)) && sections == old(sections) && ValidSections(old(table))
      ensures error == EffectOf(cfg, old(View()), Accepted(now, ref, responding, data, importance)).error
      ensures (View(), outs) == Step(cfg, old(View()), Accepted(now, ref, responding, data, importance))
    {
      hide Consistent, Good, ValidSections, Connections.Accept, SectionObject.Stores;
      ghost var view, ev := View(), Accepted(now, ref, responding, data, importance);
      ValidFacts();
      StepValid(cfg, view, ev);
      SectionHere(ref);
      if ref !in sections {
        return [], Some(NotFoundError);
      }
      outs, error := AcceptAt(now, sections[ref], responding, data, importance, view.sections[ref]);
    }

    method AcceptAt(now: nat, p: SectionObject, responding: Option<PartyAddress>, data: bytes, importance: Option<byte>, ghost c: Section)
      returns (outs: seq<Out>, error: Option<RequestError>)
      requires Consistent() && Current(p) && p.ref as nat in table && table[p.ref] == c
      modifies this`table, queue, queue.all, p
      ensures Consistent() && fresh(queue.all - old(queue.all))
      ensures match Connections.Accept(cfg, p.ref, c, responding, data, importance, now)
              case Done(r) => error == None && outs == r.1 && table == old(table)[p.ref := r.0]
              case Refused(e) => error == Some(e) && outs == [] && table == old(table)
    {
      hide Consistent, Apart, Counts, SectionObject.Handles, SectionObject.Stores, SectionObject.Running;
      TakeApart(p);
      KindOfState(p, c);
      ghost var os, s := sections - {p.ref}, table - {p.ref};
      outs := [];
      if p.state == FrozenReference {
        return [], Some(NotFoundError);
      }
      if p.state != IncomingPending {
        return [], Some(StateError);
      }
      if !ImportanceFits(importance) {
        return [], Some(InvalidRequest);
      }
      var m := CC(p.remoteRef, p.ref, ProtocolClass(2, false), None, responding, data, SetupImportance(importance), []);
      if !cfg.fits(m) {
        return [], Some(InvalidRequest);
      }
      EmptyIncoming(p, c);
      UpdateBack(table, p.ref, Establish(cfg, p.remoteRef, p.remote, now));
      EstablishSection(now, p, os, s);
      outs, error := [Sent(p.remote, m)], None;
    }

    static lemma EmptyIncoming(p: SectionObject, c: Section)
      requires c.Incoming? && p.Stores(c)
      ensures p.capacity == 0 && p.reassembly == [] && p.disconnect == None && p.Running(c) == {}
    {
    }

    /** N-DATA request: all DT1 messages or none. */
    method SendData(now: nat, ref: nat, data: bytes) returns (outs: seq<Out>, error: Option<RequestError>)
      requires Valid()
      modifies this`table, queue, queue.all, sections.Values
      ensures Valid() && fresh(queue.all - old(queue.all)) && sections == old(sections) && ValidSections(old(table))
      ensures error == EffectOf(cfg, old(View()), DataRequested(now, ref, data)).error
      ensures (View(), outs) == Step(cfg, old(View()), DataRequested(now, ref, data))
    {
      hide Consistent, Good, ValidSections, Connections.SendData, SectionObject.Stores;
      ghost var view, ev := View(), DataRequested(now, ref, data);
      ValidFacts();
      StepValid(cfg, view, ev);
      SectionHere(ref);
      if ref !in sections {
        return [], Some(NotFoundError);
      }
      outs, error := SendDataAt(now, sections[ref], data, view.sections[ref]);
    }

    method SendDataAt(now: nat, p: SectionObject, data: bytes, ghost c: Section) returns (outs: seq<Out>, error: Option<RequestError>)
      requires Consistent() && Current(p) && p.ref as nat in table && table[p.ref] == c
      modifies this`table, queue, queue.all, p
      ensures Consistent() && fresh(queue.all - old(queue.all))
      ensures match Connections.SendData(cfg, c, data, now)
              case Done(r) => error == None && outs == r.1 && table == old(table)[p.ref := r.0]
              case Refused(e) => error == Some(e) && outs == [] && table == old(table)
    {
      hide Consistent, Apart, Counts, SectionObject.Handles, SectionObject.Stores, SectionObject.Running, AllSent, DataMessages, DataSize;
      TakeApart(p);
      KindOfState(p, c);
      if p.state == FrozenReference {
        return [], Some(NotFoundError);
      }
      if p.state != DataTransfer {
        return [], Some(StateError);
      }
      if |data| == 0 || |data| > cfg.maxDataLength || DataSize(cfg) <= 0 {
        return [], Some(InvalidRequest);
      }
      var ok;
      ok, outs := Divide(p.remoteRef, p.remote, data, DataSize(cfg));
      if !ok {
        return [], Some(InvalidRequest);
      }
      UpdateBack(table, p.ref, c.(ias := now + cfg.ias));
      Sending(now, p, c, sections - {p.ref}, table - {p.ref});
      error := None;
    }

    /** The DT1 messages of an NSDU, as long as each of them can be sent. */
    method Divide(remoteRef: u32, remote: RoutingLabel, data: bytes, size: nat) returns (ok: bool, outs: seq<Out>)
      requires size > 0
      ensures var ms := DataMessages(remoteRef, data, size, 0);
              && (ok <==> forall m :: m in ms ==> cfg.fits(m))
              && (ok ==> outs == AllSent(remote, ms))
    {
      ok, outs := true, [];
      var off := 0;
      ghost var done: seq<Message> := [];
      while off < |data|
        invariant done + DataMessages(remoteRef, data, size, off) == DataMessages(remoteRef, data, size, 0)
        invariant outs == AllSent(remote, done) && forall m :: m in done ==> cfg.fits(m)
        decreases |data| - off
      {
        var end := Min(off + size, |data|);
        var m := DT1(remoteRef, end < |data|, data[off..end]);
        ghost var rest := DataMessages(remoteRef, data, size, off + size);
        assert DataMessages(remoteRef, data, size, off) == [m] + rest;
        assert done + ([m] + rest) == (done + [m]) + rest;
        if !cfg.fits(m) {
          assert m in (done + [m]) + rest;
          return false, [];
        }
        outs := outs + [Sent(remote, m)];
        done := done + [m];
        off := off + size;
      }
      assert done + [] == done;
    }

    /** T(ias) restarts. */
    method Sending(now: nat, p: SectionObject, ghost c: Section, ghost os: Objects, ghost s: Sections)
      requires c.Established? && p.Stores(c) && Apart(p, os, s, p.Running(c)) && Counts(p, s)
      modifies this`table, queue, queue.all, p`sendInactivity
      ensures Consistent() && fresh(queue.all - old(queue.all)) && table == s[p.ref := c.(ias := now + cfg.ias)]
    {
      hide Apart, Counts, Consistent, SectionObject.Handles, SectionObject.Stores, SectionObject.Running;
      InTransfer(p, c);
      TransferTimers(p, c);
      ghost var after := RestartSend(now, p, os, s, p.Running(c));
      assert after == {p.sendInactivity, p.receiveInactivity};
      StoresTransfer(p, c.(ias := now + cfg.ias), after);
      Close(p, c.(ias := now + cfg.ias), os, s, after);
    }

    /** N-DISCONNECT request. */
    method Disconnect(now: nat, ref: nat, req: DisconnectRequest) returns (outs: seq<Out>, error: Option<RequestError>)
      requires Valid()
      modifies this`reassemblyOctets, this`active, this`sections, this`table, queue, queue.all, sections.Values
      ensures Valid() && fresh(queue.all - old(queue.all)) && fresh(sections.Values - old(sections.Values)) && ValidSections(old(table))
      ensures error == EffectOf(cfg, old(View()), DisconnectRequested(now, ref, req)).error
      ensures (View(), outs) == Step(cfg, old(View()), DisconnectRequested(now, ref, req))
    {
      hide Consistent, Good, ValidSections, Connections.Disconnect, SectionObject.Stores;
      ghost var view, ev := View(), DisconnectRequested(now, ref, req);
      ValidFacts();
      StepValid(cfg, view, ev);
      SectionHere(ref);
      if ref !in sections {
        return [], Some(NotFoundError);
      }
      outs, error := DisconnectAt(now, sections[ref], req, view.sections[ref]);
    }

    method DisconnectAt(now: nat, p: SectionObject, req: DisconnectRequest, ghost c: Section) returns (outs: seq<Out>, error: Option<RequestError>)
      requires Consistent() && Current(p) && p.ref as nat in table && table[p.ref] == c
      modifies this`reassemblyOctets, this`active, this`sections, this`table, queue, queue.all, p
      ensures Consistent() && fresh(queue.all - old(queue.all)) && fresh(sections.Values - old(sections.Values))
      ensures match Connections.Disconnect(cfg, p.ref, c, req, now)
              case Done(r) => error == None && outs == r.1 && table == old(table)[p.ref := r.0]
              case Refused(e) => error == Some(e) && outs == [] && table == old(table)
    {
      hide Consistent, Apart, Counts, SectionObject.Handles, SectionObject.Stores, SectionObject.Running, BeginRelease;
      TakeApart(p);
      KindOfState(p, c);
      ghost var os, s, t := sections - {p.ref}, table - {p.ref}, table;
      outs, error := [], None;
      if p.state == FrozenReference {
        return [], Some(NotFoundError);
      }
      if p.state == ReleasePending {
        return [], Some(StateError);
      }
      if !ImportanceFits(req.release.importance) {
        return [], Some(InvalidRequest);
      }
      p.RunningHandles(c);
      if p.state == IncomingPending {
        var m := CREF(p.remoteRef, req.refusalCause, None, req.release.data, SetupImportance(req.release.importance), []);
        if !cfg.fits(m) {
          return [], Some(InvalidRequest);
        }
        outs := [Sent(p.remote, m)];
        UpdateBack(t, p.ref, Connections.Freeze(cfg, now));
        Freeze(now, p, os, s, p.Running(c));
        return;
      }
      NoReferenceYet(p, c);
      var m := ReleaseOf(p.ref, p.remoteRef, req.release);
      if !cfg.fits(m) {
        return [], Some(InvalidRequest);
      }
      if p.state == OutgoingPending {
        UpdateBack(t, p.ref, c.(disconnect := Some(req.release)));
        Defer(p, req.release, c, os, s);
        return;
      }
      UpdateBack(t, p.ref, BeginRelease(cfg, p.ref, p.remoteRef, p.remote, m, false, now).0);
      outs := Release(now, p, m, false, os, s, p.Running(c));
    }

    static lemma NoReferenceYet(p: SectionObject, c: Section)
      requires p.Stores(c)
      ensures c.Outgoing? ==> p.remoteRef == 0
    {
    }

    /** The disconnect of a connection request still pending waits for the CC. */
    method Defer(p: SectionObject, d: Disconnection, ghost c: Section, ghost os: Objects, ghost s: Sections)
      requires c.Outgoing? && p.Stores(c) && Apart(p, os, s, p.Running(c)) && Counts(p, s)
      modifies this`table, p`disconnect
      ensures Consistent() && table == s[p.ref := c.(disconnect := Some(d))]
    {
      hide Apart, Counts, Consistent, SectionObject.Handles;
      ApartFacts(p, os, s, p.Running(c));
      ghost var mine := p.Running(c);
      p.disconnect := Some(d);
      Close(p, c.(disconnect := Some(d)), os, s, mine);
    }
  }

  lemma OnlyFrozenEnds(cfg: Config, ref: u32, c: Section, kind: TimerKind, now: nat)
    requires kind in Deadlines(c)
    ensures var r := Connections.Fire(cfg, ref, c, kind, now); (r.0 == None <==> c.Frozen?) && (c.Frozen? ==> r.1 == [])
  {
  }

  /** A timer that fires is a step of the stack, and keeps it good. */
  lemma FiredStep(cfg: Config, s: Stack, now: nat, ref: nat, kind: TimerKind)
    requires Good(cfg, s) && ValidSections(s.sections) && Due(s.sections, now, ref, kind)
    ensures ref < LOCAL_REFERENCE_RESERVED
    ensures Connections.Fire(cfg, ref, s.sections[ref], kind, now).0 == None <==> s.sections[ref].Frozen?
    ensures s.sections[ref].Frozen? ==> Connections.Fire(cfg, ref, s.sections[ref], kind, now).1 == []
    ensures var r := Connections.Fire(cfg, ref, s.sections[ref], kind, now);
            var (t, outs) := Step(cfg, s, Timeout(now, ref, kind));
            && t == Stack(if r.0.Some? then s.sections[ref := r.0.value] else s.sections - {ref}, s.next, s.sls) && outs == r.1
            && Good(cfg, t) && ValidSections(t.sections)
  {
    OnlyFrozenEnds(cfg, ref, s.sections[ref], kind, now);
    StepKeepsGood(cfg, s, Timeout(now, ref, kind));
    GoodIsValid(cfg, Step(cfg, s, Timeout(now, ref, kind)).0);
    hide Good, Connections.Fire;
  }

  lemma StepValid(cfg: Config, s: Stack, ev: Event)
    requires Good(cfg, s) && ValidSections(s.sections)
    ensures Good(cfg, Step(cfg, s, ev).0) && ValidSections(Step(cfg, s, ev).0.sections)
  {
    StepKeepsGood(cfg, s, ev);
    GoodIsValid(cfg, Step(cfg, s, ev).0);
  }

  /** What a DT1 comes to. */
  lemma DataCases(cfg: Config, ref: u32, c: Section, now: nat, routing: RoutingLabel, m: Message, available: nat)
    requires c.Established? && m.DT1?
    ensures var r := Transferring(cfg, ref, c, now, routing, m, available);
            var grown := Grown(cfg, c.capacity, |c.data| + |m.data|, available);
            if |m.data| + |c.data| > cfg.maxDataLength then
              var p := ProviderRelease(cfg, ref, c.remoteRef, c.remote, REMOTE_PROCEDURE_ERROR, now);
              r == (p.0, [Discarded(routing, TDT1, TooLong)] + p.1)
            else if grown == None then
              var p := ProviderRelease(cfg, ref, c.remoteRef, c.remote, RELEASE_NETWORK_CONGESTION, now);
              r == (p.0, [Discarded(routing, TDT1, NoCapacity)] + p.1)
            else if m.moreData then r == (c.(iar := now + cfg.iar, data := c.data + m.data, capacity := grown.value), [])
            else r == (c.(iar := now + cfg.iar, data := [], capacity := 0), [Indicated(DataIndication(ref, c.data + m.data))])
  {
    hide Grown, ProviderRelease;
  }

  /** What a connect request comes to. */
  lemma ConnectCases(cfg: Config, s: Stack, req: ConnectRequest, now: nat)
    requires ValidSections(s.sections)
    ensures Connectable(cfg, req) ==> RequestedDestination(req).Some?
    ensures var ev, c := ConnectRequested(now, req), Candidate(cfg, s);
            if !Connectable(cfg, req) || c.Refused? || c.ref >= LOCAL_REFERENCE_RESERVED || !cfg.fits(RequestOf(cfg, req, c.ref)) then
              (c.Reference? ==> c.ref < LOCAL_REFERENCE_RESERVED) ==>
                EffectOf(cfg, s, ev).error == Some(InvalidRequest) && Step(cfg, s, ev) == (s, [])
            else
              var remote := CalledNode(cfg, req, s.sls);
              && EffectOf(cfg, s, ev).error == None
              && Step(cfg, s, ev)
                 == (Stack(s.sections[c.ref := Outgoing(remote, now + cfg.establishment, None)], c.ref + 1, (s.sls + 1) % 16),
                     [Sent(remote, RequestOf(cfg, req, c.ref))])
  {
    hide Candidate, RequestOf, ValidSections;
  }

  lemma NoTimeouts(cfg: Config, s: Stack, now: nat)
    requires Good(cfg, s) && ValidSections(s.sections)
    ensures InOrder(cfg, s, now, []) && AfterTimeouts(cfg, s, []) == (s, [])
  {
  }

  lemma EarliestIsDue(s: Sections, now: nat, ref: nat, kind: TimerKind)
    requires Earliest(s, now, ref, kind)
    ensures Due(s, now, ref, kind)
  {
  }

  lemma DropCounts(s: Sections, ref: nat)
    requires ref in s
    ensures Active(s - {ref}) == Active(s) - ActiveWeight(ref, s[ref]) && Held(s - {ref}) == Held(s) - HeldWeight(ref, s[ref])
  {
    WeighRemove(s, ref, ActiveWeight);
    WeighRemove(s, ref, HeldWeight);
  }

  lemma EnterCounts(os: Objects, s: Sections, running: set<Handle>, all: set<Handle>, ref: nat, c: Section)
    requires Linked(os, s, running, all) && ref !in os
    ensures Active(s[ref := c]) == Active(s) + ActiveWeight(ref, c) && Held(s[ref := c]) == Held(s) + HeldWeight(ref, c)
  {
    hide SectionObject.Stores, SectionObject.Running, SectionObject.Handles, ActiveWeight, HeldWeight;
    assert ref !in s.Keys;
    WeighUpdate(s, ref, c, ActiveWeight);
    WeighUpdate(s, ref, c, HeldWeight);
  }
}
