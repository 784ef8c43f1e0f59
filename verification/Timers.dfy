/**
 * The timer heap of stack.go. Timers are objects that know their position in the heap, so that a running timer is
 * stopped in place; the sift operations are those of container/heap, which the stack builds on.
 */
module Timers {
  import opened Basics

  /** A timer and what it does when it fires. index is its position in the heap, -1 when stopped or fired. */
  class Timer<A> {
    const deadline: nat
    const action: A
    var index: int

    constructor (deadline: nat, action: A)
      ensures this.deadline == deadline && this.action == action && index == -1
    {
      this.deadline, this.action, index := deadline, action, -1;
    }
  }

  // ----- Heap order, on the deadlines alone -----

  predicate Child(i: int, c: int) {
    0 <= i && (c == 2 * i + 1 || c == 2 * i + 2)
  }

  /** No child is earlier than its parent among the first n positions. */
  ghost predicate Ordered(d: seq<nat>, n: nat)
    requires n <= |d|
  {
    forall i, c :: Child(i, c) && c < n ==> d[i] <= d[c]
  }

  /** As Ordered, except that position k may be earlier than its parent. */
  ghost predicate OrderedAbove(d: seq<nat>, n: nat, k: nat)
    requires n <= |d|
  {
    && (forall i, c :: Child(i, c) && c < n && c != k ==> d[i] <= d[c])
    && (forall p, c :: Child(p, k) && Child(k, c) && c < n ==> d[p] <= d[c])
  }

  /** As Ordered, except that position k may be later than its children. */
  ghost predicate OrderedBelow(d: seq<nat>, n: nat, k: nat)
    requires n <= |d|
  {
    && (forall i, c :: Child(i, c) && c < n && i != k ==> d[i] <= d[c])
    && (forall p, c :: Child(p, k) && Child(k, c) && c < n ==> d[p] <= d[c])
  }

  function Parent(j: nat): nat {
    if j == 0 then 0 else (j - 1) / 2
  }

  lemma ParentOf(j: nat)
    ensures j > 0 ==> Child(Parent(j), j) && Parent(j) < j
    ensures forall i :: Child(i, j) ==> i == Parent(j)
  {
  }

  lemma UpStep(d: seq<nat>, n: nat, j: nat)
    requires 0 < j < n <= |d| && OrderedAbove(d, n, j) && d[j] < d[Parent(j)]
    ensures OrderedAbove(d[j := d[Parent(j)]][Parent(j) := d[j]], n, Parent(j))
  {
    ParentOf(j);
    var q := Parent(j);
    var e := d[j := d[q]][q := d[j]];
    ParentOf(q);
    forall i, c | Child(i, c) && c < n && c != q
      ensures e[i] <= e[c]
    {
      assert c != j ==> d[i] <= d[c];
      if i == j {
        assert Child(q, j) && Child(j, c);
      }
    }
    forall p, c | Child(p, q) && Child(q, c) && c < n
      ensures e[p] <= e[c]
    {
      assert d[p] <= d[q];
      assert c != j ==> d[q] <= d[c];
    }
  }

  lemma UpDone(d: seq<nat>, n: nat, j: nat)
    requires j < n <= |d| && OrderedAbove(d, n, j) && (j == 0 || d[Parent(j)] <= d[j])
    ensures Ordered(d, n)
  {
    ParentOf(j);
  }

  lemma DownStep(d: seq<nat>, n: nat, i: nat, j: nat)
    requires Child(i, j) && j < n <= |d| && OrderedBelow(d, n, i) && d[j] < d[i]
    requires forall c :: Child(i, c) && c < n ==> d[j] <= d[c]
    ensures OrderedBelow(d[i := d[j]][j := d[i]], n, j)
  {
    var e := d[i := d[j]][j := d[i]];
    ParentOf(i);
    ParentOf(j);
    forall p, c | Child(p, c) && c < n && p != j
      ensures e[p] <= e[c]
    {
      if p != i {
        assert d[p] <= d[c];
        if c == i {
          assert Child(p, i) && Child(i, j);
        }
      }
    }
    forall p, c | Child(p, j) && Child(j, c) && c < n
      ensures e[p] <= e[c]
    {
      assert p == i && d[j] <= d[c];
    }
  }

  lemma AboveStays(d: seq<nat>, n: nat, i: nat, j: nat)
    requires n <= |d| && OrderedAbove(d, n, i) && Child(i, j) && j < n
    ensures d[i] <= d[j]
  {
  }

  lemma OrderedIsAbove(d: seq<nat>, n: nat, k: nat)
    requires k < n <= |d| && Ordered(d, n)
    ensures OrderedAbove(d, n, k)
  {
    forall p, c | Child(p, k) && Child(k, c) && c < n
      ensures d[p] <= d[c]
    {
      assert d[p] <= d[k] <= d[c];
    }
  }

  lemma OrderedPrefix(d: seq<nat>, n: nat)
    requires n <= |d| && Ordered(d, |d|)
    ensures Ordered(d, n)
  {
  }

  /** After the last position replaced the root. */
  lemma RootReplaced(d: seq<nat>)
    requires |d| > 0 && Ordered(d, |d|)
    ensures var n := |d| - 1; OrderedBelow(d[0 := d[n]][n := d[0]], n, 0)
  {
  }

  lemma DownDone(d: seq<nat>, n: nat, i: nat)
    requires n <= |d| && OrderedBelow(d, n, i) && (forall c :: Child(i, c) && c < n ==> d[i] <= d[c])
    ensures Ordered(d, n)
  {
  }

  /** The root of a heap has the earliest deadline. */
  lemma {:induction false} RootIsEarliest(d: seq<nat>, i: nat)
    requires Ordered(d, |d|) && i < |d|
    ensures d[0] <= d[i]
    decreases i
  {
    if i > 0 {
      ParentOf(i);
      RootIsEarliest(d, Parent(i));
    }
  }

  /** After the last position replaced position k, either direction of sifting restores the order. */
  lemma ReplacedByLast(d: seq<nat>, k: nat)
    requires k < |d| - 1 && Ordered(d, |d|)
    ensures var n := |d| - 1;
            var e := d[k := d[n]][n := d[k]];
            OrderedBelow(e, n, k) || OrderedAbove(e, n, k)
  {
    var n := |d| - 1;
    var e := d[k := d[n]][n := d[k]];
    ParentOf(k);
    forall i, c | Child(i, c) && c < n && i != k && c != k
      ensures e[i] <= e[c]
    {
      assert d[i] <= d[c];
    }
    forall p, c | Child(p, k) && Child(k, c) && c < n
      ensures e[p] <= e[c]
    {
      assert d[p] <= d[k] <= d[c];
    }
    if k > 0 && e[k] < e[Parent(k)] {
      forall c | Child(k, c) && c < n
        ensures e[k] <= e[c]
      {
        assert d[Parent(k)] <= d[k] <= d[c];
      }
    }
  }

  class TimerQueue<A> {
    var timers: seq<Timer<A>>
    ghost var all: set<Timer<A>>

    /** Every position and every index agree; a timer of this queue that is not in the heap has index -1. */
    ghost predicate Linked()
      reads this, all
    {
      && (forall i :: 0 <= i < |timers| ==> timers[i] in all && timers[i].index == i)
      && (forall t :: t in all ==> t.index == -1 || (0 <= t.index < |timers| && timers[t.index] == t))
    }

    ghost predicate Valid()
      reads this, all
    {
      Linked() && Ordered(Deadlines(), |timers|)
    }

    ghost function Deadlines(): (d: seq<nat>)
      reads this
      ensures |d| == |timers| && forall i :: 0 <= i < |d| ==> d[i] == timers[i].deadline
    {
      seq(|timers|, i requires 0 <= i < |timers| reads this => timers[i].deadline)
    }

    /** The running timers. */
    ghost function Running(): set<Timer<A>>
      reads this
    {
      set t | t in timers
    }

    /** The running timers that are due. */
    ghost function Due(now: nat): set<Timer<A>>
      reads this
    {
      set t | t in timers && t.deadline <= now
    }

    constructor ()
      ensures Valid() && timers == [] && all == {} && Running() == {}
    {
      timers, all := [], {};
    }

    predicate Less(i: nat, j: nat)
      requires i < |timers| && j < |timers|
      reads this
    {
      timers[i].deadline < timers[j].deadline
    }

    method Swap(i: nat, j: nat)
      requires Linked() && i < |timers| && j < |timers|
      modifies this`timers, all
      ensures Linked() && timers == old(timers[i := timers[j]][j := timers[i]])
      ensures Running() == old(Running()) && |timers| == old(|timers|)
      ensures Deadlines() == old(Deadlines()[i := Deadlines()[j]][j := Deadlines()[i]])
    {
      ghost var before := timers;
      timers := timers[i := timers[j]][j := timers[i]];
      timers[i].index := i;
      timers[j].index := j;
      assert timers[i] == before[j] && timers[j] == before[i];
      assert forall k :: 0 <= k < |timers| && k != i && k != j ==> timers[k] == before[k];
      assert forall t :: t in before ==> t in timers by {
        forall t | t in before ensures t in timers {
          var k :| 0 <= k < |before| && before[k] == t;
          assert timers[if k == i then j else if k == j then i else k] == t;
        }
      }
    }

    /** container/heap up. The positions from n on are not looked at. */
    method Up(k: nat, ghost n: nat)
      requires Linked() && k < n <= |timers| && OrderedAbove(Deadlines(), n, k)
      modifies this`timers, all
      ensures Linked() && Running() == old(Running()) && |timers| == old(|timers|)
      ensures Ordered(Deadlines(), n) && (forall m :: n <= m < |timers| ==> timers[m] == old(timers)[m])
    {
      hide OrderedAbove, Ordered, Linked, Running;
      var j: nat := k;
      while true
        invariant Linked() && j < n <= |timers| == old(|timers|) && OrderedAbove(Deadlines(), n, j)
        invariant Running() == old(Running()) && (forall m :: n <= m < |timers| ==> timers[m] == old(timers)[m])
        decreases j
      {
        var i := Parent(j);
        ParentOf(j);
        if i == j || !Less(j, i) {
          UpDone(Deadlines(), n, j);
          break;
        }
        UpStep(Deadlines(), n, j);
        ghost var d: seq<nat> := Deadlines();
        Swap(i, j);
        assert d[j := d[i]][i := d[j]] == d[i := d[j]][j := d[i]];
        j := i;
      }
    }

    /** container/heap down on the first n positions; it reports whether position k moved. */
    method Down(k: nat, n: nat) returns (moved: bool)
      requires Linked() && n <= |timers| && (OrderedBelow(Deadlines(), n, k) || OrderedAbove(Deadlines(), n, k))
      modifies this`timers, all
      ensures Linked() && Running() == old(Running()) && |timers| == old(|timers|)
      ensures Ordered(Deadlines(), n) || (!moved && OrderedAbove(Deadlines(), n, k))
      ensures old(OrderedBelow(Deadlines(), n, k)) ==> Ordered(Deadlines(), n)
      ensures (forall m :: n <= m < |timers| ==> timers[m] == old(timers)[m])
      ensures !moved ==> timers == old(timers)
    {
      hide OrderedBelow, Ordered, OrderedAbove, Linked, Running;
      var i: nat := k;
      moved := false;
      while true
        invariant Linked() && n <= |timers| == old(|timers|)
        invariant OrderedBelow(Deadlines(), n, i)
                  || (!moved && i == k && OrderedAbove(Deadlines(), n, i) && !old(OrderedBelow(Deadlines(), n, k)))
        invariant Running() == old(Running()) && (forall m :: n <= m < |timers| ==> timers[m] == old(timers)[m])
        invariant !moved ==> timers == old(timers)
        decreases if i < n then n - i else 0
      {
        var j := 2 * i + 1;
        if j < n && j + 1 < n && Less(j + 1, j) {
          j := j + 1;
        }
        if j >= n || !Less(j, i) {
          if OrderedBelow(Deadlines(), n, i) {
            DownDone(Deadlines(), n, i);
          }
          break;
        }
        if OrderedAbove(Deadlines(), n, i) {
          AboveStays(Deadlines(), n, i, j);
        }
        DownStep(Deadlines(), n, i, j);
        Swap(i, j);
        i := j;
        moved := true;
      }
    }

    /** heap.Push. */
    method Push(t: Timer<A>)
      requires Valid() && t !in all
      modifies this, all, t
      ensures Valid() && all == old(all) + {t} && Running() == old(Running()) + {t}
    {
      t.index := |timers|;
      timers := timers + [t];
      all := all + {t};
      Up(|timers| - 1, |timers|);
    }

    /** Takes the last timer out of the heap. */
    method DropLast() returns (t: Timer<A>)
      requires Linked() && |timers| > 0 && Ordered(Deadlines(), |timers| - 1)
      modifies this`timers, all
      ensures Valid() && t == old(timers)[|old(timers)| - 1]
      ensures t.index == -1 && Running() == old(Running()) - {t}
    {
      t := timers[|timers| - 1];
      ghost var d := Deadlines();
      assert forall i :: 0 <= i < |timers| - 1 ==> timers[i] != t;
      timers := timers[..|timers| - 1];
      t.index := -1;
      assert forall i :: 0 <= i < |timers| ==> Deadlines()[i] == d[i];
    }

    /** heap.Pop: the root, the earliest of the running timers. */
    method Pop() returns (t: Timer<A>)
      requires Valid() && |timers| > 0
      modifies this`timers, all
      ensures Valid() && t == old(timers[0]) && Running() == old(Running()) - {t}
      ensures forall u :: u in old(Running()) ==> t.deadline <= u.deadline
    {
      forall u | u in timers
        ensures timers[0].deadline <= u.deadline
      {
        var i :| 0 <= i < |timers| && timers[i] == u;
        RootIsEarliest(Deadlines(), i);
      }
      var n := |timers| - 1;
      ghost var root, d := timers[0], Deadlines();
      Swap(0, n);
      RootReplaced(d);
      var moved := Down(0, n);
      t := DropLast();
    }

    /** heap.Remove of the timer at position i. */
    method Remove(i: nat)
      requires Valid() && i < |timers|
      modifies this`timers, all
      ensures Valid() && Running() == old(Running()) - {old(timers[i])}
    {
      hide Ordered, OrderedAbove, OrderedBelow, Linked, Running;
      var n := |timers| - 1;
      ghost var gone, d := timers[i], Deadlines();
      if n == i {
        OrderedPrefix(d, n);
      }
      if n != i {
        Swap(i, n);
        ReplacedByLast(d, i);
        var moved := Down(i, n);
        if !moved {
          if Ordered(Deadlines(), n) {
            OrderedIsAbove(Deadlines(), n, i);
          }
          Up(i, n);
        }
      }
      var t := DropLast();
    }

    /** Starts a timer. */
    method Schedule(deadline: nat, action: A) returns (t: Timer<A>)
      requires Valid()
      modifies this, all
      ensures Valid() && fresh(t) && t.deadline == deadline && t.action == action
      ensures all == old(all) + {t} && Running() == old(Running()) + {t} && t !in old(Running())
    {
      t := new Timer(deadline, action);
      Push(t);
    }

    /** Stops a timer; stopping a stopped timer, or none, does nothing. */
    method Stop(t: Timer?<A>)
      requires Valid() && (t != null ==> t in all)
      modifies this`timers, all
      ensures Valid() && Running() == old(Running()) - (if t == null then {} else {t})
    {
      if t == null || t.index < 0 {
        return;
      }
      Remove(t.index);
    }

    lemma DueIsRunning(now: nat, t: Timer<A>)
      ensures t in Due(now) <==> t in Running() && t.deadline <= now
    {
    }

    /** A timer of this queue runs exactly when its index is not -1. */
    lemma RunningByIndex(t: Timer<A>)
      requires Linked() && t in all
      ensures t in Running() <==> t.index != -1
    {
    }
  }
}
