/**
 * The two allocators of local references: candidateReference of connection.go and allocateSegmentationReference of
 * unitdata.go. Both walk the references cyclically and must neither loop forever nor give out one that is in use.
 */
module References {
  import opened Basics

  /** The reference after ref, below limit. */
  function After(ref: nat, limit: nat): nat {
    if ref + 1 >= limit then 0 else ref + 1
  }

  /** The first of n candidates from ref on, cyclically below limit, that is not used. */
  function Search(used: set<nat>, ref: nat, limit: nat, n: nat): (r: Option<nat>)
    requires ref < limit
    ensures r.Some? ==> r.value < limit && r.value !in used
    decreases n
  {
    if n == 0 then None
    else if ref !in used then Some(ref)
    else Search(used, After(ref, limit), limit, n - 1)
  }

  /** The candidate k places after ref. */
  function Candidate(ref: nat, k: nat, limit: nat): nat
    requires ref < limit
  {
    if ref + k < limit then ref + k else (ref + k - limit)
  }

  lemma {:induction false} SearchExact(used: set<nat>, ref: nat, limit: nat, n: nat)
    requires ref < limit && n <= limit
    ensures Search(used, ref, limit, n) == None ==> forall k :: 0 <= k < n ==> Candidate(ref, k, limit) in used
    ensures Search(used, ref, limit, n).Some? ==>
              exists k :: 0 <= k < n && Search(used, ref, limit, n) == Some(Candidate(ref, k, limit))
                && forall j :: 0 <= j < k ==> Candidate(ref, j, limit) in used
    decreases n
  {
    assert Candidate(ref, 0, limit) == ref;
    if n > 0 && ref in used {
      var next := After(ref, limit);
      SearchExact(used, next, limit, n - 1);
      assert forall k :: 0 <= k < n - 1 ==> Candidate(next, k, limit) == Candidate(ref, k + 1, limit);
      if Search(used, next, limit, n - 1) == None {
        forall k | 0 <= k < n
          ensures Candidate(ref, k, limit) in used
        {
          if k > 0 {
            assert Candidate(next, k - 1, limit) in used;
          }
        }
      } else {
        var k :| 0 <= k < n - 1 && Search(used, next, limit, n - 1) == Some(Candidate(next, k, limit))
                 && forall j :: 0 <= j < k ==> Candidate(next, j, limit) in used;
        forall j | 0 <= j < k + 1
          ensures Candidate(ref, j, limit) in used
        {
          if j > 0 {
            assert Candidate(next, j - 1, limit) in used;
          }
        }
        assert Search(used, ref, limit, n) == Some(Candidate(ref, k + 1, limit));
      }
    }
  }

  ghost function Below(n: nat): (s: set<nat>)
    ensures forall x :: x in s <==> 0 <= x < n
  {
    if n == 0 then {} else Below(n - 1) + {n - 1}
  }

  ghost predicate SomeFree(used: set<nat>, limit: nat) {
    exists r: nat :: r < limit && r !in used
  }

  lemma {:induction false} BelowSize(n: nat)
    ensures |Below(n)| == n
  {
    if n > 0 {
      BelowSize(n - 1);
    }
  }

  lemma SubsetSize<T>(a: set<T>, b: set<T>)
    requires a <= b
    ensures |a| <= |b| && (|a| == |b| ==> a == b)
  {
    assert b == a + (b - a) && a !! (b - a);
    assert |b| == |a| + |b - a|;
  }

  lemma {:induction false} CandidatesSize(ref: nat, limit: nat, n: nat) returns (s: set<nat>)
    requires ref < limit && n <= limit
    ensures |s| == n && s <= Below(limit)
    ensures forall x :: x in s <==> exists k :: 0 <= k < n && x == Candidate(ref, k, limit)
  {
    if n == 0 {
      s := {};
    } else {
      var t := CandidatesSize(ref, limit, n - 1);
      var x := Candidate(ref, n - 1, limit);
      assert x !in t;
      s := t + {x};
    }
  }

  /**
   * One candidate more than there are used references, or every reference, is enough: the search succeeds exactly
   * when some reference is free.
   */
  lemma SearchComplete(used: set<nat>, ref: nat, limit: nat)
    requires ref < limit
    ensures var n := Min(limit, |used| + 1);
            Search(used, ref, limit, n).Some? <==> SomeFree(used, limit)
  {
    var n := Min(limit, |used| + 1);
    SearchExact(used, ref, limit, n);
    if Search(used, ref, limit, n) == None {
      var s := CandidatesSize(ref, limit, n);
      assert s <= used;
      SubsetSize(s, used);
      BelowSize(limit);
      SubsetSize(s, Below(limit));
      assert n == limit && s == Below(limit);
      forall r: nat | r < limit
        ensures r in used
      {
        assert r in Below(limit);
      }
    }
  }

  // ----- Connections -----

  datatype NoReference = Capacity | Exhausted

  datatype Chosen = Reference(ref: nat) | Refused(reason: NoReference)

  /** What candidateReference gives. next is where the last registration left off. */
  function Candidates(active: nat, maxConnections: nat, used: set<nat>, next: nat, limit: nat): Chosen {
    if active >= maxConnections then Refused(Capacity)
    else if limit == 0 then Refused(Exhausted)
    else match Search(used, if next >= limit then 0 else next, limit, Min(limit, |used| + 1))
         case None => Refused(Exhausted)
         case Some(ref) => Reference(ref)
  }

  /** A reference is found exactly when capacity remains and one is free; it is never one in use or frozen. */
  lemma CandidateExact(active: nat, maxConnections: nat, used: set<nat>, next: nat, limit: nat)
    ensures var c := Candidates(active, maxConnections, used, next, limit);
            && (c.Reference? <==> active < maxConnections && SomeFree(used, limit))
            && (c.Reference? ==> c.ref < limit && c.ref !in used)
            && (c == Refused(Capacity) <==> active >= maxConnections)
  {
    if limit > 0 {
      SearchComplete(used, if next >= limit then 0 else next, limit);
    }
  }

  /** The first reference from start on, cyclically below limit, that is not used, is the one at distance k. */
  ghost predicate FirstFree(used: set<nat>, start: nat, limit: nat, ref: nat, k: nat)
    requires start < limit
  {
    && k < limit && ref == (if start + k < limit then start + k else start + k - limit) && ref !in used
    && forall j :: 0 <= j < k ==> Candidate(start, j, limit) in used
  }

  /** What is found is the first that is free from where the last registration left off, or from 0 past the limit. */
  lemma CandidateFirst(active: nat, maxConnections: nat, used: set<nat>, next: nat, limit: nat) returns (k: nat)
    requires Candidates(active, maxConnections, used, next, limit).Reference?
    ensures FirstFree(used, if next >= limit then 0 else next, limit, Candidates(active, maxConnections, used, next, limit).ref, k)
  {
    var start, n := if next >= limit then 0 else next, Min(limit, |used| + 1);
    SearchExact(used, start, limit, n);
    k :| 0 <= k < n && Search(used, start, limit, n) == Some(Candidate(start, k, limit))
         && forall j :: 0 <= j < k ==> Candidate(start, j, limit) in used;
  }

  method CandidateReference<T>(active: nat, maxConnections: nat, sections: map<nat, T>, next: nat, limit: nat) returns (c: Chosen)
    ensures c == Candidates(active, maxConnections, sections.Keys, next, limit)
  {
    if active >= maxConnections {
      return Refused(Capacity);
    }
    if limit == 0 {
      return Refused(Exhausted);
    }
    var ref: nat := next;
    if ref >= limit {
      ref := 0;
    }
    assert |sections| == |sections.Keys|;
    var attempts: nat, most: nat := 0, Min(limit, |sections| + 1);
    while attempts < most
      invariant 0 <= attempts <= most && ref < limit
      invariant Search(sections.Keys, if next >= limit then 0 else next, limit, most) == Search(sections.Keys, ref, limit, most - attempts)
    {
      if ref !in sections {
        return Reference(ref);
      }
      ref := ref + 1;
      if ref >= limit {
        ref := 0;
      }
      attempts := attempts + 1;
    }
    return Refused(Exhausted);
  }

  // ----- Segmentation -----

  const SEGMENTATION_REFERENCES: nat := 0x100_0000

  datatype Frozen = Frozen(ref: nat, until: nat)

  /** The frozen references in the order in which they were given out. */
  datatype Pool = Pool(next: nat, order: seq<Frozen>)

  ghost function RefsOf(order: seq<Frozen>): set<nat> {
    set i: nat | i < |order| :: order[i].ref
  }

  ghost predicate Distinct(order: seq<Frozen>) {
    forall i, j :: 0 <= i < j < |order| ==> order[i].ref != order[j].ref
  }

  ghost predicate ValidPool(p: Pool) {
    && p.next < SEGMENTATION_REFERENCES && Distinct(p.order)
    && forall i :: 0 <= i < |p.order| ==> p.order[i].ref < SEGMENTATION_REFERENCES
  }

  /** How many of the longest frozen references have thawed. */
  function Thawed(order: seq<Frozen>, now: nat): (n: nat)
    ensures n <= |order|
    ensures forall i :: 0 <= i < n ==> order[i].until <= now
    ensures n < |order| ==> order[n].until > now
    decreases |order|
  {
    if |order| == 0 || order[0].until > now then 0 else 1 + Thawed(order[1..], now)
  }

  /** A reference is given out and frozen; None when every reference is frozen. */
  ghost function Allocated(p: Pool, now: nat, freeze: nat): (r: (Pool, Option<nat>))
    requires ValidPool(p)
  {
    var order := p.order[Thawed(p.order, now)..];
    match Search(RefsOf(order), p.next, SEGMENTATION_REFERENCES, Min(SEGMENTATION_REFERENCES, |RefsOf(order)| + 1))
    case None => (Pool(p.next, order), None)
    case Some(ref) => (Pool((ref + 1) % SEGMENTATION_REFERENCES, order + [Frozen(ref, now + freeze)]), Some(ref))
  }

  lemma {:induction false} RefsSize(order: seq<Frozen>)
    requires Distinct(order)
    ensures |RefsOf(order)| == |order|
  {
    if |order| > 0 {
      var n := |order| - 1;
      RefsSize(order[..n]);
      assert RefsOf(order) == RefsOf(order[..n]) + {order[n].ref};
    } else {
      assert RefsOf(order) == {};
    }
  }

  lemma AllocatedValid(p: Pool, now: nat, freeze: nat)
    requires ValidPool(p)
    ensures ValidPool(Allocated(p, now, freeze).0)
  {
    var order := p.order[Thawed(p.order, now)..];
    var r := Allocated(p, now, freeze).1;
    if r.Some? {
      assert r.value !in RefsOf(order);
      forall i | 0 <= i < |order|
        ensures order[i].ref != r.value
      {
        assert order[i].ref in RefsOf(order);
      }
    }
  }

  /** No reference is free yet. */
  ghost predicate AllFrozen(p: Pool, now: nat) {
    |p.order[Thawed(p.order, now)..]| >= SEGMENTATION_REFERENCES
  }

  /** It fails exactly when every one of the 2^24 references is still frozen, and never gives out a frozen one. */
  lemma AllocatedExact(p: Pool, now: nat, freeze: nat)
    requires ValidPool(p)
    ensures var order := p.order[Thawed(p.order, now)..];
            var r := Allocated(p, now, freeze).1;
            && (r == None <==> AllFrozen(p, now))
            && (r.Some? ==> r.value < SEGMENTATION_REFERENCES && forall i :: 0 <= i < |order| ==> order[i].ref != r.value)
  {
    var order := p.order[Thawed(p.order, now)..];
    var used := RefsOf(order);
    RefsSize(order);
    FreeExact(used, SEGMENTATION_REFERENCES);
    SearchComplete(used, p.next, SEGMENTATION_REFERENCES);
    assert forall i :: 0 <= i < |order| ==> order[i].ref in used;
  }

  /**
   * The reference given out is the first from next on that is not frozen; the next search starts after it, and it joins
   * the end of the list, frozen until the time given after now.
   */
  lemma AllocatedFirst(p: Pool, now: nat, freeze: nat) returns (k: nat)
    requires ValidPool(p) && Allocated(p, now, freeze).1.Some?
    ensures var (q, r) := Allocated(p, now, freeze);
            && q.next == (if r.value + 1 == 0x100_0000 then 0 else r.value + 1)
            && |q.order| > 0 && q.order[|q.order| - 1] == Frozen(r.value, now + freeze)
            && FirstFree(RefsOf(q.order[..|q.order| - 1]), p.next, SEGMENTATION_REFERENCES, r.value, k)
    ensures exists n: nat :: n <= |p.order| && Allocated(p, now, freeze).0.order[..|Allocated(p, now, freeze).0.order| - 1] == p.order[n..]
              && (forall i :: 0 <= i < n ==> p.order[i].until <= now) && (n < |p.order| ==> p.order[n].until > now)
  {
    var kept, limit := p.order[Thawed(p.order, now)..], SEGMENTATION_REFERENCES;
    var used := RefsOf(kept);
    var n := Min(limit, |used| + 1);
    SearchExact(used, p.next, limit, n);
    k :| 0 <= k < n && Search(used, p.next, limit, n) == Some(Candidate(p.next, k, limit))
         && forall j :: 0 <= j < k ==> Candidate(p.next, j, limit) in used;
    var q := Allocated(p, now, freeze).0;
    assert q.order[..|q.order| - 1] == kept;
  }

  lemma FreeExact(used: set<nat>, limit: nat)
    requires forall r :: r in used ==> r < limit
    ensures SomeFree(used, limit) <==> |used| < limit
  {
    var all := Below(limit);
    BelowSize(limit);
    SubsetSize(used, all);
    if |used| < limit {
      assert used != all;
      var r :| r in all && r !in used;
    }
  }

  /** allocateSegmentationReference: the map of frozen references and the list that orders them. */
  class SegmentationReferences {
    var next: nat
    var frozen: map<nat, nat>
    var order: seq<Frozen>

    /** Every frozen reference is in the list exactly once, with the time the map has for it. */
    ghost predicate Valid()
      reads this
    {
      ValidPool(Pool(next, order)) && Tells(frozen, order)
    }

    constructor ()
      ensures Valid() && next == 1 && order == []
    {
      next, frozen, order := 1, map[], [];
    }

    method Allocate(now: nat, freeze: nat) returns (r: Option<nat>)
      requires Valid()
      modifies this
      ensures Valid() && (Pool(next, order), r) == Allocated(old(Pool(next, order)), now, freeze)
    {
      hide RefsOf, Tells, Distinct, Thawed;
      ghost var pool := Pool(next, order);
      AllocatedValid(pool, now, freeze);
      AllocatedExact(pool, now, freeze);
      Thaw(now);
      RefsSize(order);
      TellsKeys(frozen, order);
      assert |frozen.Keys| == |order|;
      if |frozen| > SEGMENTATION_REFERENCES - 1 {
        return None;
      }
      ghost var used := RefsOf(order);
      ghost var attempts: nat, most: nat := 0, Min(SEGMENTATION_REFERENCES, |used| + 1);
      var ref: nat := next % SEGMENTATION_REFERENCES;
      next := (ref + 1) % SEGMENTATION_REFERENCES;
      while ref in frozen
        invariant attempts <= most && ref < SEGMENTATION_REFERENCES && next == (ref + 1) % SEGMENTATION_REFERENCES
        invariant Search(used, pool.next, SEGMENTATION_REFERENCES, most) == Search(used, ref, SEGMENTATION_REFERENCES, most - attempts)
        decreases most - attempts
        modifies this`next
      {
        StillSearching(frozen, order, used, ref, most - attempts);
        ref := next % SEGMENTATION_REFERENCES;
        next := (ref + 1) % SEGMENTATION_REFERENCES;
        attempts := attempts + 1;
      }
      TellsMore(frozen, order, Frozen(ref, now + freeze));
      frozen := frozen[ref := now + freeze];
      order := order + [Frozen(ref, now + freeze)];
      r := Some(ref);
    }

    /** The references whose freeze has ended leave the list, from its front, and the map. */
    method Thaw(now: nat)
      requires Valid()
      modifies this`frozen, this`order
      ensures Valid() && order == old(order[Thawed(order, now)..])
    {
      hide Thawed, RefsOf, Distinct, Tells;
      var i := 0;
      while i < |order| && order[i].until <= now
        invariant order == old(order) && i <= |order| && (forall j :: 0 <= j < i ==> order[j].until <= now) && Tells(frozen, order[i..])
      {
        assert order[i..][1..] == order[i + 1..];
        ValidRest(Pool(next, order), i);
        TellsRest(frozen, order[i..]);
        var f := order[i];
        TellsFirst(frozen, order[i..]);
        if f.ref in frozen && frozen[f.ref] == f.until {
          frozen := frozen - {f.ref};
        }
        i := i + 1;
      }
      ThawedIs(order, now, i);
      ValidRest(Pool(next, order), i);
      order := order[i..];
    }
  }

  lemma ValidRest(p: Pool, n: nat)
    requires ValidPool(p) && n <= |p.order|
    ensures ValidPool(Pool(p.next, p.order[n..]))
  {
    assert forall i :: 0 <= i < |p.order| - n ==> p.order[n..][i] == p.order[i + n];
  }

  lemma {:induction false} ThawedIs(order: seq<Frozen>, now: nat, n: nat)
    requires n <= |order| && (forall j :: 0 <= j < n ==> order[j].until <= now) && (n < |order| ==> order[n].until > now)
    ensures Thawed(order, now) == n
  {
    if n > 0 {
      ThawedIs(order[1..], now, n - 1);
    }
  }

  /** A frozen candidate is not the one that the search is going to find. */
  lemma StillSearching(frozen: map<nat, nat>, order: seq<Frozen>, used: set<nat>, ref: nat, n: nat)
    requires Tells(frozen, order) && used == RefsOf(order) && ref in frozen && ref < SEGMENTATION_REFERENCES
    requires Search(used, ref, SEGMENTATION_REFERENCES, n).Some?
    ensures n > 0
    ensures Search(used, ref, SEGMENTATION_REFERENCES, n)
            == Search(used, (ref + 1) % SEGMENTATION_REFERENCES, SEGMENTATION_REFERENCES, n - 1)
  {
    hide RefsOf;
  }

  lemma TellsKeys(frozen: map<nat, nat>, order: seq<Frozen>)
    requires Tells(frozen, order)
    ensures frozen.Keys == RefsOf(order)
  {
  }

  lemma TellsFirst(frozen: map<nat, nat>, order: seq<Frozen>)
    requires Tells(frozen, order) && |order| > 0
    ensures order[0].ref in frozen && frozen[order[0].ref] == order[0].until
  {
  }

  lemma TellsMore(frozen: map<nat, nat>, order: seq<Frozen>, f: Frozen)
    requires Tells(frozen, order) && f.ref !in frozen
    ensures Tells(frozen[f.ref := f.until], order + [f])
  {
    var more := order + [f];
    assert forall i :: 0 <= i < |order| ==> more[i] == order[i];
    assert more[|order|] == f;
    assert RefsOf(more) == RefsOf(order) + {f.ref};
  }

  lemma TellsRest(frozen: map<nat, nat>, order: seq<Frozen>)
    requires |order| > 0 && Distinct(order) && Tells(frozen, order)
    ensures Tells(frozen - {order[0].ref}, order[1..])
  {
    var rest := order[1..];
    assert forall i :: 0 <= i < |rest| ==> rest[i] == order[i + 1];
    assert RefsOf(order) == {order[0].ref} + RefsOf(rest);
  }

  ghost predicate Tells(frozen: map<nat, nat>, order: seq<Frozen>) {
    && frozen.Keys == RefsOf(order)
    && forall i :: 0 <= i < |order| ==> order[i].ref in frozen && frozen[order[i].ref] == order[i].until
  }

  // ----- Runs -----

  /** The pool after the first i of a run of allocations, at any times. */
  ghost function PoolAt(p: Pool, nows: seq<nat>, freeze: nat, i: nat): (q: Pool)
    requires ValidPool(p) && i <= |nows|
    ensures ValidPool(q)
  {
    if i == 0 then p else
    AllocatedValid(PoolAt(p, nows, freeze, i - 1), nows[i - 1], freeze);
    Allocated(PoolAt(p, nows, freeze, i - 1), nows[i - 1], freeze).0
  }

  ghost function GivenAt(p: Pool, nows: seq<nat>, freeze: nat, i: nat): Option<nat>
    requires ValidPool(p) && i < |nows|
  {
    Allocated(PoolAt(p, nows, freeze, i), nows[i], freeze).1
  }

  /** A frozen reference stays frozen until a call at or after its time. */
  lemma FrozenStays(p: Pool, now: nat, freeze: nat, f: Frozen)
    requires ValidPool(p) && f in p.order && now < f.until
    ensures f in Allocated(p, now, freeze).0.order && Allocated(p, now, freeze).1 != Some(f.ref)
  {
    var n := Thawed(p.order, now);
    var i :| 0 <= i < |p.order| && p.order[i] == f;
    assert p.order[n..][i - n] == f;
    assert f.ref in RefsOf(p.order[n..]);
  }

  lemma GivenIsFrozen(p: Pool, now: nat, freeze: nat)
    requires ValidPool(p)
    ensures var (q, r) := Allocated(p, now, freeze);
            r.Some? ==> Frozen(r.value, now + freeze) in q.order
  {
    hide Thawed, Search, RefsOf;
  }

  lemma {:induction false} FrozenUntil(p: Pool, nows: seq<nat>, freeze: nat, i: nat, j: nat, ref: nat)
    requires ValidPool(p) && i < j <= |nows| && GivenAt(p, nows, freeze, i) == Some(ref)
    requires forall m :: i < m < j ==> nows[m] < nows[i] + freeze
    ensures Frozen(ref, nows[i] + freeze) in PoolAt(p, nows, freeze, j).order
    decreases j
  {
    hide Allocated;
    if j == i + 1 {
      GivenIsFrozen(PoolAt(p, nows, freeze, i), nows[i], freeze);
    } else {
      FrozenUntil(p, nows, freeze, i, j - 1, ref);
      FrozenStays(PoolAt(p, nows, freeze, j - 1), nows[j - 1], freeze, Frozen(ref, nows[i] + freeze));
    }
  }

  /**
   * Whatever the clock does, a reference is given out again only after an allocation at a time when the freeze that
   * followed its last use had ended.
   */
  lemma ReusedAfterFreeze(p: Pool, nows: seq<nat>, freeze: nat, i: nat, j: nat) returns (m: nat)
    requires ValidPool(p) && i < j < |nows|
    requires GivenAt(p, nows, freeze, i).Some? && GivenAt(p, nows, freeze, i) == GivenAt(p, nows, freeze, j)
    ensures i < m <= j && nows[m] >= nows[i] + freeze
  {
    var ref := GivenAt(p, nows, freeze, i).value;
    m := i + 1;
    while m < j && nows[m] < nows[i] + freeze
      invariant i < m <= j && forall n :: i < n < m ==> nows[n] < nows[i] + freeze
    {
      m := m + 1;
    }
    if m == j && nows[j] < nows[i] + freeze {
      FrozenUntil(p, nows, freeze, i, j, ref);
      FrozenStays(PoolAt(p, nows, freeze, j), nows[j], freeze, Frozen(ref, nows[i] + freeze));
      assert false;
    }
  }
}
