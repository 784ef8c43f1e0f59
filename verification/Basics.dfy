/** Shared vocabulary: octets, optional values, routing labels and sums over finite maps. */
module Basics {
  type byte = x: int | 0 <= x < 256
  type bytes = seq<byte>
  type u16 = x: int | 0 <= x < 0x1_0000
  type u32 = x: int | 0 <= x < 0x1_0000_0000

  datatype Option<+T> = None | Some(value: T)

  /** MTP routing information: the routing label and the network indicator of the SIO. */
  datatype RoutingLabel = RoutingLabel(opc: u32, dpc: u32, sls: byte, ni: byte)

  function ReplyLabel(received: RoutingLabel): RoutingLabel {
    RoutingLabel(received.dpc, received.opc, received.sls, received.ni)
  }

  function Min(a: int, b: int): int { if a <= b then a else b }

  function Max(a: int, b: int): int { if a >= b then a else b }

  lemma TimesOrdered(a: nat, b: nat, q: nat)
    requires a <= b
    ensures a * q <= b * q
  {
  }

  lemma TimesMore(a: nat, b: nat, q: nat)
    ensures a > b ==> a * q >= b * q + q
  {
    if a > b {
      TimesOrdered(b + 1, a, q);
    }
  }

  /** Concatenation of a sequence of sequences. */
  function Flatten<T>(xs: seq<seq<T>>): seq<T> {
    if |xs| == 0 then [] else xs[0] + Flatten(xs[1..])
  }

  lemma {:induction false} FlattenAppend<T>(xs: seq<seq<T>>, ys: seq<seq<T>>)
    ensures Flatten(xs + ys) == Flatten(xs) + Flatten(ys)
  {
    if |xs| == 0 {
      assert xs + ys == ys;
    } else {
      assert (xs + ys)[0] == xs[0] && (xs + ys)[1..] == xs[1..] + ys;
      FlattenAppend(xs[1..], ys);
    }
  }

  lemma FlattenOne<T>(x: seq<T>)
    ensures Flatten([x]) == x
  {
    assert Flatten([x]) == x + Flatten<T>([]);
  }

  /** The sum of a weight over the entries of a finite map. */
  ghost function Weigh<K(!new), V(!new)>(m: map<K, V>, w: (K, V) -> nat): nat
    decreases |m|
  {
    if m == map[] then 0 else
      var k :| k in m;
      assert |m - {k}| < |m| by { assert k in m.Keys && (m - {k}).Keys == m.Keys - {k}; }
      w(k, m[k]) + Weigh(m - {k}, w)
  }

  lemma {:induction false} WeighRemove<K(!new), V(!new)>(m: map<K, V>, k: K, w: (K, V) -> nat)
    requires k in m
    ensures Weigh(m, w) == w(k, m[k]) + Weigh(m - {k}, w)
    decreases |m|
  {
    var j :| j in m && Weigh(m, w) == w(j, m[j]) + Weigh(m - {j}, w);
    assert (m - {j}).Keys == m.Keys - {j};
    if j != k {
      WeighRemove(m - {j}, k, w);
      assert (m - {k}).Keys == m.Keys - {k};
      assert |m - {k}| < |m|;
      WeighRemove(m - {k}, j, w);
      assert m - {j} - {k} == m - {k} - {j};
    }
  }

  lemma {:induction false} WeighUpdate<K(!new), V(!new)>(m: map<K, V>, k: K, v: V, w: (K, V) -> nat)
    ensures Weigh(m[k := v], w) + (if k in m then w(k, m[k]) else 0) == Weigh(m, w) + w(k, v)
  {
    WeighRemove(m[k := v], k, w);
    assert m[k := v] - {k} == m - {k};
    if k in m {
      WeighRemove(m, k, w);
    } else {
      assert m - {k} == m;
    }
  }

  /** What replacing, entering or removing one entry does to a sum. */
  lemma WeighPut<K(!new), V(!new)>(m: map<K, V>, k: K, e: Option<V>, w: (K, V) -> nat)
    ensures Weigh(if e.Some? then m[k := e.value] else m - {k}, w) + (if k in m then w(k, m[k]) else 0)
            == Weigh(m, w) + (if e.Some? then w(k, e.value) else 0)
  {
    if e.Some? {
      WeighUpdate(m, k, e.value, w);
    } else if k in m {
      WeighRemove(m, k, w);
    } else {
      assert m - {k} == m;
    }
  }
}
