/**
 * The encoder of wire.go: it appends to an octet buffer, reserves pointers as zeros and sets each of them when its
 * target is about to be written. The first refusal sticks.
 */
module Encoding {
  import opened Basics
  import opened Wire
  import opened Messages

  function Push(vs: Option<seq<bytes>>, v: Option<bytes>): Option<seq<bytes>> {
    if vs.Some? && v.Some? then Some(vs.value + [v.value]) else None
  }

  function AddParam(ps: Options, code: byte, contents: Option<bytes>): Options {
    if ps.Some? && contents.Some? then Some(ps.value + [Param(code, contents.value)]) else None
  }

  /** Pointer values so far: pointers to what is not written yet are zero. */
  function PartialValue(sh: Shape, vs: seq<bytes>, ps: seq<Param>, i: nat): nat
    requires sh.Valid() && i < sh.Pointers()
  {
    if i < |vs| || (i == |vs| == sh.variables && ps != []) then
      assert sh.PointerAt(i + 1) <= sh.Start();
      PointerTo(sh, i, Target(sh, vs, i))
    else 0
  }

  function PartialValues(sh: Shape, vs: seq<bytes>, ps: seq<Param>): (values: seq<nat>)
    requires sh.Valid()
    ensures |values| == sh.Pointers() && forall i :: 0 <= i < |values| ==> values[i] == PartialValue(sh, vs, ps, i)
  {
    seq(sh.Pointers(), i requires 0 <= i < sh.Pointers() => PartialValue(sh, vs, ps, i))
  }

  /** What has been appended so far can be represented. */
  predicate Carried(sh: Shape, vs: seq<bytes>, ps: seq<Param>)
    requires sh.Valid()
  {
    LengthsFit(sh, vs) && ValidOptions(ps) && AllAtMost(PartialValues(sh, vs, ps), NumberLimit(sh.pointerSize))
  }

  lemma CarriedIsRepresentable(sh: Shape, fr: Frame)
    requires sh.Valid() && |fr.fixed| == sh.fixed && |fr.variables| == sh.variables && (!sh.optional ==> fr.options == [])
    ensures PartialValues(sh, fr.variables, fr.options) == PointerValues(sh, fr)
    ensures Carried(sh, fr.variables, fr.options) <==> Representable(sh, fr)
  {
    var p, q := PartialValues(sh, fr.variables, fr.options), PointerValues(sh, fr);
    assert forall i :: 0 <= i < sh.Pointers() ==> p[i] == q[i];
    assert p == q;
  }

  /** Octets appended: setting an element in the middle of a concatenation. */
  lemma SetMiddle(head: bytes, area: bytes, tail: bytes, at: nat, x: byte)
    requires at < |area|
    ensures (head + area + tail)[|head| + at := x] == head + area[at := x] + tail
  {
  }

  /** One more variable parameter: its pointer is set and no other changes. */
  lemma PushValues(sh: Shape, vs: seq<bytes>, v: bytes)
    requires sh.Valid() && |vs| < sh.variables
    ensures var n := |vs|;
            var to := PartialValue(sh, vs + [v], [], n);
            && PartialValues(sh, vs + [v], []) == PartialValues(sh, vs, [])[n := to]
            && to == PointerTo(sh, n, sh.Start() + BlocksLength(sh, vs))
  {
    hide BlocksLength;
    var n, ws := |vs|, vs + [v];
    assert ws[..n] == vs;
    var p, q := PartialValues(sh, vs, []), PartialValues(sh, ws, []);
    forall i | 0 <= i < |q| && i != n
      ensures q[i] == p[i]
    {
      if i < n {
        assert ws[..i] == vs[..i];
      }
    }
    assert q == p[n := q[n]];
  }

  lemma SetAtMost(values: seq<nat>, i: nat, v: nat, limit: nat)
    requires i < |values| && values[i] <= limit
    ensures AllAtMost(values[i := v], limit) <==> AllAtMost(values, limit) && v <= limit
  {
    var ws := values[i := v];
    if AllAtMost(ws, limit) {
      assert ws[i] == v;
      forall k | 0 <= k < |values| ensures values[k] <= limit { assert k != i ==> ws[k] == values[k]; }
    }
  }

  lemma PushLengths(sh: Shape, vs: seq<bytes>, v: bytes)
    ensures LengthsFit(sh, vs + [v]) <==> LengthsFit(sh, vs) && |v| <= sh.LengthLimit(|vs|)
  {
    var ws := vs + [v];
    assert ws[|vs|] == v && forall i :: 0 <= i < |vs| ==> ws[i] == vs[i];
    if LengthsFit(sh, ws) {
      forall i | 0 <= i < |vs| ensures |vs[i]| <= sh.LengthLimit(i) { assert ws[i] == vs[i]; }
    }
  }

  lemma PushCarried(sh: Shape, vs: seq<bytes>, v: bytes)
    requires sh.Valid() && |vs| < sh.variables
    ensures var n := |vs|;
            var to := PartialValue(sh, vs + [v], [], n);
            && PartialValues(sh, vs + [v], []) == PartialValues(sh, vs, [])[n := to]
            && to == PointerTo(sh, n, sh.Start() + BlocksLength(sh, vs))
            && (Carried(sh, vs + [v], []) <==> Carried(sh, vs, []) && |v| <= sh.LengthLimit(n) && to <= NumberLimit(sh.pointerSize))
  {
    PushValues(sh, vs, v);
    PushLengths(sh, vs, v);
    assert PartialValues(sh, vs, [])[|vs|] == PartialValue(sh, vs, [], |vs|) == 0;
    hide LengthsFit, PartialValue, AllAtMost, PointerTo, BlocksLength;
    SetAtMost(PartialValues(sh, vs, []), |vs|, PartialValue(sh, vs + [v], [], |vs|), NumberLimit(sh.pointerSize));
  }

  /** One more optional parameter: the first one sets the pointer to the optional part. */
  lemma AddValues(sh: Shape, vs: seq<bytes>, ps: seq<Param>, p: Param)
    requires sh.Valid() && sh.optional && |vs| == sh.variables
    ensures var to := PartialValue(sh, vs, ps + [p], sh.variables);
            && PartialValues(sh, vs, ps + [p]) == PartialValues(sh, vs, ps)[sh.variables := to]
            && to == PointerTo(sh, sh.variables, sh.Start() + BlocksLength(sh, vs))
            && PartialValues(sh, vs, ps)[sh.variables] == (if ps == [] then 0 else to)
  {
    assert vs[..sh.variables] == vs;
    var x, y := PartialValues(sh, vs, ps), PartialValues(sh, vs, ps + [p]);
    assert forall i :: 0 <= i < |y| && i != sh.variables ==> y[i] == x[i];
    assert y == x[sh.variables := y[sh.variables]];
  }

  lemma AddValid(ps: seq<Param>, p: Param)
    ensures ValidOptions(ps + [p]) <==> ValidOptions(ps) && p.code != END_OF_OPTIONS && |p.value| <= 0xff
  {
    var qs := ps + [p];
    assert qs[|ps|] == p;
    assert forall i :: 0 <= i < |ps| ==> qs[i] == ps[i];
    if ValidOptions(qs) {
      assert p in qs;
      forall q | q in ps ensures q in qs { var k :| 0 <= k < |ps| && ps[k] == q; assert qs[k] == q; }
    }
  }

  lemma AddCarried(sh: Shape, vs: seq<bytes>, ps: seq<Param>, p: Param)
    requires sh.Valid() && sh.optional && |vs| == sh.variables && p.code != END_OF_OPTIONS
    ensures var to := PartialValue(sh, vs, ps + [p], sh.variables);
            && PartialValues(sh, vs, ps + [p]) == PartialValues(sh, vs, ps)[sh.variables := to]
            && to == PointerTo(sh, sh.variables, sh.Start() + BlocksLength(sh, vs))
            && (ps != [] ==> PartialValues(sh, vs, ps + [p]) == PartialValues(sh, vs, ps))
            && (Carried(sh, vs, ps + [p]) <==> Carried(sh, vs, ps) && |p.value| <= 0xff && to <= NumberLimit(sh.pointerSize))
  {
    AddValues(sh, vs, ps, p);
    AddValid(ps, p);
    hide LengthsFit, PartialValue, PointerTo, BlocksLength, ValidOptions;
    var x := PartialValues(sh, vs, ps);
    var to := PartialValue(sh, vs, ps + [p], sh.variables);
    assert ps != [] ==> x[sh.variables := to] == x;
    if x[sh.variables] <= NumberLimit(sh.pointerSize) {
      SetAtMost(x, sh.variables, to, NumberLimit(sh.pointerSize));
    } else {
      assert !AllAtMost(x, NumberLimit(sh.pointerSize));
    }
  }

  /** Setting one number of a list of numbers sets its octets and no other. */
  lemma {:induction false} NumbersSet(size: nat, values: seq<nat>, i: nat, v: nat)
    requires 1 <= size <= 2 && AllAtMost(values, NumberLimit(size)) && i < |values| && v <= NumberLimit(size)
    ensures AllAtMost(values[i := v], NumberLimit(size))
    ensures var at := if size == 1 then i else 2 * i;
            var b := Numbers(size, values);
            at + size <= |b| &&
            Numbers(size, values[i := v]) == (if size == 1 then b[at := v] else b[at := v % 256][at + 1 := v / 256])
  {
    var n := |values| - 1;
    var ws := values[i := v];
    if i == n {
      assert ws[..n] == values[..n];
    } else {
      NumbersSet(size, values[..n], i, v);
      assert ws[..n] == values[..n][i := v] && ws[n] == values[n];
    }
  }

  lemma {:induction false} NumbersZero(size: nat, n: nat, values: seq<nat>)
    requires 1 <= size <= 2 && |values| == n && (forall i :: 0 <= i < n ==> values[i] == 0)
    ensures Numbers(size, values) == seq(if size == 1 then n else 2 * n, _ => 0)
  {
    if n > 0 {
      NumbersZero(size, n - 1, values[..n - 1]);
    }
  }

  lemma NoValues(sh: Shape)
    requires sh.Valid()
    ensures AllAtMost(PartialValues(sh, [], []), NumberLimit(sh.pointerSize)) && Carried(sh, [], [])
    ensures Numbers(sh.pointerSize, PartialValues(sh, [], []))
            == seq(if sh.pointerSize == 1 then sh.Pointers() else 2 * sh.Pointers(), _ => 0)
    ensures Blocks(sh, []) + OptionOctets([]) == []
    ensures PartialValues(sh, [], []) == seq(sh.Pointers(), _ => 0)
  {
    NumbersZero(sh.pointerSize, sh.Pointers(), PartialValues(sh, [], []));
  }

  lemma NothingCarried(sh: Shape)
    requires sh.Valid()
    ensures Carried(sh, [], [])
  {
    NoValues(sh);
  }

  /** A buffer without pointers is what comes before them. */
  lemma NoPointers(head: bytes)
    ensures AllAtMost([], NumberLimit(1)) && head + Numbers(1, []) + [] == head
  {
    assert head + [] == head;
  }

  function OffsetOfNumber(size: nat, i: nat): nat {
    if size == 1 then i else 2 * i
  }

  /** From the most significant octet of number i of n to the end of the last. */
  function Distance(size: nat, n: nat, i: nat): nat
    requires i < n
  {
    if size == 1 then n - i else 2 * (n - i) - 1
  }

  lemma PointerSet(head: bytes, size: nat, values: seq<nat>, tail: bytes, i: nat, v: nat)
    requires 1 <= size <= 2 && AllAtMost(values, NumberLimit(size)) && i < |values| && v <= NumberLimit(size)
    ensures AllAtMost(values[i := v], NumberLimit(size))
    ensures var b, at := head + Numbers(size, values) + tail, |head| + OffsetOfNumber(size, i);
            && at + size <= |b|
            && (if size == 1 then b[at := v] else b[at := v % 256][at + 1 := v / 256])
               == head + Numbers(size, values[i := v]) + tail
  {
    var area := Numbers(size, values);
    NumbersSet(size, values, i, v);
    hide Numbers, AllAtMost;
    if size == 2 {
      SetMiddle(head, area, tail, 2 * i, v % 256);
      SetMiddle(head, area[2 * i := v % 256], tail, 2 * i + 1, v / 256);
    } else {
      SetMiddle(head, area, tail, i, v);
    }
  }

  lemma BlockAppended(sh: Shape, vs: seq<bytes>, p: bytes)
    requires LengthsFit(sh, vs) && |p| <= sh.LengthLimit(|vs|)
    ensures LengthsFit(sh, vs + [p]) && Blocks(sh, vs + [p]) == Blocks(sh, vs) + Block(sh, |vs|, p)
  {
    PushLengths(sh, vs, p);
    assert (vs + [p])[..|vs|] == vs;
  }

  lemma OptionAppended(ps: seq<Param>, p: Param)
    requires ValidOptions(ps) && p.code != END_OF_OPTIONS && |p.value| <= 0xff
    ensures ValidOptions(ps + [p]) && OptionOctets(ps + [p]) == OptionOctets(ps) + Encoded(p)
  {
    AddValid(ps, p);
    assert (ps + [p])[..|ps|] == ps;
  }

  /** What setting pointer |vs| and appending a block does, in the terms of the buffer. */
  lemma DistanceIs(sh: Shape, i: nat, x: nat)
    requires sh.Valid() && i < sh.Pointers()
    ensures PointerTo(sh, i, sh.Start() + x) == Distance(sh.pointerSize, sh.Pointers(), i) + x
  {
  }

  lemma PushEffect(sh: Shape, vs: seq<bytes>, p: bytes)
    requires sh.Valid() && |vs| < sh.variables && Carried(sh, vs, [])
    ensures LengthsFit(sh, vs) && OptionOctets([]) == []
    ensures var i := |vs|;
            var to := Distance(sh.pointerSize, sh.Pointers(), i) + |Blocks(sh, vs)|;
            && PartialValues(sh, vs + [p], []) == PartialValues(sh, vs, [])[i := to]
            && (Carried(sh, vs + [p], []) <==> |p| <= sh.LengthLimit(i) && to <= NumberLimit(sh.pointerSize))
            && (|p| <= sh.LengthLimit(i) ==>
                  LengthsFit(sh, vs + [p]) && Blocks(sh, vs + [p]) == Blocks(sh, vs) + Block(sh, i, p))
  {
    assert LengthsFit(sh, vs) && OptionOctets([]) == [];
    hide Carried, LengthsFit, PartialValues, PartialValue, Blocks, BlocksLength, Block, PointerTo, Distance, OptionOctets;
    PushCarried(sh, vs, p);
    BlocksHold(sh, vs, 0);
    DistanceIs(sh, |vs|, |Blocks(sh, vs)|);
    if |p| <= sh.LengthLimit(|vs|) {
      BlockAppended(sh, vs, p);
    }
  }

  lemma AddEffect(sh: Shape, vs: seq<bytes>, ps: seq<Param>, p: Param)
    requires sh.Valid() && sh.optional && |vs| == sh.variables && p.code != END_OF_OPTIONS && Carried(sh, vs, ps)
    ensures LengthsFit(sh, vs) && ValidOptions(ps)
    ensures var n := sh.variables;
            var to := Distance(sh.pointerSize, sh.Pointers(), n) + |Blocks(sh, vs)|;
            && PartialValues(sh, vs, ps + [p]) == (if ps == [] then PartialValues(sh, vs, ps)[n := to] else PartialValues(sh, vs, ps))
            && (Carried(sh, vs, ps + [p]) <==> |p.value| <= 0xff && (ps == [] ==> to <= NumberLimit(sh.pointerSize)))
            && (|p.value| <= 0xff ==> ValidOptions(ps + [p]) && OptionOctets(ps + [p]) == OptionOctets(ps) + Encoded(p))
            && (ps == [] ==> |Blocks(sh, vs) + OptionOctets(ps)| == |Blocks(sh, vs)|)
  {
    AddCarried(sh, vs, ps, p);
    BlocksHold(sh, vs, 0);
    DistanceIs(sh, sh.variables, |Blocks(sh, vs)|);
    if |p.value| <= 0xff {
      OptionAppended(ps, p);
    }
    if ps != [] {
      assert PartialValues(sh, vs, ps)[sh.variables] <= NumberLimit(sh.pointerSize);
    }
  }

  lemma EncodedIs(p: Param)
    requires |p.value| <= 0xff
    ensures Encoded(p) == [p.code, |p.value|] + p.value
  {
  }

  class Encoder {
    const orig: bytes
    ghost const shape: Shape

    var b: bytes
    var ptrAt: nat
    var ptrSize: nat
    var optIdx: int
    var optAt: int
    var failed: bool

    // What the calls have asked for so far, refused or not.
    ghost var fixedPart: Option<bytes>
    ghost var variables: Option<seq<bytes>>
    ghost var options: Options
    ghost var pointed: bool

    // The octets before the pointers, the values of the pointers and the octets after them.
    ghost var head: bytes
    ghost var values: seq<nat>
    ghost var tail: bytes

    /** The buffer has its pointers where ptrAt says. */
    ghost predicate Buffered()
      reads `b, `ptrAt, `ptrSize, `head, `values, `tail
    {
      && 1 <= ptrSize <= 2 && AllAtMost(values, NumberLimit(ptrSize))
      && ptrAt == |head|
      && b == head + Numbers(ptrSize, values) + tail
    }

    /** What the buffer holds, as long as nothing was refused, is the beginning of the canonical layout. */
    ghost predicate Meaning()
      requires !Refused()
      reads this
    {
      && head == orig + [shape.code] + fixedPart.value
      && (optAt >= 0 <==> options.value != [])
      && if !pointed then values == [] && tail == [] && optIdx == -1
         else
           && optIdx == (if shape.optional then shape.variables else -1)
           && Written(variables.value, options.value)
    }

    /** The pointers and what follows them say these parameters. */
    ghost predicate Written(vs: seq<bytes>, ps: seq<Param>)
      reads `ptrSize, `values, `tail
    {
      && shape.Valid() && Carried(shape, vs, ps)
      && ptrSize == shape.pointerSize
      && values == PartialValues(shape, vs, ps)
      && tail == Blocks(shape, vs) + OptionOctets(ps)
    }

    ghost predicate Refused()
      reads this
    {
      !(shape.Valid() && fixedPart.Some? && variables.Some? && options.Some? && Carried(shape, variables.value, options.value))
    }

    ghost predicate Valid()
      reads this
    {
      && shape.Valid()
      && (failed <==> Refused())
      && (!failed ==> Buffered() && Meaning())
      && (!pointed ==> variables == Some([]) && options == Some([]))
      && (pointed && fixedPart.Some? ==> |fixedPart.value| == shape.fixed)
      && (variables.Some? ==> |variables.value| <= shape.variables)
      && (options.Some? && options.value != [] ==> shape.optional)
    }

    constructor (orig: bytes, code: byte, ghost shape: Shape)
      requires shape.Valid() && shape.code == code
      ensures Valid() && this.orig == orig && this.shape == shape && !pointed
      ensures fixedPart == Some([]) && variables == Some([]) && options == Some([])
    {
      this.orig, this.shape := orig, shape;
      b := orig + [code];
      ptrAt, ptrSize, optIdx, optAt := |orig| + 1, 1, -1, -1;
      failed, pointed := false, false;
      fixedPart, variables, options := Some([]), Some([]), Some([]);
      head, values, tail := orig + [code], [], [];
      new;
      hide Carried, PartialValues, Numbers, AllAtMost, NumberLimit, Blocks, OptionOctets;
      NothingCarried(shape);
      NoPointers(head);
      assert orig + [shape.code] + [] == head;
    }

    // ----- The buffer -----

    /** Appends octets before any pointer is reserved. */
    method Append(x: bytes)
      requires Buffered() && values == [] && tail == []
      modifies `b, `ptrAt, `head
      ensures Buffered() && head == old(head) + x
    {
      b := b + x;
      ptrAt := |b|;
      head := head + x;
      assert old(head) + Numbers(ptrSize, []) + [] == old(head);
      assert b == head + Numbers(ptrSize, []) + [];
    }

    /** Reserves n pointers of size octets, all zero. */
    method Reserve(n: nat, size: nat)
      requires Buffered() && values == [] && tail == [] && 1 <= size <= 2
      modifies `b, `ptrAt, `ptrSize, `values
      ensures Buffered() && values == seq(n, _ => 0) && ptrSize == size
    {
      assert b == head by { assert head + Numbers(ptrSize, []) + [] == head; }
      hide Numbers;
      var zeros := seq(OffsetOfNumber(size, n), _ => 0);
      ptrAt, ptrSize := |b|, size;
      b := b + zeros;
      values := seq(n, _ => 0);
      NumbersZero(size, n, values);
      assert Numbers(size, values) == zeros;
      assert b == head + zeros + [];
    }

    /** Sets pointer i to the current end of the buffer, if a pointer can say it. */
    method Point(i: nat) returns (ok: bool)
      requires Buffered() && i < |values|
      modifies `b, `values
      ensures Buffered() && |values| == old(|values|)
      ensures var to: nat := Distance(ptrSize, |values|, i) + |tail|;
              ok == (to <= NumberLimit(ptrSize)) && values == (if ok then old(values)[i := to] else old(values))
    {
      hide AllAtMost, Numbers, Number;
      var at := ptrAt + OffsetOfNumber(ptrSize, i);
      var v := |b| - (at + ptrSize - 1);
      assert v == Distance(ptrSize, |values|, i) + |tail|;
      var limit := if ptrSize == 1 then 0xff else 0xffff;
      if v > limit {
        return false;
      }
      PointerSet(head, ptrSize, values, tail, i, v);
      if ptrSize == 2 {
        b := b[at := v % 256];
        b := b[at + 1 := v / 256];
      } else {
        b := b[at := v];
      }
      values := values[i := v];
      return true;
    }

    /** Appends octets after the pointers. */
    method Extend(x: bytes)
      requires Buffered()
      modifies `b, `tail
      ensures Buffered() && tail == old(tail) + x
    {
      b := b + x;
      tail := tail + x;
      assert b == head + Numbers(ptrSize, values) + tail;
    }

    // ----- The parts of a message -----

    /** A refusal of the message for a reason that is not the contents of one parameter. */
    method Check(ok: bool)
      requires Valid() && !pointed
      modifies this
      ensures Valid() && !pointed && variables == Some([]) && options == Some([])
      ensures fixedPart == (if ok then old(fixedPart) else None)
    {
      hide Carried, Buffered, PartialValues;
      if !ok {
        failed := true;
        fixedPart := None;
      }
    }

    /** Appends a mandatory fixed parameter. */
    method Fixed(p: Option<bytes>)
      requires Valid() && !pointed
      modifies this
      ensures Valid() && !pointed && variables == Some([]) && options == Some([])
      ensures fixedPart == Cat(old(fixedPart), p)
    {
      hide Carried, Buffered;
      if !failed {
        if p == None {
          failed := true;
        } else {
          Append(p.value);
        }
      }
      fixedPart := Cat(fixedPart, p);
    }

    /** Reserves the pointers, the last one for the optional part when there can be one. */
    method Pointers(n: nat, size: nat, optional: bool)
      requires Valid() && !pointed
      requires n == shape.Pointers() && size == shape.pointerSize && optional == shape.optional
      requires fixedPart.Some? ==> |fixedPart.value| == shape.fixed
      modifies this
      ensures Valid() && pointed && fixedPart == old(fixedPart) && variables == Some([]) && options == Some([])
    {
      hide Carried, Buffered;
      if !failed {
        Reserve(n, size);
        if optional {
          optIdx := n - 1;
        }
        NoValues(shape);
        assert values == PartialValues(shape, [], []);
      }
      pointed := true;
    }

    /** Appends contents p behind a length indicator as variable parameter i. */
    method Contents(i: nat, p: bytes, indicator: bytes, tooLong: bool, ghost vs: seq<bytes>)
      requires !failed && Buffered() && Written(vs, [])
      requires i == |vs| < shape.variables && (tooLong <==> |p| > shape.LengthLimit(i))
      requires !tooLong ==> indicator + p == Block(shape, i, p)
      modifies `b, `failed, `tail, `values
      ensures failed <==> !Carried(shape, vs + [p], [])
      ensures !failed ==> Buffered() && Written(vs + [p], [])
    {
      hide Buffered, Carried, Blocks, PartialValues, Block, OptionOctets, LengthsFit;
      PushEffect(shape, vs, p);
      ghost var area := Blocks(shape, vs);
      assert area + [] == area;
      var ok := Point(i);
      if !ok || tooLong {
        failed := true;
        return;
      }
      Extend(indicator);
      Extend(p);
      assert tail == area + (indicator + p);
      assert area + (indicator + p) + [] == area + (indicator + p);
    }

    /** Appends mandatory variable parameter i behind its one-octet length indicator. */
    method Variable(i: nat, p: Option<bytes>)
      requires Valid() && pointed && i < shape.variables && !shape.IsLong(i) && options == Some([])
      requires variables.Some? ==> |variables.value| == i
      modifies this
      ensures Valid() && pointed && fixedPart == old(fixedPart) && options == Some([])
      ensures variables == Push(old(variables), p)
    {
      hide Buffered, PartialValues, Blocks, Carried;
      if !failed {
        if p == None {
          failed := true;
        } else {
          Contents(i, p.value, if |p.value| <= 0xff then [|p.value|] else [], |p.value| > 0xff, variables.value);
        }
      } else if variables.Some? && p.Some? {
        PushCarried(shape, variables.value, p.value);
      }
      variables := Push(variables, p);
    }

    /** Appends the long data parameter, whose length indicator has two octets. */
    method LongData(i: nat, p: Option<bytes>)
      requires Valid() && pointed && i < shape.variables && shape.IsLong(i) && options == Some([])
      requires variables.Some? ==> |variables.value| == i
      requires p.Some? ==> |p.value| <= MAX_LONG_DATA
      modifies this
      ensures Valid() && pointed && fixedPart == old(fixedPart) && options == Some([])
      ensures variables == Push(old(variables), p)
    {
      hide Buffered, PartialValues, Blocks, Carried;
      if !failed {
        if p == None {
          failed := true;
        } else {
          Contents(i, p.value, [|p.value| % 256, |p.value| / 256], false, variables.value);
        }
      } else if variables.Some? && p.Some? {
        PushCarried(shape, variables.value, p.value);
      }
      variables := Push(variables, p);
    }

    method OptionalContents(p: Param, ghost vs: seq<bytes>, ghost ps: seq<Param>)
      requires !failed && Buffered() && Written(vs, ps)
      requires |vs| == shape.variables && p.code != END_OF_OPTIONS && shape.optional
      requires optIdx == shape.variables && (optAt >= 0 <==> ps != [])
      modifies `b, `failed, `tail, `optAt, `values
      ensures failed <==> !Carried(shape, vs, ps + [p])
      ensures !failed ==> Buffered() && optAt >= 0 && Written(vs, ps + [p])
    {
      hide Buffered, Carried, Blocks, PartialValues, OptionOctets, Encoded, LengthsFit, ValidOptions;
      AddEffect(shape, vs, ps, p);
      ghost var area := Blocks(shape, vs) + OptionOctets(ps);
      if optAt < 0 {
        var ok := Point(optIdx);
        if !ok {
          failed := true;
          return;
        }
        optAt := |b|;
      }
      if |p.value| > 0xff {
        failed := true;
        return;
      }
      Extend([p.code, |p.value|]);
      Extend(p.value);
      EncodedIs(p);
      assert tail == area + ([p.code, |p.value|] + p.value);
      assert Blocks(shape, vs) + OptionOctets(ps + [p]) == area + Encoded(p);
    }

    /** Appends an optional parameter; the first one sets the pointer to the optional part. */
    method Optional(code: byte, p: Option<bytes>)
      requires Valid() && pointed && code != END_OF_OPTIONS && shape.optional
      requires variables.Some? ==> |variables.value| == shape.variables
      modifies this
      ensures Valid() && pointed && fixedPart == old(fixedPart) && variables == old(variables)
      ensures options == AddParam(old(options), code, p)
    {
      hide Buffered, PartialValues, Blocks, Carried, OptionOctets;
      if !failed {
        if p == None {
          failed := true;
        } else {
          OptionalContents(Param(code, p.value), variables.value, options.value);
        }
      } else if variables.Some? && options.Some? && p.Some? {
        AddCarried(shape, variables.value, options.value, Param(code, p.value));
      }
      options := AddParam(options, code, p);
    }

    /** An optional field of the message, when it is present. */
    method OptionalField(fd: Field)
      requires Valid() && pointed && fd.code != END_OF_OPTIONS && shape.optional
      requires variables.Some? ==> |variables.value| == shape.variables
      modifies this
      ensures Valid() && pointed && fixedPart == old(fixedPart) && variables == old(variables)
      ensures options == (if fd.present then AddParam(old(options), fd.code, fd.contents) else old(options))
    {
      if fd.present {
        Optional(fd.code, fd.contents);
      }
    }

    /** The optional fields of a message, those that are present, in order. */
    method Fields(fields: seq<Field>)
      requires Valid() && pointed && shape.optional && options == Some([])
      requires variables.Some? ==> |variables.value| == shape.variables
      requires forall i :: 0 <= i < |fields| ==> fields[i].code != END_OF_OPTIONS
      modifies this
      ensures Valid() && pointed && fixedPart == old(fixedPart) && variables == old(variables)
      ensures options == Collect(fields)
    {
      hide Valid, Buffered, Carried;
      for i := 0 to |fields|
        invariant Valid() && pointed && fixedPart == old(fixedPart) && variables == old(variables)
        invariant options == Collect(fields[..i])
      {
        OptionalField(fields[i]);
        assert fields[..i + 1][..i] == fields[..i];
      }
      assert fields[..|fields|] == fields;
    }

    /** Appends the unrecognised parameters; none may use a recognised or reserved name. */
    method Raws(raw: seq<Param>, codes: set<byte>)
      requires Valid() && pointed && shape.optional
      requires variables.Some? ==> |variables.value| == shape.variables
      modifies this
      ensures Valid() && pointed && fixedPart == old(fixedPart) && variables == old(variables)
      ensures options == (if old(options).Some? && ValidRaw(raw, codes) then Some(old(options).value + raw) else None)
    {
      hide Valid, Buffered, Carried;
      ghost var before := options;
      assert before.Some? ==> before.value + raw[..0] == before.value;
      for i := 0 to |raw|
        invariant Valid() && pointed && fixedPart == old(fixedPart) && variables == old(variables)
        invariant options == (if before.Some? then Some(before.value + raw[..i]) else None)
        invariant ValidRaw(raw[..i], codes)
      {
        var r := raw[i];
        RawPrefix(raw, i, codes);
        if r.code == END_OF_OPTIONS || r.code == P_RESERVED || |r.value| > 0xff || r.code in codes {
          Refuse();
          return;
        }
        Optional(r.code, Some(r.value));
        assert before.Some? ==> before.value + raw[..i] + [r] == before.value + raw[..i + 1];
      }
      assert raw[..|raw|] == raw;
    }

    method Refuse()
      requires Valid() && pointed
      modifies `failed, `options
      ensures Valid() && options == None
    {
      failed := true;
      options := None;
    }

    /** Closes the optional part with its end octet when there is one. */
    method Finish() returns (r: Option<bytes>)
      requires Valid()
      requires variables.Some? ==> |variables.value| == shape.variables
      requires fixedPart.Some? ==> |fixedPart.value| == shape.fixed
      requires pointed || shape.Pointers() == 0
      modifies `b, `tail
      ensures r == (if fixedPart.Some? && variables.Some? && options.Some?
                       && Representable(shape, Frame(fixedPart.value, variables.value, options.value))
                    then Some(orig + Render(shape, Frame(fixedPart.value, variables.value, options.value))) else None)
    {
      hide Representable, Carried, PartialValues, PointerValues, Render;
      if fixedPart.Some? && variables.Some? && options.Some? {
        CarriedIsRepresentable(shape, Frame(fixedPart.value, variables.value, options.value));
      }
      if failed {
        return None;
      }
      ghost var fr := Frame(fixedPart.value, variables.value, options.value);
      if optAt >= 0 {
        Extend([END_OF_OPTIONS]);
      }
      FinishedRender(orig, shape, fr, ptrSize, values, tail);
      return Some(b);
    }
  }

  lemma RawPrefix(raw: seq<Param>, i: nat, codes: set<byte>)
    requires i < |raw|
    ensures raw[i] in raw && raw[..i + 1] == raw[..i] + [raw[i]]
    ensures ValidRaw(raw[..i + 1], codes) <==> ValidRaw(raw[..i], codes) && ValidRaw([raw[i]], codes)
  {
    assert raw[i] in raw[..i + 1];
    assert forall p :: p in raw[..i + 1] <==> p in raw[..i] || p == raw[i];
  }

  lemma Reassociate(o: bytes, c: bytes, f: bytes, a: bytes, b: bytes, e: bytes)
    ensures o + c + f + a + (b + e) == o + (c + f + a + b + e)
  {
  }

  /** With the end octet in place the buffer is the caller's octets and the canonical layout. */
  lemma FinishedRender(orig: bytes, sh: Shape, fr: Frame, size: nat, values: seq<nat>, tail: bytes)
    requires sh.Valid() && Representable(sh, fr)
    requires 1 <= size <= 2 && AllAtMost(values, NumberLimit(size))
    requires values == PointerValues(sh, fr) && (values != [] ==> size == sh.pointerSize)
    requires tail == Blocks(sh, fr.variables) + Tail(fr.options)
    ensures orig + [sh.code] + fr.fixed + Numbers(size, values) + tail == orig + Render(sh, fr)
  {
    var area, blocks, end := Numbers(size, values), Blocks(sh, fr.variables), Tail(fr.options);
    assert area == PointerArea(sh, fr);
    assert Render(sh, fr) == [sh.code] + fr.fixed + area + blocks + end;
    Reassociate(orig, [sh.code], fr.fixed, area, blocks, end);
  }
}
