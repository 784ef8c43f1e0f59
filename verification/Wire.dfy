/**
 * The message layout of ITU-T Q.713 (03/01) sections 1.2 to 1.6, for any message type: a type octet, a fixed
 * part, pointers, mandatory variable parameters and an optional part.
 *
 * Render is the canonical layout the encoder produces. Places is the relation a receiver has to accept: every
 * parameter lies where its pointer says, in any order, with any gaps. Parse follows the pointers.
 */
module Wire {
  import opened Basics

  const END_OF_OPTIONS: byte := 0

  /** An optional parameter: name and contents. */
  datatype Param = Param(code: byte, value: bytes)

  /** The largest number an indicator of one or two octets can carry. */
  function NumberLimit(size: nat): nat {
    if size == 1 then 0xff else 0xffff
  }

  /** What a message type fixes about its layout. longData: the last variable parameter has a two-octet length. */
  datatype Shape = Shape(code: byte, fixed: nat, variables: nat, pointerSize: nat, longData: bool, optional: bool) {
    predicate Valid() {
      1 <= pointerSize <= 2 && (longData ==> variables > 0)
    }

    function Pointers(): nat {
      variables + (if optional then 1 else 0)
    }

    function PointerAt(i: nat): nat {
      1 + fixed + (if pointerSize == 1 then i else 2 * i)
    }

    /** The first octet after the pointers. */
    function Start(): nat {
      PointerAt(Pointers())
    }

    predicate IsLong(i: nat) {
      longData && i + 1 == variables
    }

    function LengthSize(i: nat): nat {
      if IsLong(i) then 2 else 1
    }

    function LengthLimit(i: nat): nat {
      NumberLimit(LengthSize(i))
    }
  }

  datatype Frame = Frame(fixed: bytes, variables: seq<bytes>, options: seq<Param>)

  // ----- The canonical layout -----

  /** Less significant octet first when there are two. */
  function Number(size: nat, v: nat): bytes
    requires 1 <= size <= 2 && v <= NumberLimit(size)
    ensures |Number(size, v)| == size
  {
    if size == 1 then [v] else [v % 256, v / 256]
  }

  /** A mandatory variable parameter behind its length indicator. */
  function Block(sh: Shape, i: nat, v: bytes): bytes
    requires |v| <= sh.LengthLimit(i)
  {
    Number(sh.LengthSize(i), |v|) + v
  }

  function BlockLength(sh: Shape, i: nat, v: bytes): nat {
    sh.LengthSize(i) + |v|
  }

  predicate LengthsFit(sh: Shape, vs: seq<bytes>) {
    forall i :: 0 <= i < |vs| ==> |vs[i]| <= sh.LengthLimit(i)
  }

  /** The parameters in pointer order with no gaps. */
  function Blocks(sh: Shape, vs: seq<bytes>): bytes
    requires LengthsFit(sh, vs)
  {
    if |vs| == 0 then [] else
    var n := |vs| - 1;
    Blocks(sh, vs[..n]) + Block(sh, n, vs[n])
  }

  function BlocksLength(sh: Shape, vs: seq<bytes>): nat {
    if |vs| == 0 then 0 else
    var n := |vs| - 1;
    BlocksLength(sh, vs[..n]) + BlockLength(sh, n, vs[n])
  }

  /** Where the canonical layout puts what pointer i designates. */
  function Target(sh: Shape, vs: seq<bytes>, i: nat): nat
    requires i <= |vs|
  {
    sh.Start() + BlocksLength(sh, vs[..i])
  }

  /** A pointer counts from its most significant octet, included, to its target, excluded. */
  function PointerTo(sh: Shape, i: nat, target: nat): int {
    target - (sh.PointerAt(i) + sh.pointerSize - 1)
  }

  /** The value of pointer i: zero when no optional part is present. */
  function PointerValue(sh: Shape, fr: Frame, i: nat): nat
    requires sh.Valid() && i <= |fr.variables| <= sh.Pointers() && i < sh.Pointers()
  {
    if i == sh.variables && fr.options == [] then 0
    else
      assert sh.PointerAt(i + 1) <= sh.Start();
      PointerTo(sh, i, Target(sh, fr.variables, i))
  }

  function PointerValues(sh: Shape, fr: Frame): (values: seq<nat>)
    requires sh.Valid() && |fr.variables| == sh.variables
    ensures |values| == sh.Pointers() && forall i :: 0 <= i < |values| ==> values[i] == PointerValue(sh, fr, i)
  {
    seq(sh.Pointers(), i requires 0 <= i < sh.Pointers() => PointerValue(sh, fr, i))
  }

  predicate AllAtMost(values: seq<nat>, limit: nat) {
    forall i :: 0 <= i < |values| ==> values[i] <= limit
  }

  predicate Representable(sh: Shape, fr: Frame)
    requires sh.Valid()
  {
    && |fr.fixed| == sh.fixed
    && |fr.variables| == sh.variables
    && LengthsFit(sh, fr.variables)
    && (!sh.optional ==> fr.options == [])
    && AllAtMost(PointerValues(sh, fr), NumberLimit(sh.pointerSize))
    && ValidOptions(fr.options)
  }

  predicate ValidOptions(ps: seq<Param>) {
    forall p :: p in ps ==> p.code != END_OF_OPTIONS && |p.value| <= 0xff
  }

  function Numbers(size: nat, values: seq<nat>): bytes
    requires 1 <= size <= 2 && AllAtMost(values, NumberLimit(size))
    ensures |Numbers(size, values)| == (if size == 1 then |values| else 2 * |values|)
  {
    if |values| == 0 then [] else Numbers(size, values[..|values| - 1]) + Number(size, values[|values| - 1])
  }

  function PointerArea(sh: Shape, fr: Frame): bytes
    requires sh.Valid() && |fr.variables| == sh.variables && AllAtMost(PointerValues(sh, fr), NumberLimit(sh.pointerSize))
  {
    Numbers(sh.pointerSize, PointerValues(sh, fr))
  }

  function Encoded(p: Param): bytes
    requires |p.value| <= 0xff
  {
    [p.code, |p.value|] + p.value
  }

  function OptionOctets(ps: seq<Param>): bytes
    requires ValidOptions(ps)
  {
    if |ps| == 0 then [] else OptionOctets(ps[..|ps| - 1]) + Encoded(ps[|ps| - 1])
  }

  function OptionsLength(ps: seq<Param>): nat {
    if |ps| == 0 then 0 else OptionsLength(ps[..|ps| - 1]) + 2 + |ps[|ps| - 1].value|
  }

  /** The end of optional parameters octet is present only when optional parameters are. */
  function Tail(ps: seq<Param>): bytes
    requires ValidOptions(ps)
  {
    if ps == [] then [] else OptionOctets(ps) + [END_OF_OPTIONS]
  }

  function Render(sh: Shape, fr: Frame): bytes
    requires sh.Valid() && Representable(sh, fr)
  {
    [sh.code] + fr.fixed + PointerArea(sh, fr) + Blocks(sh, fr.variables) + Tail(fr.options)
  }

  /** The size of the canonical layout depends on the lengths of its parameters only. */
  function RenderLength(sh: Shape, fr: Frame): nat {
    sh.Start() + BlocksLength(sh, fr.variables) + (if fr.options == [] then 0 else OptionsLength(fr.options) + 1)
  }

  // ----- The layouts a receiver accepts -----

  predicate Holds(b: bytes, at: nat, x: bytes) {
    at + |x| <= |b| && forall k :: 0 <= k < |x| ==> x[k] == b[at + k]
  }

  lemma HoldsSlice(b: bytes, at: nat, x: bytes)
    ensures Holds(b, at, x) <==> at + |x| <= |b| && b[at..at + |x|] == x
  {
    if at + |x| <= |b| && b[at..at + |x|] == x {
      assert forall k :: 0 <= k < |x| ==> x[k] == b[at..at + |x|][k];
    }
  }

  function ReadNumber(b: bytes, at: nat, size: nat): nat
    requires 1 <= size <= 2 && at + size <= |b|
  {
    if size == 1 then b[at] else b[at] as int + b[at + 1] as int * 256
  }

  /** Optional parameters in sequence, up to the end octet or the end of the message. */
  ghost predicate OptionsAt(b: bytes, at: nat, ps: seq<Param>)
    decreases |ps|
  {
    if |ps| == 0 then at == |b| || (at < |b| && b[at] == END_OF_OPTIONS)
    else
      && ps[0].code != END_OF_OPTIONS
      && |ps[0].value| <= 0xff
      && Holds(b, at, Encoded(ps[0]))
      && OptionsAt(b, at + 2 + |ps[0].value|, ps[1..])
  }

  /** Message b carries frame fr with its parameters at the given offsets. */
  ghost predicate Places(sh: Shape, fr: Frame, b: bytes, at: seq<nat>)
    requires sh.Valid()
  {
    && |fr.fixed| == sh.fixed && |fr.variables| == sh.variables && |at| == sh.Pointers()
    && LengthsFit(sh, fr.variables)
    && sh.Start() <= |b| && b[0] == sh.code && Holds(b, 1, fr.fixed)
    && (forall i :: 0 <= i < sh.variables ==> VariablePlaced(sh, b, i, at[i], fr.variables[i]))
    && (!sh.optional ==> fr.options == [])
    && (sh.optional ==> OptionsPlaced(sh, b, at[sh.variables], fr.options))
  }

  predicate PointsTo(sh: Shape, b: bytes, i: nat, target: nat)
    requires sh.Valid() && i < sh.Pointers() && sh.Start() <= |b|
  {
    PointerRoom(sh, i);
    sh.Start() <= target && ReadNumber(b, sh.PointerAt(i), sh.pointerSize) == PointerTo(sh, i, target)
  }

  predicate VariablePlaced(sh: Shape, b: bytes, i: nat, at: nat, v: bytes)
    requires sh.Valid() && i < sh.variables && sh.Start() <= |b| && |v| <= sh.LengthLimit(i)
  {
    PointsTo(sh, b, i, at) && Holds(b, at, Block(sh, i, v))
  }

  ghost predicate OptionsPlaced(sh: Shape, b: bytes, at: nat, ps: seq<Param>)
    requires sh.Valid() && sh.optional && sh.Start() <= |b|
  {
    PointerRoom(sh, sh.variables);
    if ReadNumber(b, sh.PointerAt(sh.variables), sh.pointerSize) == 0 then ps == []
    else PointsTo(sh, b, sh.variables, at) && at <= |b| && OptionsAt(b, at, ps)
  }

  lemma PointerRoom(sh: Shape, i: nat)
    requires sh.Valid() && i < sh.Pointers()
    ensures sh.PointerAt(i) + sh.pointerSize <= sh.Start()
  {
  }

  // ----- Following the pointers -----

  /** The offset pointer i designates: None for a pointer into the pointers or past the end, Some(None) for zero. */
  function Follow(sh: Shape, b: bytes, i: nat): Option<Option<nat>>
    requires sh.Valid() && i < sh.Pointers() && sh.Start() <= |b|
  {
    PointerRoom(sh, i);
    var v := ReadNumber(b, sh.PointerAt(i), sh.pointerSize);
    var t := sh.PointerAt(i) + sh.pointerSize - 1 + v;
    if v == 0 then Some(None)
    else if t < sh.Start() || t > |b| then None
    else Some(Some(t))
  }

  function ParseVariable(sh: Shape, b: bytes, i: nat): (r: Option<bytes>)
    requires sh.Valid() && i < sh.variables && sh.Start() <= |b|
    ensures r.Some? ==> |r.value| <= sh.LengthLimit(i)
  {
    match Follow(sh, b, i)
    case None => None
    case Some(None) => None
    case Some(Some(t)) =>
      var size := sh.LengthSize(i);
      if t + size > |b| then None else
      var n := ReadNumber(b, t, size);
      if t + size + n > |b| then None else Some(b[t + size..t + size + n])
  }

  function ParseVariables(sh: Shape, b: bytes, n: nat): (r: Option<seq<bytes>>)
    requires sh.Valid() && n <= sh.variables && sh.Start() <= |b|
    ensures r.Some? ==> |r.value| == n && LengthsFit(sh, r.value)
  {
    if n == 0 then Some([]) else
    match (ParseVariables(sh, b, n - 1), ParseVariable(sh, b, n - 1))
    case (Some(vs), Some(v)) => Some(vs + [v])
    case _ => None
  }

  function ParseOptions(b: bytes, at: nat): Option<seq<Param>>
    decreases |b| - at
  {
    if at >= |b| || b[at] == END_OF_OPTIONS then Some([])
    else if at + 2 > |b| || at + 2 + b[at + 1] > |b| then None
    else
      var next := at + 2 + b[at + 1];
      match ParseOptions(b, next)
      case None => None
      case Some(rest) => Some([Param(b[at], b[at + 2..next])] + rest)
  }

  function ParseOptionalPart(sh: Shape, b: bytes): Option<seq<Param>>
    requires sh.Valid() && sh.Start() <= |b|
  {
    if !sh.optional then Some([]) else
    match Follow(sh, b, sh.variables)
    case None => None
    case Some(None) => Some([])
    case Some(Some(t)) => ParseOptions(b, t)
  }

  function Parse(sh: Shape, b: bytes): Option<Frame>
    requires sh.Valid()
  {
    if |b| < sh.Start() || b[0] != sh.code then None else
    match (ParseVariables(sh, b, sh.variables), ParseOptionalPart(sh, b))
    case (Some(vs), Some(ps)) => Some(Frame(b[1..1 + sh.fixed], vs, ps))
    case _ => None
  }

  // ----- Parse accepts exactly the layouts of Places -----

  lemma NumberRoundTrip(b: bytes, at: nat, size: nat, v: nat)
    requires 1 <= size <= 2 && v <= NumberLimit(size)
    requires at + size <= |b|
    ensures Holds(b, at, Number(size, v)) <==> ReadNumber(b, at, size) == v
  {
    var x := Number(size, v);
    assert x[0] == (if size == 1 then v else v % 256);
    assert size == 2 ==> x[1] == v / 256;
  }

  lemma HoldsSplit(b: bytes, at: nat, x: bytes, y: bytes)
    ensures Holds(b, at, x + y) <==> Holds(b, at, x) && Holds(b, at + |x|, y)
  {
    if Holds(b, at, x + y) {
      forall k | 0 <= k < |x| ensures x[k] == b[at + k] { assert (x + y)[k] == b[at + k]; }
      forall k | 0 <= k < |y| ensures y[k] == b[at + |x| + k] { assert (x + y)[|x| + k] == b[at + (|x| + k)]; }
    }
  }

  /** The only offset pointer i can designate. */
  function OffsetOf(sh: Shape, b: bytes, i: nat): nat
    requires sh.Valid() && i < sh.Pointers() && sh.Start() <= |b|
  {
    PointerRoom(sh, i);
    sh.PointerAt(i) + sh.pointerSize - 1 + ReadNumber(b, sh.PointerAt(i), sh.pointerSize)
  }

  lemma VariableExact(sh: Shape, b: bytes, i: nat, at: nat, v: bytes)
    requires sh.Valid() && i < sh.variables && sh.Start() <= |b| && |v| <= sh.LengthLimit(i)
    ensures VariablePlaced(sh, b, i, at, v) <==> ParseVariable(sh, b, i) == Some(v) && at == OffsetOf(sh, b, i)
  {
    PointerRoom(sh, i);
    var size := sh.LengthSize(i);
    var t := OffsetOf(sh, b, i);
    if t + size <= |b| {
      HoldsSplit(b, t, Number(size, |v|), v);
      NumberRoundTrip(b, t, size, |v|);
      HoldsSlice(b, t + size, v);
    }
  }

  lemma {:induction false} VariablesExact(sh: Shape, b: bytes, n: nat, vs: seq<bytes>)
    requires sh.Valid() && n <= sh.variables && sh.Start() <= |b| && |vs| == n && LengthsFit(sh, vs)
    ensures ParseVariables(sh, b, n) == Some(vs)
            <==> forall i :: 0 <= i < n ==> ParseVariable(sh, b, i) == Some(vs[i])
  {
    if n > 0 {
      VariablesExact(sh, b, n - 1, vs[..n - 1]);
      assert vs == vs[..n - 1] + [vs[n - 1]];
    }
  }

  lemma {:induction false} OptionsExact(b: bytes, at: nat, ps: seq<Param>)
    requires at <= |b|
    ensures ParseOptions(b, at) == Some(ps) <==> OptionsAt(b, at, ps)
    decreases |b| - at
  {
    if |ps| > 0 && |ps[0].value| <= 0xff && Holds(b, at, Encoded(ps[0])) {
      assert Encoded(ps[0])[0] == b[at] && Encoded(ps[0])[1] == b[at + 1];
    }
    if at < |b| && b[at] != END_OF_OPTIONS && at + 2 <= |b| && at + 2 + b[at + 1] <= |b| {
      var next := at + 2 + b[at + 1];
      var p := Param(b[at], b[at + 2..next]);
      HoldsSlice(b, at + 2, p.value);
      assert Holds(b, at, Encoded(p));
      if |ps| > 0 {
        OptionsExact(b, next, ps[1..]);
        assert ps == [ps[0]] + ps[1..];
        if OptionsAt(b, at, ps) {
          SameParam(b, at, ps[0], p);
        }
      }
    }
  }

  lemma SameParam(b: bytes, at: nat, p: Param, q: Param)
    requires |p.value| <= 0xff && |q.value| <= 0xff
    requires Holds(b, at, Encoded(p)) && Holds(b, at, Encoded(q))
    ensures p == q
  {
    var x, y := Encoded(p), Encoded(q);
    assert x[0] == b[at] == y[0] && x[1] == b[at + 1] == y[1];
    forall k | 0 <= k < |p.value|
      ensures p.value[k] == q.value[k]
    {
      assert x[2 + k] == b[at + (2 + k)] == y[2 + k];
    }
  }

  /**
   * Layout independence, in both directions: a message is read as a frame exactly when each parameter lies where
   * its pointer says. The offsets are free: any order, gaps, overlaps and octets after the last parameter.
   */
  lemma ParseExact(sh: Shape, b: bytes, fr: Frame)
    requires sh.Valid()
    ensures Parse(sh, b) == Some(fr) <==> exists at: seq<nat> :: Places(sh, fr, b, at)
  {
    if Parse(sh, b) == Some(fr) {
      ParsedIsPlaced(sh, b, fr);
    }
    if at: seq<nat> :| Places(sh, fr, b, at) {
      PlacedIsParsed(sh, b, fr, at);
    }
  }

  lemma PlacedIsParsed(sh: Shape, b: bytes, fr: Frame, at: seq<nat>)
    requires sh.Valid() && Places(sh, fr, b, at)
    ensures Parse(sh, b) == Some(fr)
  {
    assert ParseVariables(sh, b, sh.variables) == Some(fr.variables) by {
      forall i | 0 <= i < sh.variables
        ensures ParseVariable(sh, b, i) == Some(fr.variables[i])
      {
        VariableExact(sh, b, i, at[i], fr.variables[i]);
      }
      VariablesExact(sh, b, sh.variables, fr.variables);
    }
    HoldsSlice(b, 1, fr.fixed);
    assert ParseOptionalPart(sh, b) == Some(fr.options) by {
      if sh.optional {
        OptionalPartExact(sh, b, at[sh.variables], fr.options);
      }
    }
  }

  function Offsets(sh: Shape, b: bytes): (at: seq<nat>)
    requires sh.Valid() && sh.Start() <= |b|
    ensures |at| == sh.Pointers() && forall i :: 0 <= i < |at| ==> at[i] == OffsetOf(sh, b, i)
  {
    seq(sh.Pointers(), i requires 0 <= i < sh.Pointers() => OffsetOf(sh, b, i))
  }

  lemma ParsedIsPlaced(sh: Shape, b: bytes, fr: Frame)
    requires sh.Valid() && Parse(sh, b) == Some(fr)
    ensures Places(sh, fr, b, Offsets(sh, b))
  {
    var at := Offsets(sh, b);
    assert ParseVariables(sh, b, sh.variables) == Some(fr.variables);
    VariablesExact(sh, b, sh.variables, fr.variables);
    forall i | 0 <= i < sh.variables
      ensures VariablePlaced(sh, b, i, at[i], fr.variables[i])
    {
      VariableExact(sh, b, i, at[i], fr.variables[i]);
    }
    if sh.optional {
      OptionalPartExact(sh, b, at[sh.variables], fr.options);
    }
  }

  lemma OptionalPartExact(sh: Shape, b: bytes, at: nat, ps: seq<Param>)
    requires sh.Valid() && sh.Start() <= |b| && sh.optional
    ensures OptionsPlaced(sh, b, at, ps) ==> ParseOptionalPart(sh, b) == Some(ps)
    ensures at == OffsetOf(sh, b, sh.variables) && ParseOptionalPart(sh, b) == Some(ps) ==> OptionsPlaced(sh, b, at, ps)
  {
    var t := OffsetOf(sh, b, sh.variables);
    if t <= |b| {
      OptionsExact(b, t, ps);
    }
  }

  // ----- The canonical layout is one of them -----

  lemma HoldsPrefix(b: bytes, more: bytes, at: nat, x: bytes)
    requires Holds(b, at, x)
    ensures Holds(b + more, at, x)
  {
    forall k | 0 <= k < |x| ensures x[k] == (b + more)[at + k] {}
  }

  lemma {:induction false} BlocksHold(sh: Shape, vs: seq<bytes>, i: nat)
    requires LengthsFit(sh, vs)
    ensures |Blocks(sh, vs)| == BlocksLength(sh, vs)
    ensures i < |vs| ==> Holds(Blocks(sh, vs), BlocksLength(sh, vs[..i]), Block(sh, i, vs[i]))
  {
    if |vs| > 0 {
      var n := |vs| - 1;
      BlocksHold(sh, vs[..n], i);
      if i < n {
        assert vs[..n][..i] == vs[..i];
        var at, x := BlocksLength(sh, vs[..i]), Block(sh, i, vs[i]);
        HoldsPrefix(Blocks(sh, vs[..n]), Block(sh, n, vs[n]), at, x);
      }
    }
  }

  lemma {:induction false} NumbersHold(size: nat, values: seq<nat>, i: nat)
    requires 1 <= size <= 2 && i < |values| && AllAtMost(values, NumberLimit(size))
    ensures Holds(Numbers(size, values), if size == 1 then i else 2 * i, Number(size, values[i]))
  {
    var n := |values| - 1;
    if i < n {
      NumbersHold(size, values[..n], i);
      HoldsPrefix(Numbers(size, values[..n]), Number(size, values[n]), if size == 1 then i else 2 * i, Number(size, values[i]));
    }
  }

  lemma {:induction false} OptionsFront(ps: seq<Param>)
    requires ValidOptions(ps)
    ensures |OptionOctets(ps)| == OptionsLength(ps)
    ensures |ps| > 0 ==> ValidOptions(ps[1..]) && OptionOctets(ps) == Encoded(ps[0]) + OptionOctets(ps[1..])
  {
    if |ps| > 0 {
      var n := |ps| - 1;
      OptionsFront(ps[..n]);
      if n > 0 {
        assert ps[1..][..n - 1] == ps[..n][1..];
        assert ps[1..][n - 1] == ps[n];
      }
    }
  }

  lemma {:induction false} OptionsHeld(b: bytes, at: nat, ps: seq<Param>)
    requires ValidOptions(ps) && Holds(b, at, OptionOctets(ps))
    requires var end := at + |OptionOctets(ps)|; end == |b| || b[end] == END_OF_OPTIONS
    ensures OptionsAt(b, at, ps)
    decreases |ps|
  {
    if |ps| > 0 {
      OptionsFront(ps);
      HoldsSplit(b, at, Encoded(ps[0]), OptionOctets(ps[1..]));
      OptionsHeld(b, at + 2 + |ps[0].value|, ps[1..]);
    }
  }

  function Targets(sh: Shape, fr: Frame): (at: seq<nat>)
    requires sh.Valid() && |fr.variables| == sh.variables
    ensures |at| == sh.Pointers() && forall i :: 0 <= i < |at| ==> at[i] == Target(sh, fr.variables, i)
  {
    seq(sh.Pointers(), i requires 0 <= i < sh.Pointers() => Target(sh, fr.variables, i))
  }

  lemma PartsHold(h: bytes, f: bytes, p: bytes, v: bytes, t: bytes)
    ensures var b := h + f + p + v + t;
            && Holds(b, 0, h) && Holds(b, |h|, f) && Holds(b, |h| + |f|, p)
            && Holds(b, |h| + |f| + |p|, v) && Holds(b, |h| + |f| + |p| + |v|, t)
  {
    var b := h + f + p + v + t;
    assert Holds(b, 0, b);
    HoldsSplit(b, 0, h + f + p + v, t);
    HoldsSplit(b, 0, h + f + p, v);
    HoldsSplit(b, 0, h + f, p);
    HoldsSplit(b, 0, h, f);
  }

  lemma PartLengths(sh: Shape, fr: Frame)
    requires sh.Valid() && Representable(sh, fr)
    ensures 1 + sh.fixed + |PointerArea(sh, fr)| == sh.Start()
    ensures |Blocks(sh, fr.variables)| == BlocksLength(sh, fr.variables)
    ensures |Tail(fr.options)| == (if fr.options == [] then 0 else OptionsLength(fr.options) + 1)
  {
    BlocksHold(sh, fr.variables, 0);
    OptionsFront(fr.options);
  }

  /** The four parts of the canonical layout and where they lie. */
  ghost predicate Laid(sh: Shape, fr: Frame, b: bytes)
    requires sh.Valid() && Representable(sh, fr)
  {
    && |b| == RenderLength(sh, fr) && sh.Start() <= |b|
    && b[0] == sh.code && Holds(b, 1, fr.fixed)
    && Holds(b, 1 + sh.fixed, Numbers(sh.pointerSize, PointerValues(sh, fr)))
    && Holds(b, sh.Start(), Blocks(sh, fr.variables))
    && Holds(b, sh.Start() + BlocksLength(sh, fr.variables), Tail(fr.options))
  }

  lemma RenderLaid(sh: Shape, fr: Frame)
    requires sh.Valid() && Representable(sh, fr)
    ensures Laid(sh, fr, Render(sh, fr))
  {
    PartLengths(sh, fr);
    PartsHold([sh.code], fr.fixed, PointerArea(sh, fr), Blocks(sh, fr.variables), Tail(fr.options));
  }

  lemma HoldsWithin(b: bytes, at: nat, x: bytes, i: nat, y: bytes)
    requires Holds(b, at, x) && Holds(x, i, y)
    ensures Holds(b, at + i, y)
  {
    forall k | 0 <= k < |y|
      ensures y[k] == b[at + i + k]
    {
      assert x[i + k] == b[at + (i + k)];
    }
  }

  lemma PointerRead(b: bytes, at: nat, size: nat, values: seq<nat>, i: nat)
    requires 1 <= size <= 2 && AllAtMost(values, NumberLimit(size)) && i < |values|
    requires Holds(b, at, Numbers(size, values))
    ensures var p := at + (if size == 1 then i else 2 * i); p + size <= |b| && ReadNumber(b, p, size) == values[i]
  {
    var p := if size == 1 then i else 2 * i;
    NumbersHold(size, values, i);
    HoldsWithin(b, at, Numbers(size, values), p, Number(size, values[i]));
    NumberRoundTrip(b, at + p, size, values[i]);
  }

  lemma LaidPointer(sh: Shape, fr: Frame, b: bytes, i: nat)
    requires sh.Valid() && Representable(sh, fr) && i < sh.Pointers() && Laid(sh, fr, b)
    ensures sh.PointerAt(i) + sh.pointerSize <= sh.Start() <= |b|
    ensures ReadNumber(b, sh.PointerAt(i), sh.pointerSize) == PointerValue(sh, fr, i)
  {
    PointerRoom(sh, i);
    PointerRead(b, 1 + sh.fixed, sh.pointerSize, PointerValues(sh, fr), i);
  }

  lemma LaidVariable(sh: Shape, fr: Frame, b: bytes, i: nat)
    requires sh.Valid() && Representable(sh, fr) && i < sh.variables && Laid(sh, fr, b)
    ensures VariablePlaced(sh, b, i, Target(sh, fr.variables, i), fr.variables[i])
  {
    LaidPointer(sh, fr, b, i);
    BlocksHold(sh, fr.variables, i);
    HoldsWithin(b, sh.Start(), Blocks(sh, fr.variables),
                BlocksLength(sh, fr.variables[..i]), Block(sh, i, fr.variables[i]));
  }

  lemma TailHeld(b: bytes, t: nat, ps: seq<Param>)
    requires ValidOptions(ps) && ps != [] && Holds(b, t, Tail(ps))
    ensures t <= |b| && OptionsAt(b, t, ps)
  {
    HoldsSplit(b, t, OptionOctets(ps), [END_OF_OPTIONS]);
    assert [END_OF_OPTIONS][0] == b[t + |OptionOctets(ps)|];
    OptionsHeld(b, t, ps);
  }

  lemma LaidOptions(sh: Shape, fr: Frame, b: bytes)
    requires sh.Valid() && Representable(sh, fr) && sh.optional && Laid(sh, fr, b)
    ensures OptionsPlaced(sh, b, Target(sh, fr.variables, sh.variables), fr.options)
  {
    LaidPointer(sh, fr, b, sh.variables);
    if fr.options != [] {
      assert fr.variables[..sh.variables] == fr.variables;
      TailHeld(b, Target(sh, fr.variables, sh.variables), fr.options);
      assert sh.PointerAt(sh.variables + 1) <= sh.Start();
    }
  }

  lemma LaidPlaces(sh: Shape, fr: Frame, b: bytes)
    requires sh.Valid() && Representable(sh, fr) && Laid(sh, fr, b)
    ensures Places(sh, fr, b, Targets(sh, fr))
  {
    forall i | 0 <= i < sh.variables
      ensures VariablePlaced(sh, b, i, Targets(sh, fr)[i], fr.variables[i])
    {
      LaidVariable(sh, fr, b, i);
    }
    if sh.optional {
      LaidOptions(sh, fr, b);
    }
  }

  /** Decoding the canonical layout of a frame gives the frame back. */
  lemma RenderRoundTrip(sh: Shape, fr: Frame)
    requires sh.Valid() && Representable(sh, fr)
    ensures Parse(sh, Render(sh, fr)) == Some(fr)
    ensures |Render(sh, fr)| == RenderLength(sh, fr)
  {
    RenderLaid(sh, fr);
    LaidPlaces(sh, fr, Render(sh, fr));
    PlacedIsParsed(sh, Render(sh, fr), fr, Targets(sh, fr));
  }
}
