/** The decoder of wire.go: it walks the fixed part, follows the pointers and loops over the optional part. */
module Decoding {
  import opened Basics
  import opened Wire
  import opened Messages
  import opened Codec

  /** Sorting more parameters cannot undo a duplicate. */
  lemma {:induction false} DuplicateSticks(ps: seq<Param>, rest: seq<Param>, codes: set<byte>)
    requires Sort(ps, codes) == None
    ensures Sort(ps + rest, codes) == None
    decreases |rest|
  {
    if |rest| == 0 {
      assert ps + rest == ps;
    } else {
      var n := |rest| - 1;
      DuplicateSticks(ps, rest[..n], codes);
      assert (ps + rest)[..|ps| + n] == ps + rest[..n];
    }
  }

  /** The optional part from an offset: the parameters read so far, then the rest. */
  predicate Continues(b: bytes, start: nat, done: seq<Param>, t: nat)
    requires start <= |b| && t <= |b|
  {
    ParseOptions(b, start) == (match ParseOptions(b, t) case None => None case Some(rest) => Some(done + rest))
  }

  lemma ContinuesStep(b: bytes, start: nat, done: seq<Param>, t: nat)
    requires start <= |b| && t < |b| && Continues(b, start, done, t) && b[t] != END_OF_OPTIONS
    requires t + 2 <= |b| && t + 2 + b[t + 1] <= |b|
    ensures var next := t + 2 + b[t + 1]; Continues(b, start, done + [Param(b[t], b[t + 2..next])], next)
  {
    var next := t + 2 + b[t + 1];
    var p := Param(b[t], b[t + 2..next]);
    match ParseOptions(b, next) {
      case None =>
      case Some(rest) => assert done + ([p] + rest) == done + [p] + rest;
    }
  }

  class Decoder {
    const b: bytes
    const shape: Shape
    var off: nat
    var ptrAt: nat
    var ptrEnd: nat

    ghost predicate Valid()
      reads this
    {
      shape.Valid() && 1 <= off <= |b|
    }

    ghost predicate PointersRead()
      reads this
    {
      Valid() && ptrAt == 1 + shape.fixed && ptrEnd == shape.Start() <= |b|
    }

    constructor (b: bytes, shape: Shape)
      requires shape.Valid() && |b| >= 1
      ensures Valid() && this.b == b && this.shape == shape && off == 1
    {
      this.b, this.shape := b, shape;
      off, ptrAt, ptrEnd := 1, 0, 0;
    }

    /** The next n octets of the mandatory fixed part. */
    method Fixed(n: nat) returns (r: Option<bytes>)
      requires Valid()
      modifies `off
      ensures Valid()
      ensures if |b| - old(off) < n then r == None && off == old(off)
              else r == Some(b[old(off)..old(off) + n]) && off == old(off) + n
    {
      if |b| - off < n {
        return None;
      }
      r := Some(b[off..off + n]);
      off := off + n;
    }

    /** Skips the pointers and remembers where they are. */
    method Pointers() returns (ok: bool)
      requires Valid() && off == 1 + shape.fixed
      modifies this
      ensures ok <==> shape.Start() <= |b|
      ensures ok ==> PointersRead()
    {
      var n := shape.Pointers();
      var size := if shape.pointerSize == 1 then n else 2 * n;
      if |b| - off < size {
        return false;
      }
      ptrAt := off;
      off := off + size;
      ptrEnd := off;
      return true;
    }

    /** The offset pointer i designates. */
    function Target(i: nat): (r: Option<Option<nat>>)
      requires PointersRead() && i < shape.Pointers()
      reads this
      ensures r == Follow(shape, b, i)
    {
      PointerRoom(shape, i);
      var at := ptrAt + (if shape.pointerSize == 1 then i else 2 * i);
      var v := if shape.pointerSize == 1 then b[at] else b[at] as int + b[at + 1] as int * 256;
      var t := at + shape.pointerSize - 1 + v;
      if v == 0 then Some(None)
      else if t < ptrEnd || t > |b| then None
      else Some(Some(t))
    }

    /** A mandatory variable parameter: a non-zero pointer, room for the length indicator and for the contents. */
    function Variable(i: nat): (r: Option<bytes>)
      requires PointersRead() && i < shape.variables
      reads this
      ensures r == ParseVariable(shape, b, i)
    {
      match Target(i)
      case None => None
      case Some(None) => None
      case Some(Some(t)) =>
        if t >= |b| then None
        else if shape.IsLong(i) then
          if t + 2 > |b| then None else
          var n := b[t] as int + b[t + 1] as int * 256;
          if t + 2 + n > |b| then None else Some(b[t + 2..t + 2 + n])
        else
          var n := b[t];
          if t + 1 + n > |b| then None else Some(b[t + 1..t + 1 + n])
    }

    /** Recognised parameters are kept by code, at most one of each; the others are kept in order. */
    method Optional(codes: set<byte>) returns (r: Option<Found>)
      requires PointersRead() && shape.optional
      ensures r == match ParseOptionalPart(shape, b)
                   case None => None
                   case Some(ps) => Sort(ps, codes)
    {
      match Target(shape.variables) {
        case None =>
          return None;
        case Some(None) =>
          return Some(Found(map[], []));
        case Some(Some(start)) =>
          r := OptionalFrom(start, codes);
      }
    }

    method OptionalFrom(start: nat, codes: set<byte>) returns (r: Option<Found>)
      requires start <= |b|
      ensures r == match ParseOptions(b, start)
                   case None => None
                   case Some(ps) => Sort(ps, codes)
    {
      var t := start;
      var seen := new bool[256](_ => false);
      var known: map<byte, bytes>, raw: seq<Param> := map[], [];
      ghost var done: seq<Param> := [];
      hide Sort, ParseOptions, Continues;
      Begin(start, codes);
      while t < |b| && b[t] != END_OF_OPTIONS
        invariant t <= |b| && Continues(b, start, done, t)
        invariant Sort(done, codes) == Some(Found(known, raw))
        invariant forall c: byte :: seen[c] <==> c in known
        decreases |b| - t
      {
        if t + 2 > |b| || t + 2 + b[t + 1] > |b| {
          Truncated(start, done, t);
          return None;
        }
        ContinuesStep(b, start, done, t);
        var code := b[t];
        var next := t + 2 + b[t + 1];
        var p := Param(code, b[t + 2..next]);
        t := next;
        ghost var before := done;
        done := done + [p];
        if code !in codes {
          SortUnknown(before, p, codes, Found(known, raw));
          raw := raw + [p];
        } else if seen[code] {
          Duplicate(before, p, codes, Found(known, raw));
          DuplicateRefused(start, done, t, codes);
          return None;
        } else {
          SortAdd(before, p, codes, Found(known, raw));
          seen[code] := true;
          known := known[code := p.value];
        }
      }
      End(start, done, t);
      return Some(Found(known, raw));
    }

    lemma Begin(start: nat, codes: set<byte>)
      requires start <= |b|
      ensures Continues(b, start, [], start) && Sort([], codes) == Some(Found(map[], []))
    {
      if ParseOptions(b, start).Some? {
        assert [] + ParseOptions(b, start).value == ParseOptions(b, start).value;
      }
    }

    lemma End(start: nat, done: seq<Param>, t: nat)
      requires start <= |b| && t <= |b| && Continues(b, start, done, t) && (t == |b| || b[t] == END_OF_OPTIONS)
      ensures ParseOptions(b, start) == Some(done)
    {
      assert done + [] == done;
    }

    lemma Truncated(start: nat, done: seq<Param>, t: nat)
      requires start <= |b| && t < |b| && Continues(b, start, done, t) && b[t] != END_OF_OPTIONS
      requires t + 2 > |b| || t + 2 + b[t + 1] > |b|
      ensures ParseOptions(b, start) == None
    {
    }

    lemma Duplicate(ps: seq<Param>, p: Param, codes: set<byte>, f: Found)
      requires Sort(ps, codes) == Some(f) && p.code in codes && p.code in f.known
      ensures Sort(ps + [p], codes) == None
    {
      assert (ps + [p])[..|ps|] == ps;
    }

    lemma DuplicateRefused(start: nat, done: seq<Param>, t: nat, codes: set<byte>)
      requires start <= |b| && t <= |b| && Continues(b, start, done, t) && Sort(done, codes) == None
      ensures ParseOptions(b, start).Some? ==> Sort(ParseOptions(b, start).value, codes) == None
    {
      if ParseOptions(b, t).Some? {
        DuplicateSticks(done, ParseOptions(b, t).value, codes);
      }
    }
  }

  /** UnmarshalBinary of the message type t: fixed part, pointers, variable parameters, optional part. */
  method Unmarshal(t: MsgType, b: bytes) returns (r: Option<Message>)
    ensures r == ParseAs(t, b)
  {
    hide Assemble, Sort, ParseVariable, ParseOptionalPart;
    var sh := ShapeOf(t);
    if |b| < 1 || b[0] != sh.code {
      return None;
    }
    var d := new Decoder(b, sh);
    var fixedPart := d.Fixed(sh.fixed);
    if fixedPart == None {
      return None;
    }
    var ok := d.Pointers();
    if !ok {
      return None;
    }
    var vs: seq<bytes> := [];
    for i := 0 to sh.variables
      invariant ParseVariables(sh, b, i) == Some(vs)
    {
      var v := d.Variable(i);
      if v == None {
        MissingVariable(sh, b, i, sh.variables);
        return None;
      }
      vs := vs + [v.value];
    }
    var found := Some(Found(map[], []));
    if sh.optional {
      found := d.Optional(Codes(t));
    } else {
      NothingSorts(sh, b, Codes(t));
    }
    ParsedParts(t, b, vs);
    if found == None {
      return None;
    }
    r := Assemble(t, fixedPart.value, vs, found.value);
  }

  lemma NothingSorts(sh: Shape, b: bytes, codes: set<byte>)
    requires sh.Valid() && sh.Start() <= |b| && !sh.optional
    ensures ParseOptionalPart(sh, b) == Some([]) && Sort([], codes) == Some(Found(map[], []))
  {
  }

  lemma {:induction false} MissingVariable(sh: Shape, b: bytes, i: nat, n: nat)
    requires sh.Valid() && i < n <= sh.variables && sh.Start() <= |b| && ParseVariable(sh, b, i) == None
    ensures ParseVariables(sh, b, n) == None
  {
    if i < n - 1 {
      MissingVariable(sh, b, i, n - 1);
    }
  }

  /** What decoding amounts to once the variable parameters are read. */
  lemma ParsedParts(t: MsgType, b: bytes, vs: seq<bytes>)
    requires var sh := ShapeOf(t); sh.Start() <= |b| && b[0] == sh.code && ParseVariables(sh, b, sh.variables) == Some(vs)
    ensures var sh := ShapeOf(t);
            ParseAs(t, b) == match ParseOptionalPart(sh, b)
                             case None => None
                             case Some(ps) =>
                               match Sort(ps, Codes(t))
                               case None => None
                               case Some(f) => Assemble(t, b[1..1 + sh.fixed], vs, f)
  {
    hide Assemble, Sort, ParseOptionalPart;
  }

  /** ParseMessage: the type code selects the decoder. */
  method Parse(b: bytes) returns (r: Parsed)
    ensures r == ParseMessage(b)
  {
    if |b| < 1 {
      return Rejected(EmptyMessage);
    }
    var t := TypeOfCode(b[0]);
    if t == None {
      return Rejected(UnsupportedType(b[0]));
    }
    var m := Unmarshal(t.value, b);
    if m == None {
      return Rejected(Malformed);
    }
    return Decoded(m.value);
  }
}
