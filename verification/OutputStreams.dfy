/** Writing: a growing output, the same bytes placed in an array, and the size arithmetic
    that has to agree with both. */
module OutputStreams {
  import opened Options
  import opened Wire
  import opened WireLaws
  import opened PlayerRoundTrip

  // ---------------------------------------------------------------- sizes

  function UnknownSize(u: UnknownField): nat
    decreases u, 0
  {
    match u
    case Varint(_, v) => VarintSize(TagOf(u)) + VarintSize(v)
    case Fixed64(_, _) => VarintSize(TagOf(u)) + 8
    case LengthDelimited(_, bytes) => VarintSize(TagOf(u)) + VarintSize(|bytes|) + |bytes|
    case Group(number, fields) => VarintSize(TagOf(u)) + UnknownsSize(fields) + VarintSize(number * 8 + 4)
    case Fixed32(_, _) => VarintSize(TagOf(u)) + 4
  }

  function UnknownsSize(us: seq<UnknownField>): nat
    decreases us
  {
    if us == [] then 0 else UnknownSize(us[0]) + UnknownsSize(us[1..])
  }

  lemma {:induction false} UnknownSizeIsLength(u: UnknownField, depth: nat)
    requires Representable(u, depth)
    ensures UnknownSize(u) == |EncodeUnknown(u)|
    decreases u, 0
  {
    VarintSizeIsLength(TagOf(u));
    match u
    case Varint(_, v) => VarintSizeIsLength(v);
    case Fixed64(_, _) =>
    case LengthDelimited(_, bytes) => VarintSizeIsLength(|bytes|);
    case Group(number, fields) =>
      VarintSizeIsLength(number * 8 + 4);
      UnknownsSizeIsLength(fields, depth - 1);
    case Fixed32(_, _) =>
  }

  lemma {:induction false} UnknownsSizeIsLength(us: seq<UnknownField>, depth: nat)
    requires forall u | u in us :: Representable(u, depth)
    ensures UnknownsSize(us) == |EncodeUnknowns(us)|
    decreases us
  {
    if us != [] {
      UnknownSizeIsLength(us[0], depth);
      UnknownsSizeIsLength(us[1..], depth);
    }
  }

  lemma {:induction false} WriteElementsSnoc(tag: Byte, values: seq<nat>, v: nat)
    ensures WriteElements(tag, values + [v]) == WriteElements(tag, values) + ([tag] + EncodeVarint(v))
  {
    if values == [] {
      assert values + [v] == [v] && [v][1..] == [];
    } else {
      assert (values + [v])[1..] == values[1..] + [v];
      WriteElementsSnoc(tag, values[1..], v);
    }
  }

  // ---------------------------------------------------------------- arrays

  /** The array is `start` with `w` written over it from position `at`. */
  ghost predicate Written(target: array<Byte>, start: Bytes, at: nat, w: Bytes)
    reads target
  {
    && target.Length == |start| && at + |w| <= |start|
    && target[..] == start[..at] + w + start[at + |w|..]
  }

  /** Writes the next byte. */
  method PutByte(b: Byte, target: array<Byte>, next: nat, ghost start: Bytes, ghost at: nat, ghost w: Bytes)
    requires Written(target, start, at, w) && next == at + |w| < target.Length
    modifies target
    ensures Written(target, start, at, w + [b])
  {
    target[next] := b;
  }

  lemma VarintDigit(w: Bytes, v: nat)
    requires v >= 128
    ensures w + EncodeVarint(v) == (w + [v % 128 + 128]) + EncodeVarint(v / 128)
  {
  }

  /** The varint loop of the array writers. */
  method WriteVarintToArray(v: nat, target: array<Byte>, from: nat, ghost start: Bytes, ghost at: nat, ghost w: Bytes)
    returns (next: nat)
    requires Written(target, start, at, w) && from == at + |w| && from + |EncodeVarint(v)| <= target.Length
    modifies target
    ensures next == from + |EncodeVarint(v)| && Written(target, start, at, w + EncodeVarint(v))
  {
    next := from;
    var value := v;
    ghost var written: Bytes := w;
    while value >= 128
      invariant written + EncodeVarint(value) == w + EncodeVarint(v)
      invariant next == at + |written| && Written(target, start, at, written)
    {
      VarintDigit(written, value);
      PutByte(value % 128 + 128, target, next, start, at, written);
      written := written + [value % 128 + 128];
      value := value / 128;
      next := next + 1;
    }
    PutByte(value, target, next, start, at, written);
    next := next + 1;
  }

  method WriteBytesToArray(bytes: Bytes, target: array<Byte>, from: nat, ghost start: Bytes, ghost at: nat,
      ghost w: Bytes)
    returns (next: nat)
    requires Written(target, start, at, w) && from == at + |w| && from + |bytes| <= target.Length
    modifies target
    ensures next == from + |bytes| && Written(target, start, at, w + bytes)
  {
    for i := 0 to |bytes|
      invariant Written(target, start, at, w + bytes[..i])
    {
      PutByte(bytes[i], target, from + i, start, at, w + bytes[..i]);
      assert (w + bytes[..i]) + [bytes[i]] == w + bytes[..i + 1];
    }
    assert bytes[..|bytes|] == bytes;
    next := from + |bytes|;
  }

  /** A one-byte tag and a varint. */
  method WriteScalarToArray(tag: Byte, v: nat, target: array<Byte>, from: nat, ghost start: Bytes, ghost at: nat,
      ghost w: Bytes)
    returns (next: nat)
    requires Written(target, start, at, w) && from == at + |w| && from + 1 + |EncodeVarint(v)| <= target.Length
    modifies target
    ensures next == from + 1 + |EncodeVarint(v)| && Written(target, start, at, w + ([tag] + EncodeVarint(v)))
  {
    PutByte(tag, target, from, start, at, w);
    next := WriteVarintToArray(v, target, from + 1, start, at, w + [tag]);
    assert (w + [tag]) + EncodeVarint(v) == w + ([tag] + EncodeVarint(v));
  }

  method WriteOptionalToArray(tag: Byte, has: bool, v: nat, target: array<Byte>, from: nat, ghost start: Bytes,
      ghost at: nat, ghost w: Bytes)
    returns (next: nat)
    requires Written(target, start, at, w) && from == at + |w|
    requires from + |WriteOptional(tag, if has then Some(v) else None)| <= target.Length
    modifies target
    ensures next == from + |WriteOptional(tag, if has then Some(v) else None)|
    ensures Written(target, start, at, w + WriteOptional(tag, if has then Some(v) else None))
  {
    next := from;
    assert w + [] == w;
    if has {
      next := WriteScalarToArray(tag, v, target, from, start, at, w);
    }
  }

  method WriteElementsToArray(tag: Byte, values: seq<nat>, target: array<Byte>, from: nat, ghost start: Bytes,
      ghost at: nat, ghost w: Bytes)
    returns (next: nat)
    requires Written(target, start, at, w) && from == at + |w| && from + |WriteElements(tag, values)| <= target.Length
    modifies target
    ensures next == from + |WriteElements(tag, values)| && Written(target, start, at, w + WriteElements(tag, values))
  {
    next := from;
    assert w + [] == w;
    for i := 0 to |values|
      invariant next == from + |WriteElements(tag, values[..i])|
      invariant next + |WriteElements(tag, values[i..])| <= target.Length
      invariant Written(target, start, at, w + WriteElements(tag, values[..i]))
    {
      ghost var done := WriteElements(tag, values[..i]);
      WriteElementsSnoc(tag, values[..i], values[i]);
      assert values[..i + 1] == values[..i] + [values[i]];
      assert values[i..][0] == values[i] && values[i..][1..] == values[i + 1..];
      next := WriteScalarToArray(tag, values[i], target, next, start, at, w + done);
      assert (w + done) + ([tag] + EncodeVarint(values[i])) == w + (done + ([tag] + EncodeVarint(values[i])));
    }
    assert values[..|values|] == values;
  }

  lemma FixedDigit(w: Bytes, v: nat, n: nat)
    requires n > 0
    ensures w + EncodeFixed(v, n) == (w + [v % 256]) + EncodeFixed(v / 256, n - 1)
  {
  }

  /** The bytes of a fixed-width number, the lowest first. */
  method WriteFixedToArray(v: nat, n: nat, target: array<Byte>, from: nat,
      ghost start: Bytes, ghost at: nat, ghost w: Bytes)
    returns (next: nat)
    requires Written(target, start, at, w) && from == at + |w| && from + n <= target.Length
    modifies target
    ensures next == from + n && Written(target, start, at, w + EncodeFixed(v, n))
  {
    next := from;
    var value := v;
    ghost var written: Bytes := w;
    for i := 0 to n
      invariant written + EncodeFixed(value, n - i) == w + EncodeFixed(v, n)
      invariant next == from + i == at + |written| && Written(target, start, at, written)
    {
      FixedDigit(written, value, n - i);
      PutByte(value % 256, target, next, start, at, written);
      written := written + [value % 256];
      value := value / 256;
      next := next + 1;
    }
  }

  method WriteOptionalDoubleToArray(tag: Byte, has: bool, v: nat, target: array<Byte>, from: nat,
      ghost start: Bytes, ghost at: nat, ghost w: Bytes)
    returns (next: nat)
    requires Written(target, start, at, w) && from == at + |w|
    requires from + |WriteOptionalDouble(tag, if has then Some(v) else None)| <= target.Length
    modifies target
    ensures next == from + |WriteOptionalDouble(tag, if has then Some(v) else None)|
    ensures Written(target, start, at, w + WriteOptionalDouble(tag, if has then Some(v) else None))
  {
    hide EncodeFixed;
    next := from;
    assert w + [] == w;
    if has {
      PutByte(tag, target, from, start, at, w);
      next := WriteFixedToArray(v, 8, target, from + 1, start, at, w + [tag]);
      assert (w + [tag]) + EncodeFixed(v, 8) == w + ([tag] + EncodeFixed(v, 8));
    }
  }

  lemma {:induction false} UnknownsSplit(us: seq<UnknownField>, i: nat)
    requires i <= |us|
    ensures EncodeUnknowns(us) == EncodeUnknowns(us[..i]) + EncodeUnknowns(us[i..])
  {
    hide EncodeUnknown;
    if i == 0 {
      assert us[..0] == [] && us[0..] == us;
    } else {
      UnknownsSplit(us[1..], i - 1);
      assert us[..i][0] == us[0] && us[..i][1..] == us[1..][..i - 1] && us[1..][i - 1..] == us[i..];
    }
  }

  lemma UnknownsSnoc(us: seq<UnknownField>, i: nat)
    requires i < |us|
    ensures EncodeUnknowns(us[..i + 1]) == EncodeUnknowns(us[..i]) + EncodeUnknown(us[i])
    ensures EncodeUnknowns(us[i..]) == EncodeUnknown(us[i]) + EncodeUnknowns(us[i + 1..])
  {
    hide EncodeUnknown;
    UnknownsSplit(us[..i + 1], i);
    assert us[..i + 1][..i] == us[..i] && us[..i + 1][i..] == [us[i]] && [us[i]][1..] == [];
    assert EncodeUnknowns([us[i]]) == EncodeUnknown(us[i]) + EncodeUnknowns([]);
    assert us[i..][0] == us[i] && us[i..][1..] == us[i + 1..];
  }

  /** One unknown field by its wire type; a group holds unknown fields again. */
  method WriteUnknownToArray(u: UnknownField, target: array<Byte>, from: nat,
      ghost start: Bytes, ghost at: nat, ghost w: Bytes)
    returns (next: nat)
    requires Written(target, start, at, w) && from == at + |w| && from + |EncodeUnknown(u)| <= target.Length
    modifies target
    ensures next == from + |EncodeUnknown(u)| && Written(target, start, at, w + EncodeUnknown(u))
    decreases u, 1
  {
    hide EncodeVarint, EncodeFixed, EncodeUnknowns;
    ghost var tag := EncodeVarint(TagOf(u));
    assert w + EncodeUnknown(u) == w + tag + EncodePayload(u);
    next := WriteVarintToArray(TagOf(u), target, from, start, at, w);
    match u
    case Varint(_, v) => next := WriteVarintToArray(v, target, next, start, at, w + tag);
    case Fixed64(_, v) => next := WriteFixedToArray(v, 8, target, next, start, at, w + tag);
    case Fixed32(_, v) => next := WriteFixedToArray(v, 4, target, next, start, at, w + tag);
    case LengthDelimited(_, bytes) =>
      ghost var size := EncodeVarint(|bytes|);
      assert w + tag + (size + bytes) == (w + tag + size) + bytes;
      next := WriteVarintToArray(|bytes|, target, next, start, at, w + tag);
      next := WriteBytesToArray(bytes, target, next, start, at, w + tag + size);
    case Group(number, fields) =>
      ghost var body, end := EncodeUnknowns(fields), EncodeVarint(number * 8 + 4);
      assert w + tag + (body + end) == (w + tag + body) + end;
      next := WriteUnknownsToArray(fields, target, next, start, at, w + tag);
      next := WriteVarintToArray(number * 8 + 4, target, next, start, at, w + tag + body);
  }

  method WriteUnknownsToArray(us: seq<UnknownField>, target: array<Byte>, from: nat,
      ghost start: Bytes, ghost at: nat, ghost w: Bytes)
    returns (next: nat)
    requires Written(target, start, at, w) && from == at + |w| && from + |EncodeUnknowns(us)| <= target.Length
    modifies target
    ensures next == from + |EncodeUnknowns(us)| && Written(target, start, at, w + EncodeUnknowns(us))
    decreases us
  {
    hide EncodeUnknown;
    next := from;
    assert us[..0] == [] && w + [] == w && us[0..] == us;
    for i := 0 to |us|
      invariant next == from + |EncodeUnknowns(us[..i])|
      invariant next + |EncodeUnknowns(us[i..])| <= target.Length
      invariant Written(target, start, at, w + EncodeUnknowns(us[..i]))
    {
      ghost var done := EncodeUnknowns(us[..i]);
      UnknownsSnoc(us, i);
      assert (w + done) + EncodeUnknown(us[i]) == w + (done + EncodeUnknown(us[i]));
      next := WriteUnknownToArray(us[i], target, next, start, at, w + done);
    }
    assert us[..|us|] == us;
  }

  // ---------------------------------------------------------------- streams

  class CodedOutput {
    var bytes: Bytes

    constructor ()
      ensures bytes == []
    {
      bytes := [];
    }

    method WriteRaw(data: Bytes)
      modifies this
      ensures bytes == old(bytes) + data
    {
      bytes := bytes + data;
    }

    method WriteVarint(v: nat)
      modifies this
      ensures bytes == old(bytes) + EncodeVarint(v)
    {
      var value := v;
      while value >= 128
        invariant bytes + EncodeVarint(value) == old(bytes) + EncodeVarint(v)
      {
        bytes := bytes + [value % 128 + 128];
        value := value / 128;
      }
      bytes := bytes + [value];
    }

    method WriteScalar(tag: Byte, v: nat)
      modifies this
      ensures bytes == old(bytes) + ([tag] + EncodeVarint(v))
    {
      WriteRaw([tag]);
      WriteVarint(v);
    }

    method WriteOptionalScalar(tag: Byte, has: bool, v: nat)
      modifies this
      ensures bytes == old(bytes) + WriteOptional(tag, if has then Some(v) else None)
    {
      if has {
        WriteScalar(tag, v);
      }
    }

    method WriteFixed(v: nat, n: nat)
      modifies this
      ensures bytes == old(bytes) + EncodeFixed(v, n)
    {
      var value := v;
      for i := 0 to n
        invariant bytes + EncodeFixed(value, n - i) == old(bytes) + EncodeFixed(v, n)
      {
        FixedDigit(bytes, value, n - i);
        bytes := bytes + [value % 256];
        value := value / 256;
      }
    }

    method WriteOptionalDoubleOf(tag: Byte, has: bool, v: nat)
      modifies this
      ensures bytes == old(bytes) + WriteOptionalDouble(tag, if has then Some(v) else None)
    {
      hide EncodeFixed;
      if has {
        WriteRaw([tag]);
        WriteFixed(v, 8);
      }
    }

    method WriteElementsOf(tag: Byte, values: seq<nat>)
      modifies this
      ensures bytes == old(bytes) + WriteElements(tag, values)
    {
      for i := 0 to |values|
        invariant bytes == old(bytes) + WriteElements(tag, values[..i])
      {
        WriteElementsSnoc(tag, values[..i], values[i]);
        assert values[..i + 1] == values[..i] + [values[i]];
        WriteScalar(tag, values[i]);
      }
      assert values[..|values|] == values;
    }

    /** One unknown field by its wire type; a group holds unknown fields again. */
    method WriteUnknown(u: UnknownField)
      modifies this
      ensures bytes == old(bytes) + EncodeUnknown(u)
      decreases u, 1
    {
      hide EncodeVarint, EncodeFixed, EncodeUnknowns;
      ghost var w, tag := bytes, EncodeVarint(TagOf(u));
      assert w + EncodeUnknown(u) == w + tag + EncodePayload(u);
      WriteVarint(TagOf(u));
      match u
      case Varint(_, v) => WriteVarint(v);
      case Fixed64(_, v) => WriteFixed(v, 8);
      case Fixed32(_, v) => WriteFixed(v, 4);
      case LengthDelimited(_, data) =>
        ghost var size := EncodeVarint(|data|);
        assert w + tag + (size + data) == (w + tag + size) + data;
        WriteVarint(|data|);
        WriteRaw(data);
      case Group(number, fields) =>
        ghost var body, end := EncodeUnknowns(fields), EncodeVarint(number * 8 + 4);
        assert w + tag + (body + end) == (w + tag + body) + end;
        WriteUnknowns(fields);
        WriteVarint(number * 8 + 4);
    }

    method WriteUnknowns(us: seq<UnknownField>)
      modifies this
      ensures bytes == old(bytes) + EncodeUnknowns(us)
      decreases us
    {
      hide EncodeUnknown;
      assert us[..0] == [];
      for i := 0 to |us|
        invariant bytes == old(bytes) + EncodeUnknowns(us[..i])
      {
        ghost var done := EncodeUnknowns(us[..i]);
        UnknownsSnoc(us, i);
        assert (old(bytes) + done) + EncodeUnknown(us[i]) == old(bytes) + (done + EncodeUnknown(us[i]));
        WriteUnknown(us[i]);
      }
      assert us[..|us|] == us;
    }
  }
}
