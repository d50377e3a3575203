/** Laws of the wire format: reading is stable under appended bytes exactly when every
    length prefix stays inside its message, and encoded items read back as themselves. */
module WireLaws {
  import opened Options
  import opened Wire
  import opened Numbers

  // ---------------------------------------------------------------- appended bytes

  lemma {:induction false} DecodeVarintAppend(s: Bytes, more: Bytes, budget: nat)
    requires DecodeVarint(s, budget).Got?
    ensures DecodeVarint(s + more, budget) == Got(DecodeVarint(s, budget).value, DecodeVarint(s, budget).rest + more)
  {
    assert (s + more)[0] == s[0] && (s + more)[1..] == s[1..] + more;
    if s[0] >= 128 {
      DecodeVarintAppend(s[1..], more, budget - 1);
    }
  }

  lemma ReadVarintAppend(s: Bytes, more: Bytes, modulus: nat)
    requires modulus > 0 && ReadVarint(s, modulus).Got?
    ensures ReadVarint(s + more, modulus) == Got(ReadVarint(s, modulus).value, ReadVarint(s, modulus).rest + more)
  {
    DecodeVarintAppend(s, more, MAX_VARINT_BYTES);
  }

  lemma ReadFixedAppend(s: Bytes, more: Bytes, n: nat)
    requires ReadFixed(s, n).Got?
    ensures ReadFixed(s + more, n) == Got(ReadFixed(s, n).value, ReadFixed(s, n).rest + more)
  {
    assert (s + more)[..n] == s[..n] && (s + more)[n..] == s[n..] + more;
  }

  lemma {:induction false} ReadUnknownAppend(tag: nat, s: Bytes, more: Bytes, depth: nat)
    requires ReadUnknown(tag, s, depth).Got?
    ensures ReadUnknown(tag, s + more, depth) ==
      Got(ReadUnknown(tag, s, depth).value, ReadUnknown(tag, s, depth).rest + more)
    decreases |s|, 1
  {
    if tag % 8 == 0 {
      ReadVarintAppend(s, more, TWO_TO_64);
    } else if tag % 8 == 1 {
      ReadFixedAppend(s, more, 8);
    } else if tag % 8 == 2 {
      ReadVarintAppend(s, more, TWO_TO_32);
      var Got(n, rest) := ReadVarint(s, TWO_TO_32);
      assert (rest + more)[..n] == rest[..n] && (rest + more)[n..] == rest[n..] + more;
    } else if tag % 8 == 3 {
      ReadGroupAppend(tag / 8, s, more, depth - 1);
    } else {
      ReadFixedAppend(s, more, 4);
    }
  }

  lemma {:induction false} ReadGroupAppend(number: nat, s: Bytes, more: Bytes, depth: nat)
    requires ReadGroup(number, s, depth).Got?
    ensures ReadGroup(number, s + more, depth) ==
      Got(ReadGroup(number, s, depth).value, ReadGroup(number, s, depth).rest + more)
    decreases |s|, 0
  {
    ReadVarintAppend(s, more, TWO_TO_32);
    var Got(tag, rest) := ReadVarint(s, TWO_TO_32);
    if tag % 8 != 4 {
      ReadUnknownAppend(tag, rest, more, depth);
      ReadGroupAppend(number, ReadUnknown(tag, rest, depth).rest, more, depth);
    }
  }

  /** The first field of `s` is not a known length-delimited field whose prefix promises
      more bytes than the message has left. */
  predicate PrefixFits(schema: Schema, s: Bytes) {
    match ReadVarint(s, TWO_TO_32)
    case Fail => true
    case Got(tag, rest) =>
      if tag in schema.actions && (schema.actions[tag].ReadPacked? || schema.actions[tag].ReadMessage?) then
        match ReadSize(rest)
        case Fail => true
        case Got(n, body) => n <= |body|
      else true
  }

  /** Every length prefix at the top level of `s` stays inside `s`. */
  predicate Framed(schema: Schema, s: Bytes, depth: nat)
    requires WellFormed(schema)
    decreases |s|
  {
    s == [] ||
    (PrefixFits(schema, s) &&
     match ReadField(schema, s, depth)
     case Fail => true
     case Got(_, rest) => Framed(schema, rest, depth))
  }

  lemma ReadBodyAppend(s: Bytes, more: Bytes)
    requires ReadSize(s).Got? && ReadSize(s).value <= |ReadSize(s).rest|
    ensures ReadBody(s + more) == Got(ReadBody(s).value, ReadBody(s).rest + more)
  {
    ReadVarintAppend(s, more, TWO_TO_64);
    var Got(n, rest) := ReadSize(s);
    assert (rest + more)[..n] == rest[..n] && (rest + more)[n..] == rest[n..] + more;
  }

  lemma ReadFieldAppend(schema: Schema, s: Bytes, more: Bytes, depth: nat)
    requires WellFormed(schema) && ReadField(schema, s, depth).Got? && PrefixFits(schema, s)
    ensures ReadField(schema, s + more, depth) ==
      Got(ReadField(schema, s, depth).value, ReadField(schema, s, depth).rest + more)
  {
    ReadVarintAppend(s, more, TWO_TO_32);
    var Got(tag, rest) := ReadVarint(s, TWO_TO_32);
    if tag in schema.actions {
      match schema.actions[tag]
      case ReadScalar(_, modulus) => ReadVarintAppend(rest, more, modulus);
      case ReadDouble(_) => ReadFixedAppend(rest, more, 8);
      case ReadElement(_) => ReadVarintAppend(rest, more, TWO_TO_32);
      case ReadPacked(_) => ReadBodyAppend(rest, more);
      case ReadMessage(_, _) => ReadBodyAppend(rest, more);
    } else {
      ReadUnknownAppend(tag, rest, more, depth);
    }
  }

  /** After a framed message, parsing goes on exactly as if the rest stood alone. */
  lemma {:induction false} ParseAppend(schema: Schema, a: Bytes, b: Bytes, depth: nat)
    requires WellFormed(schema) && Parse(schema, a, depth).Some? && Framed(schema, a, depth)
    ensures Parse(schema, a + b, depth) ==
      match Parse(schema, b, depth)
      case None => None
      case Some(fields) => Some(Parse(schema, a, depth).value + fields)
    decreases |a|
  {
    if a == [] {
      assert a + b == b;
      assert forall fields: seq<Field> :: [] + fields == fields;
    } else {
      ReadFieldAppend(schema, a, b, depth);
      var Got(field, rest) := ReadField(schema, a, depth);
      ParseAppend(schema, rest, b, depth);
      assert forall x: seq<Field>, y: seq<Field> :: ([field] + x) + y == [field] + (x + y);
    }
  }

  function CountUnknown(fields: seq<Field>): nat {
    if fields == [] then 0 else (if fields[0].Unknown? then 1 else 0) + CountUnknown(fields[1..])
  }

  lemma {:induction false} CountUnknownConcat(a: seq<Field>, b: seq<Field>)
    ensures CountUnknown(a + b) == CountUnknown(a) + CountUnknown(b)
  {
    if a == [] {
      assert a + b == b;
    } else {
      assert (a + b)[1..] == a[1..] + b;
      CountUnknownConcat(a[1..], b);
    }
  }

  /** A varint field 15 with value 0: unknown to every message type modelled. */
  const STRAY: Bytes := [120, 0]

  lemma StrayIsOneUnknown(schema: Schema, depth: nat)
    requires WellFormed(schema)
    ensures Parse(schema, STRAY, depth) == Some([Unknown(Varint(15, 0))])
  {
    assert STRAY[1..] == [0] && [0][1..] == [];
    assert ReadVarint(STRAY, TWO_TO_32) == Got(120, [0]);
    assert ReadVarint([0], TWO_TO_64) == Got(0, []);
    assert 120 !in schema.actions;
    assert ReadField(schema, STRAY, depth) == Got(Unknown(Varint(15, 0)), []);
    assert Parse(schema, [], depth) == Some([]);
    assert [Unknown(Varint(15, 0))] + [] == [Unknown(Varint(15, 0))];
  }

  lemma NothingParsesZero(schema: Schema, depth: nat)
    requires WellFormed(schema)
    ensures Parse(schema, [0], depth) == None
  {
    assert ReadVarint([0], TWO_TO_32) == Got(0, [0][1..]);
  }

  /** After an unframed message, the appended field is swallowed or breaks the parse. */
  lemma {:induction false} UnframedSwallows(schema: Schema, a: Bytes, depth: nat)
    requires WellFormed(schema) && Parse(schema, a, depth).Some? && !Framed(schema, a, depth)
    ensures Parse(schema, a + STRAY, depth).Some? ==>
      CountUnknown(Parse(schema, a + STRAY, depth).value) == CountUnknown(Parse(schema, a, depth).value)
    decreases |a|
  {
    var Got(field, rest) := ReadField(schema, a, depth);
    if PrefixFits(schema, a) {
      ReadFieldAppend(schema, a, STRAY, depth);
      UnframedSwallows(schema, rest, depth);
    } else {
      var Got(tag, after) := ReadVarint(a, TWO_TO_32);
      var Got(n, body) := ReadSize(after);
      ReadVarintAppend(a, STRAY, TWO_TO_32);
      ReadVarintAppend(after, STRAY, TWO_TO_64);
      assert rest == [] && !field.Unknown?;
      var left := (body + STRAY)[Min(n, |body| + 2)..];
      assert left == if n == |body| + 1 then [0] else [];
      NothingParsesZero(schema, depth);
      match ReadField(schema, a + STRAY, depth)
      case Fail =>
      case Got(swallowed, rest') =>
        assert rest' == left && !swallowed.Unknown?;
        if left == [] {
          assert Parse(schema, left, depth) == Some([]);
          assert a + STRAY != [];
          assert [swallowed] + [] == [swallowed] && [field] + [] == [field];
          assert Parse(schema, a + STRAY, depth) == Some([swallowed]);
          assert Parse(schema, a, depth) == Some([field]);
        }
    }
  }

  /** Parsing a concatenation is concatenating the parses for every continuation exactly
      when the first part is framed. */
  lemma ConcatLawIffFramed(schema: Schema, a: Bytes, depth: nat)
    requires WellFormed(schema) && Parse(schema, a, depth).Some?
    ensures Framed(schema, a, depth) <==>
      forall b | Parse(schema, b, depth).Some? ::
        Parse(schema, a + b, depth) == Some(Parse(schema, a, depth).value + Parse(schema, b, depth).value)
  {
    if Framed(schema, a, depth) {
      forall b | Parse(schema, b, depth).Some?
        ensures Parse(schema, a + b, depth) == Some(Parse(schema, a, depth).value + Parse(schema, b, depth).value)
      {
        ParseAppend(schema, a, b, depth);
      }
    } else {
      UnframedSwallows(schema, a, depth);
      StrayIsOneUnknown(schema, depth);
      CountUnknownConcat(Parse(schema, a, depth).value, [Unknown(Varint(15, 0))]);
      assert Parse(schema, a + STRAY, depth) !=
        Some(Parse(schema, a, depth).value + Parse(schema, STRAY, depth).value);
    }
  }

  // ---------------------------------------------------------------- encoded items

  lemma {:induction false} DecodeEncodedVarint(v: nat, rest: Bytes, budget: nat)
    requires |EncodeVarint(v)| <= budget
    ensures DecodeVarint(EncodeVarint(v) + rest, budget) == Got(v, rest)
  {
    var s := EncodeVarint(v) + rest;
    if v < 128 {
      assert s[1..] == rest;
    } else {
      assert s[1..] == EncodeVarint(v / 128) + rest;
      DecodeEncodedVarint(v / 128, rest, budget - 1);
    }
  }

  function PowerOf128(n: nat): nat {
    if n == 0 then 1 else 128 * PowerOf128(n - 1)
  }

  lemma {:induction false} VarintLength(v: nat, n: nat)
    requires n >= 1 && v < PowerOf128(n)
    ensures |EncodeVarint(v)| <= n
  {
    if v >= 128 {
      assert v / 128 < PowerOf128(n - 1);
      VarintLength(v / 128, n - 1);
    }
  }

  lemma VarintLength64(v: nat)
    requires v < TWO_TO_64
    ensures |EncodeVarint(v)| <= MAX_VARINT_BYTES
  {
    assert PowerOf128(5) == 128 * 128 * 128 * 128 * 128;
    assert PowerOf128(10) >= TWO_TO_64;
    VarintLength(v, 10);
  }

  lemma SmallModulo(v: nat, modulus: nat)
    requires v < modulus
    ensures v % modulus == v
  {
  }

  /** A varint written by the serializer reads back as the value written. */
  lemma ReadEncodedVarint(v: nat, rest: Bytes, modulus: nat)
    requires v < modulus <= TWO_TO_64
    ensures ReadVarint(EncodeVarint(v) + rest, modulus) == Got(v, rest)
  {
    VarintLength64(v);
    DecodeEncodedVarint(v, rest, MAX_VARINT_BYTES);
    SmallModulo(v, modulus);
  }

  lemma {:induction false} DecodeEncodedFixed(v: nat, n: nat)
    requires v < PowerOf256(n)
    ensures DecodeFixed(EncodeFixed(v, n)) == v
  {
    if n > 0 {
      assert v / 256 < PowerOf256(n - 1);
      DecodeEncodedFixed(v / 256, n - 1);
    }
  }

  function PowerOf256(n: nat): nat {
    if n == 0 then 1 else 256 * PowerOf256(n - 1)
  }

  lemma ReadEncodedFixed(v: nat, n: nat, rest: Bytes)
    requires v < PowerOf256(n)
    ensures ReadFixed(EncodeFixed(v, n) + rest, n) == Got(v, rest)
  {
    DecodeEncodedFixed(v, n);
    var s := EncodeFixed(v, n) + rest;
    assert s[..n] == EncodeFixed(v, n) && s[n..] == rest;
  }

  // ---------------------------------------------------------------- unknown fields

  function WireType(u: UnknownField): nat {
    match u
    case Varint(_, _) => 0
    case Fixed64(_, _) => 1
    case LengthDelimited(_, _) => 2
    case Group(_, _) => 3
    case Fixed32(_, _) => 5
  }

  function TagOf(u: UnknownField): nat {
    u.number * 8 + WireType(u)
  }

  /** The field after its tag. */
  function EncodePayload(u: UnknownField): Bytes
    decreases u, 0
  {
    match u
    case Varint(_, v) => EncodeVarint(v)
    case Fixed64(_, v) => EncodeFixed(v, 8)
    case LengthDelimited(_, bytes) => EncodeVarint(|bytes|) + bytes
    case Group(number, fields) => EncodeUnknowns(fields) + EncodeVarint(number * 8 + 4)
    case Fixed32(_, v) => EncodeFixed(v, 4)
  }

  function EncodeUnknown(u: UnknownField): Bytes
    decreases u, 1
  {
    EncodeVarint(TagOf(u)) + EncodePayload(u)
  }

  function EncodeUnknowns(us: seq<UnknownField>): Bytes
    decreases us
  {
    if us == [] then [] else EncodeUnknown(us[0]) + EncodeUnknowns(us[1..])
  }

  /** The unknown fields a parse can produce with `depth` group levels to spare. */
  predicate Representable(u: UnknownField, depth: nat) {
    && 1 <= u.number && TagOf(u) + 1 < TWO_TO_32
    && match u
       case Varint(_, v) => v < TWO_TO_64
       case Fixed64(_, v) => v < PowerOf256(8)
       case LengthDelimited(_, bytes) => |bytes| < TWO_TO_31
       case Group(_, fields) => depth > 0 && forall f | f in fields :: Representable(f, depth - 1)
       case Fixed32(_, v) => v < PowerOf256(4)
  }

  lemma ReadEncodedBytes(number: nat, bytes: Bytes, rest: Bytes, depth: nat)
    requires 1 <= number && |bytes| < TWO_TO_31
    ensures ReadUnknown(number * 8 + 2, EncodeVarint(|bytes|) + bytes + rest, depth) ==
      Got(LengthDelimited(number, bytes), rest)
  {
    assert EncodeVarint(|bytes|) + bytes + rest == EncodeVarint(|bytes|) + (bytes + rest);
    ReadEncodedVarint(|bytes|, bytes + rest, TWO_TO_32);
    assert (bytes + rest)[..|bytes|] == bytes && (bytes + rest)[|bytes|..] == rest;
  }

  lemma ReadEncodedFixedField(number: nat, v: nat, rest: Bytes, depth: nat)
    requires 1 <= number
    ensures v < PowerOf256(8) ==>
      ReadUnknown(number * 8 + 1, EncodeFixed(v, 8) + rest, depth) == Got(Fixed64(number, v), rest)
    ensures v < PowerOf256(4) ==>
      ReadUnknown(number * 8 + 5, EncodeFixed(v, 4) + rest, depth) == Got(Fixed32(number, v), rest)
  {
    if v < PowerOf256(8) {
      ReadEncodedFixed(v, 8, rest);
    }
    if v < PowerOf256(4) {
      ReadEncodedFixed(v, 4, rest);
    }
  }

  lemma ReadGroupField(number: nat, fields: seq<UnknownField>, s: Bytes, rest: Bytes, depth: nat)
    requires 1 <= number && depth > 0 && ReadGroup(number, s, depth - 1) == Got(fields, rest)
    ensures ReadUnknown(number * 8 + 3, s, depth) == Got(Group(number, fields), rest)
  {
  }

  lemma {:induction false} ReadEncodedUnknown(u: UnknownField, rest: Bytes, depth: nat)
    requires Representable(u, depth)
    ensures ReadUnknown(TagOf(u), EncodePayload(u) + rest, depth) == Got(u, rest)
    decreases u, 1
  {
    match u
    case Varint(_, v) => ReadEncodedVarint(v, rest, TWO_TO_64);
    case Fixed64(number, v) => ReadEncodedFixedField(number, v, rest, depth);
    case LengthDelimited(number, bytes) => ReadEncodedBytes(number, bytes, rest, depth);
    case Group(_, _) => ReadEncodedGroupField(u, rest, depth);
    case Fixed32(number, v) => ReadEncodedFixedField(number, v, rest, depth);
  }

  lemma {:induction false} ReadEncodedGroupField(u: UnknownField, rest: Bytes, depth: nat)
    requires u.Group? && Representable(u, depth)
    ensures ReadUnknown(TagOf(u), EncodePayload(u) + rest, depth) == Got(u, rest)
    decreases u, 0
  {
    hide ReadUnknown, ReadGroup, EncodeVarint;
    var end := EncodeVarint(u.number * 8 + 4);
    GroupEnd(u.number, rest, depth - 1);
    ReadEncodedGroup(u.number, u.fields, end + rest, rest, depth - 1);
    assert EncodePayload(u) + rest == EncodeUnknowns(u.fields) + (end + rest);
    ReadGroupField(u.number, u.fields, EncodePayload(u) + rest, rest, depth);
  }

  lemma {:induction false} ReadEncodedGroup(number: nat, us: seq<UnknownField>, end: Bytes, rest: Bytes, depth: nat)
    requires forall u | u in us :: Representable(u, depth)
    requires ReadGroup(number, end, depth) == Got([], rest)
    ensures ReadGroup(number, EncodeUnknowns(us) + end, depth) == Got(us, rest)
    decreases us
  {
    if us == [] {
      assert EncodeUnknowns(us) + end == end;
    } else {
      var tail := EncodeUnknowns(us[1..]) + end;
      ReadEncodedGroup(number, us[1..], end, rest, depth);
      ReadEncodedUnknown(us[0], tail, depth);
      GroupStep(number, us[0], us[1..], EncodePayload(us[0]) + tail, tail, rest, depth);
      FirstUnknown(us, end);
    }
  }

  lemma FirstUnknown(us: seq<UnknownField>, rest: Bytes)
    requires us != []
    ensures EncodeUnknowns(us) + rest ==
      EncodeVarint(TagOf(us[0])) + (EncodePayload(us[0]) + (EncodeUnknowns(us[1..]) + rest))
    ensures us == [us[0]] + us[1..]
  {
    Regroup(EncodeVarint(TagOf(us[0])), EncodePayload(us[0]), EncodeUnknowns(us[1..]), rest);
  }

  lemma Regroup(a: Bytes, b: Bytes, c: Bytes, d: Bytes)
    ensures ((a + b) + c) + d == a + (b + (c + d))
  {
  }

  lemma GroupEnd(number: nat, rest: Bytes, depth: nat)
    requires 1 <= number && number * 8 + 4 < TWO_TO_32
    ensures ReadGroup(number, EncodeVarint(number * 8 + 4) + rest, depth) == Got([], rest)
  {
    ReadEncodedVarint(number * 8 + 4, rest, TWO_TO_32);
  }

  lemma GroupStep(number: nat, u: UnknownField, us: seq<UnknownField>, payload: Bytes, tail: Bytes, rest: Bytes,
      depth: nat)
    requires Representable(u, depth)
    requires ReadUnknown(TagOf(u), payload, depth) == Got(u, tail)
    requires ReadGroup(number, tail, depth) == Got(us, rest)
    ensures ReadGroup(number, EncodeVarint(TagOf(u)) + payload, depth) == Got([u] + us, rest)
  {
    ReadEncodedVarint(TagOf(u), payload, TWO_TO_32);
    assert TagOf(u) % 8 == WireType(u);
  }

  lemma {:induction false} DecodeFixedBound(s: Bytes)
    ensures DecodeFixed(s) < PowerOf256(|s|)
  {
    if s != [] {
      DecodeFixedBound(s[1..]);
    }
  }

  /** Every unknown field that is read can be written and read again. */
  lemma {:induction false} ReadUnknownRepresentable(tag: nat, s: Bytes, depth: nat)
    requires tag < TWO_TO_32 && ReadUnknown(tag, s, depth).Got?
    ensures Representable(ReadUnknown(tag, s, depth).value, depth)
    ensures TagOf(ReadUnknown(tag, s, depth).value) == tag
    decreases |s|, 1
  {
    if tag % 8 == 1 {
      DecodeFixedBound(s[..8]);
    } else if tag % 8 == 3 {
      ReadGroupRepresentable(tag / 8, s, depth - 1);
    } else if tag % 8 == 5 {
      DecodeFixedBound(s[..4]);
    }
  }

  lemma {:induction false} ReadGroupRepresentable(number: nat, s: Bytes, depth: nat)
    requires ReadGroup(number, s, depth).Got?
    ensures forall u | u in ReadGroup(number, s, depth).value :: Representable(u, depth)
    decreases |s|, 0
  {
    var Got(tag, rest) := ReadVarint(s, TWO_TO_32);
    if tag % 8 != 4 {
      ReadUnknownRepresentable(tag, rest, depth);
      ReadGroupRepresentable(number, ReadUnknown(tag, rest, depth).rest, depth);
    }
  }

  // ---------------------------------------------------------------- sizes

  function Log2(v: nat): (n: nat)
    requires v >= 1
  {
    if v == 1 then 0 else 1 + Log2(v / 2)
  }

  /** The size of a varint, computed from the position of its highest bit. */
  function VarintSize(v: nat): nat {
    (Log2(if v == 0 then 1 else v) * 9 + 73) / 64
  }

  lemma {:induction false} VarintLengthFromLog(v: nat)
    requires v >= 1
    ensures |EncodeVarint(v)| == Log2(v) / 7 + 1
  {
    if v < 128 {
      assert Log2(v) <= 6 by { Log2Small(v); }
    } else {
      VarintLengthFromLog(v / 128);
      Log2Shift(v);
    }
  }

  lemma Log2Small(v: nat)
    requires 1 <= v < 128
    ensures Log2(v) <= 6
  {
    Log2Bound(v, 7);
  }

  lemma {:induction false} Log2Bound(v: nat, n: nat)
    requires 1 <= v < PowerOf2(n)
    ensures Log2(v) < n
  {
    if v > 1 {
      Log2Bound(v / 2, n - 1);
    }
  }

  function PowerOf2(n: nat): nat {
    if n == 0 then 1 else 2 * PowerOf2(n - 1)
  }

  lemma Log2Shift(v: nat)
    requires v >= 128
    ensures Log2(v) == 7 + Log2(v / 128)
  {
    assert v / 2 / 2 == v / 4 && v / 4 / 2 == v / 8 && v / 8 / 2 == v / 16;
    assert v / 16 / 2 == v / 32 && v / 32 / 2 == v / 64 && v / 64 / 2 == v / 128;
    assert Log2(v) == 1 + Log2(v / 2) && Log2(v / 2) == 1 + Log2(v / 4) && Log2(v / 4) == 1 + Log2(v / 8);
    assert Log2(v / 8) == 1 + Log2(v / 16) && Log2(v / 16) == 1 + Log2(v / 32);
    assert Log2(v / 32) == 1 + Log2(v / 64) && Log2(v / 64) == 1 + Log2(v / 128);
  }

  /** The multiply-and-shift size formula is the length of the encoding, for every 64-bit value. */
  lemma VarintSizeIsLength(v: nat)
    requires v < TWO_TO_64
    ensures VarintSize(v) == |EncodeVarint(v)|
  {
    if v > 0 {
      VarintLength64(v);
      VarintLengthFromLog(v);
    }
  }
}
