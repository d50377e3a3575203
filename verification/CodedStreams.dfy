/** The byte streams under the generated message code: a cursor with a limit, a recursion
    budget and an end-of-message flag on the way in, a growing buffer on the way out. */
module CodedStreams {
  import opened Options
  import opened Wire
  import opened PlayerValues
  import opened PlayerRoundTrip
  import opened Numbers

  // ---------------------------------------------------------------- parsing, one field at a time

  /** Reading one field off the front splits the parse. */
  lemma ParseStep(schema: Schema, s: Bytes, depth: nat)
    requires WellFormed(schema) && s != []
    ensures ReadField(schema, s, depth).Fail? ==> Parse(schema, s, depth) == None
    ensures ReadField(schema, s, depth).Got? ==>
      Parse(schema, s, depth) ==
        Prepend([ReadField(schema, s, depth).value], Parse(schema, ReadField(schema, s, depth).rest, depth))
  {
  }

  lemma PrependTwice(a: seq<Field>, b: seq<Field>, parsed: Option<seq<Field>>)
    ensures Prepend(a, Prepend(b, parsed)) == Prepend(a + b, parsed)
  {
    if parsed.Some? {
      assert a + (b + parsed.value) == (a + b) + parsed.value;
    }
  }

  function AddDigit(acc: nat, scale: nat, b: Byte): nat {
    acc + scale * (b % 128)
  }

  /** `all` spells `acc` plus `scale` times what the rest spells. */
  ghost predicate PartlyRead(all: Bytes, rest: Bytes, left: nat, acc: nat, scale: nat) {
    DecodeVarint(all, MAX_VARINT_BYTES) ==
      match DecodeVarint(rest, left)
      case Fail => Fail
      case Got(v, after) => Got(acc + scale * v, after)
  }

  lemma NextDigit(all: Bytes, rest: Bytes, left: nat, acc: nat, scale: nat)
    requires PartlyRead(all, rest, left, acc, scale) && rest != [] && left > 0
    ensures rest[0] < 128 ==> DecodeVarint(all, MAX_VARINT_BYTES) == Got(AddDigit(acc, scale, rest[0]), rest[1..])
    ensures rest[0] >= 128 ==> PartlyRead(all, rest[1..], left - 1, AddDigit(acc, scale, rest[0]), 128 * scale)
  {
    if rest[0] >= 128 {
      match DecodeVarint(rest[1..], left - 1) {
        case Fail =>
        case Got(v, _) =>
          assert acc + scale * (rest[0] - 128 + 128 * v) == (acc + scale * (rest[0] - 128)) + (128 * scale) * v;
      }
    }
  }

  lemma AddDigitModulo(acc: nat, scale: nat, b: Byte)
    ensures AddDigit(acc % TWO_TO_64, scale, b) % TWO_TO_64 == AddDigit(acc, scale, b) % TWO_TO_64
  {
    ModuloAdd(acc, scale * (b % 128));
  }

  lemma ModuloAdd(a: nat, b: nat)
    ensures (a % 0x1_0000_0000_0000_0000 + b) % 0x1_0000_0000_0000_0000 == (a + b) % 0x1_0000_0000_0000_0000
  {
  }

  lemma Narrow(v: nat)
    ensures (v % TWO_TO_64) % TWO_TO_32 == v % TWO_TO_32
  {
    NarrowLiteral(v);
  }

  lemma NarrowLiteral(v: nat)
    ensures (v % 0x1_0000_0000_0000_0000) % 0x1_0000_0000 == v % 0x1_0000_0000
  {
  }

  /** The group spelled by `all` is `before` followed by the group spelled by `rest`. */
  ghost predicate GroupPartlyRead(number: nat, all: Bytes, rest: Bytes, before: seq<UnknownField>, depth: nat) {
    ReadGroup(number, all, depth) ==
      match ReadGroup(number, rest, depth)
      case Fail => Fail
      case Got(more, after) => Got(before + more, after)
  }

  lemma GroupStarts(number: nat, all: Bytes, depth: nat)
    ensures GroupPartlyRead(number, all, all, [], depth)
  {
    if ReadGroup(number, all, depth).Got? {
      assert [] + ReadGroup(number, all, depth).value == ReadGroup(number, all, depth).value;
    }
  }

  /** What the next tag of a group leads to. */
  lemma GroupContinues(number: nat, all: Bytes, s: Bytes, before: seq<UnknownField>, depth: nat)
    requires GroupPartlyRead(number, all, s, before, depth)
    ensures match ReadVarint(s, TWO_TO_32)
      case Fail => ReadGroup(number, all, depth).Fail?
      case Got(tag, rest) =>
        if tag == 0 then ReadGroup(number, all, depth).Fail?
        else if tag % 8 == 4 then
          if tag == number * 8 + 4 then ReadGroup(number, all, depth) == Got(before, rest)
          else ReadGroup(number, all, depth).Fail?
        else match ReadUnknown(tag, rest, depth)
          case Fail => ReadGroup(number, all, depth).Fail?
          case Got(field, rest') => GroupPartlyRead(number, all, rest', before + [field], depth)
  {
    match ReadVarint(s, TWO_TO_32)
    case Fail =>
    case Got(tag, rest) =>
      assert before + [] == before;
      match ReadUnknown(tag, rest, depth)
      case Fail =>
      case Got(field, rest') =>
        match ReadGroup(number, rest', depth)
        case Fail =>
        case Got(more, _) => assert before + ([field] + more) == (before + [field]) + more;
  }

  /** The byte loop of the slow path; bits beyond the 64th are shifted out. */
  method VarintLoop(buffer: Bytes, from: nat, limit: nat) returns (ok: bool, value: nat, next: nat)
    requires from <= limit <= |buffer|
    ensures from <= next <= limit
    ensures ok <==> ReadVarint(buffer[from..limit], TWO_TO_64).Got?
    ensures ok ==> ReadVarint(buffer[from..limit], TWO_TO_64) == Got(value, buffer[next..limit])
  {
    ghost var all, rest := buffer[from..limit], buffer[from..limit];
    ghost var exact: nat := 0;
    var scale: nat, count: nat := 1, 0;
    next, value := from, 0;
    while true
      invariant from <= next <= limit && count <= MAX_VARINT_BYTES
      invariant rest == buffer[next..limit]
      invariant value == exact % TWO_TO_64
      invariant PartlyRead(all, rest, MAX_VARINT_BYTES - count, exact, scale)
      decreases limit - next
    {
      if count == MAX_VARINT_BYTES || next == limit {
        return false, 0, next;
      }
      var b := buffer[next];
      NextDigit(all, rest, MAX_VARINT_BYTES - count, exact, scale);
      AddDigitModulo(exact, scale, b);
      rest := rest[1..];
      next := next + 1;
      value := AddDigit(value, scale, b) % TWO_TO_64;
      exact := AddDigit(exact, scale, b);
      if b < 128 {
        return true, value, next;
      }
      scale := 128 * scale;
      count := count + 1;
    }
  }

  class CodedInput {
    const buffer: Bytes
    var pos: nat
    var limit: nat
    var legitimateEnd: bool
    var lastTag: nat
    var budget: nat

    ghost predicate Valid()
      reads this
    {
      pos <= limit <= |buffer|
    }

    /** What can still be read before the current limit. */
    ghost function Rest(): Bytes
      reads this
      requires Valid()
    {
      buffer[pos..limit]
    }

    constructor (data: Bytes)
      ensures Valid() && Rest() == data && buffer == data && pos == 0
      ensures !legitimateEnd && budget == RECURSION_LIMIT
    {
      buffer, pos, limit, legitimateEnd, lastTag, budget := data, 0, |data|, false, 0, RECURSION_LIMIT;
    }

    method ReadVarint64() returns (ok: bool, value: nat)
      requires Valid()
      modifies this`pos
      ensures Valid() && pos >= old(pos)
      ensures ok <==> ReadVarint(old(Rest()), TWO_TO_64).Got?
      ensures ok ==> ReadVarint(old(Rest()), TWO_TO_64) == Got(value, Rest())
    {
      ok, value, pos := VarintLoop(buffer, pos, limit);
    }

    method ReadVarint32() returns (ok: bool, value: nat)
      requires Valid()
      modifies this`pos
      ensures Valid() && pos >= old(pos)
      ensures ok <==> ReadVarint(old(Rest()), TWO_TO_32).Got?
      ensures ok ==> ReadVarint(old(Rest()), TWO_TO_32) == Got(value, Rest())
    {
      ghost var rest := Rest();
      ok, value := ReadVarint64();
      if ok {
        Narrow(DecodeVarint(rest, MAX_VARINT_BYTES).value);
      }
      value := value % TWO_TO_32;
    }

    /** A length prefix as a non-negative `int`. */
    method ReadVarintSizeAsInt() returns (ok: bool, value: nat)
      requires Valid()
      modifies this`pos
      ensures Valid() && pos >= old(pos)
      ensures ok <==> ReadSize(old(Rest())).Got?
      ensures ok ==> ReadSize(old(Rest())) == Got(value, Rest())
    {
      ok, value := ReadVarint64();
      if ok && value >= TWO_TO_31 {
        ok := false;
      }
    }

    method ReadLittleEndian(n: nat) returns (ok: bool, value: nat)
      requires Valid()
      modifies this`pos
      ensures Valid() && pos >= old(pos)
      ensures ok <==> ReadFixed(old(Rest()), n).Got?
      ensures ok ==> ReadFixed(old(Rest()), n) == Got(value, Rest())
    {
      if limit - pos < n {
        return false, 0;
      }
      assert Rest()[..n] == buffer[pos..pos + n] && Rest()[n..] == buffer[pos + n..limit];
      value := DecodeFixed(buffer[pos..pos + n]);
      pos := pos + n;
      ok := true;
    }

    method ReadString(n: nat) returns (ok: bool, bytes: Bytes)
      requires Valid()
      modifies this`pos
      ensures Valid() && pos >= old(pos)
      ensures ok <==> n < TWO_TO_31 && n <= |old(Rest())|
      ensures ok ==> bytes == old(Rest())[..n] && Rest() == old(Rest())[n..]
    {
      if n >= TWO_TO_31 || limit - pos < n {
        return false, [];
      }
      assert Rest()[..n] == buffer[pos..pos + n] && Rest()[n..] == buffer[pos + n..limit];
      bytes := buffer[pos..pos + n];
      pos := pos + n;
      ok := true;
    }

    /** Places a limit `n` bytes ahead, unless the current limit is as close already. */
    method PushLimit(n: nat) returns (oldLimit: nat)
      requires Valid()
      modifies this`limit
      ensures Valid() && oldLimit == old(limit)
      ensures limit == pos + Min(n, |old(Rest())|)
      ensures Rest() == old(Rest())[..Min(n, |old(Rest())|)]
    {
      oldLimit := limit;
      if n < limit - pos {
        limit := pos + n;
      }
    }

    method PopLimit(oldLimit: nat)
      requires pos <= oldLimit <= |buffer|
      modifies this`limit, this`legitimateEnd
      ensures Valid() && limit == oldLimit && !legitimateEnd
    {
      limit := oldLimit;
      legitimateEnd := false;
    }

    /** Reads a tag; 0 stands for the end of the message and for a malformed tag,
        and only a true end sets the flag. `low` says the tag is between 1 and 127. */
    method ReadTag() returns (tag: nat, low: bool)
      requires Valid()
      modifies this`pos, this`legitimateEnd
      ensures Valid() && pos >= old(pos)
      ensures low <==> 1 <= tag <= 127
      ensures old(Rest()) == [] ==> tag == 0 && legitimateEnd && pos == old(pos)
      ensures old(Rest()) != [] ==> legitimateEnd == old(legitimateEnd)
      ensures old(Rest()) != [] && ReadVarint(old(Rest()), TWO_TO_32).Fail? ==> tag == 0
      ensures old(Rest()) != [] && ReadVarint(old(Rest()), TWO_TO_32).Got? ==>
        ReadVarint(old(Rest()), TWO_TO_32) == Got(tag, Rest()) && pos > old(pos)
    {
      if pos == limit {
        legitimateEnd := true;
        return 0, false;
      }
      var ok;
      ok, tag := ReadVarint32();
      if !ok {
        tag := 0;
      }
      low := 1 <= tag <= 127;
    }

    /** Keeps a field the message type does not know, after its tag has been read. */
    method SkipField(tag: nat) returns (ok: bool, field: UnknownField)
      requires Valid() && tag < TWO_TO_32
      modifies this`pos, this`legitimateEnd, this`lastTag, this`budget
      ensures Valid() && pos >= old(pos)
      ensures ok <==> ReadUnknown(tag, old(Rest()), old(budget)).Got?
      ensures ok ==> ReadUnknown(tag, old(Rest()), old(budget)) == Got(field, Rest())
      ensures ok ==> budget == old(budget) && legitimateEnd == old(legitimateEnd)
      decreases limit - pos, 1
    {
      var number := tag / 8;
      field := Varint(number, 0);
      if number == 0 {
        return false, field;
      }
      var v;
      if tag % 8 == 0 {
        ok, v := ReadVarint64();
        field := Varint(number, v);
      } else if tag % 8 == 1 {
        ok, v := ReadLittleEndian(8);
        field := Fixed64(number, v);
      } else if tag % 8 == 2 {
        ok, v := ReadVarint32();
        if ok {
          var bytes;
          ok, bytes := ReadString(v);
          field := LengthDelimited(number, bytes);
        }
      } else if tag % 8 == 3 {
        if budget == 0 {
          return false, field;
        }
        budget := budget - 1;
        var fields;
        ok, fields := SkipMessage(number);
        field := Group(number, fields);
        if ok {
          budget := budget + 1;
          ok := lastTag == number * 8 + 4;
        }
      } else if tag % 8 == 5 {
        ok, v := ReadLittleEndian(4);
        field := Fixed32(number, v);
      } else {
        ok := false;
      }
    }

    /** Keeps fields up to an end-group tag, which it leaves in `lastTag`, or to the end of input. */
    method SkipMessage(ghost number: nat) returns (ok: bool, fields: seq<UnknownField>)
      requires Valid()
      modifies this`pos, this`legitimateEnd, this`lastTag, this`budget
      ensures Valid() && pos >= old(pos)
      ensures (ok && lastTag == number * 8 + 4) <==> ReadGroup(number, old(Rest()), old(budget)).Got?
      ensures ok && lastTag == number * 8 + 4 ==>
        && ReadGroup(number, old(Rest()), old(budget)) == Got(fields, Rest())
        && budget == old(budget) && legitimateEnd == old(legitimateEnd)
      decreases limit - pos, 0
    {
      ghost var all, depth := Rest(), budget;
      fields := [];
      GroupStarts(number, all, depth);
      while true
        invariant Valid() && pos >= old(pos) && budget == depth && legitimateEnd == old(legitimateEnd)
        invariant GroupPartlyRead(number, all, Rest(), fields, depth)
        decreases limit - pos
      {
        GroupContinues(number, all, Rest(), fields, depth);
        var tag, _ := ReadTag();
        lastTag := tag;
        if tag == 0 || tag % 8 == 4 {
          return true, fields;
        }
        var kept, field := SkipField(tag);
        if !kept {
          return false, fields;
        }
        fields := fields + [field];
      }
    }

    /** Consumes a one-byte tag if it is the next byte. */
    method ExpectTag(tag: Byte) returns (found: bool)
      requires Valid()
      modifies this`pos
      ensures Valid() && pos >= old(pos)
      ensures found <==> old(Rest()) != [] && old(Rest())[0] == tag
      ensures Rest() == if found then old(Rest())[1..] else old(Rest())
    {
      found := pos < limit && buffer[pos] == tag;
      if found {
        assert Rest()[1..] == buffer[pos + 1..limit];
        pos := pos + 1;
      }
    }

    /** One element after its tag, then further elements with the same tag while the
        list has `reserved` room to spare. */
    method ReadRepeatedPrimitive(tag: Byte, reserved: nat, ghost schema: Schema, ghost number: nat, ghost depth: nat)
      returns (ok: bool, values: seq<nat>)
      requires Valid() && WellFormed(schema)
      requires tag in schema.actions && schema.actions[tag] == ReadElement(number)
      modifies this`pos
      ensures Valid() && pos >= old(pos)
      ensures AfterTag(schema, tag, old(Rest()), depth) ==
        if ok then Prepend(ElementFields(number, values), Parse(schema, Rest(), depth)) else None
    {
      ghost var all := Rest();
      var v;
      ok, v := ReadVarint32();
      values := [v];
      if !ok {
        return;
      }
      assert ElementFields(number, [v]) == [Elements(number, [v])] + ElementFields(number, []);
      assert ElementFields(number, [v]) == [Elements(number, [v])];
      var room := reserved;
      while room > 0
        invariant Valid() && pos >= old(pos)
        invariant AfterTag(schema, tag, all, depth) ==
          Prepend(ElementFields(number, values), Parse(schema, Rest(), depth))
      {
        ghost var before := Rest();
        var found := ExpectTag(tag);
        if !found {
          return true, values;
        }
        ghost var payload := Rest();
        TaggedField(schema, tag, before, payload, depth);
        ok, v := ReadVarint32();
        if !ok {
          return;
        }
        ElementFieldsSnoc(number, values, v);
        PrependTwice(ElementFields(number, values), [Elements(number, [v])], Parse(schema, Rest(), depth));
        values := values + [v];
        room := room - 1;
      }
    }

    method ReadPackedPrimitive() returns (ok: bool, values: seq<nat>)
      requires Valid() && !legitimateEnd
      modifies this`pos, this`limit, this`legitimateEnd
      ensures Valid() && pos >= old(pos) && !legitimateEnd
      ensures ok <==> ReadBody(old(Rest())).Got? && ReadAllVarints(ReadBody(old(Rest())).value).Some?
      ensures ok ==> limit == old(limit) && values == ReadAllVarints(ReadBody(old(Rest())).value).value
      ensures ok ==> Rest() == ReadBody(old(Rest())).rest
    {
      values := [];
      var length;
      ok, length := ReadVarintSizeAsInt();
      if !ok {
        return;
      }
      ghost var after := Rest();
      var oldLimit := PushLimit(length);
      ghost var body, end := Rest(), limit;
      VarintsStart(body);
      while limit - pos > 0
        invariant Valid() && pos >= old(pos) && limit == end && !legitimateEnd
        invariant VarintsPartlyRead(body, Rest(), values)
      {
        VarintsContinue(body, Rest(), values);
        var v;
        ok, v := ReadVarint32();
        if !ok {
          return;
        }
        values := values + [v];
      }
      VarintsContinue(body, Rest(), values);
      PopLimit(oldLimit);
      assert Rest() == after[Min(length, |after|)..];
    }
  }

  /** What a known tag leads to, once the tag itself has been read. */
  ghost function AfterTag(schema: Schema, tag: nat, s: Bytes, depth: nat): Option<seq<Field>>
    requires WellFormed(schema) && tag in schema.actions
  {
    match ReadKnown(schema.actions[tag], s, depth)
    case Fail => None
    case Got(field, rest) => Prepend([field], Parse(schema, rest, depth))
  }

  lemma TaggedField(schema: Schema, tag: nat, s: Bytes, payload: Bytes, depth: nat)
    requires WellFormed(schema) && tag in schema.actions
    requires ReadVarint(s, TWO_TO_32) == Got(tag, payload) || (s != [] && s[0] == tag && payload == s[1..])
    ensures Parse(schema, s, depth) == AfterTag(schema, tag, payload, depth)
  {
    assert ReadVarint(s, TWO_TO_32) == Got(tag, payload);
  }

  lemma {:induction false} ElementFieldsSnoc(number: nat, values: seq<nat>, v: nat)
    ensures ElementFields(number, values + [v]) == ElementFields(number, values) + [Elements(number, [v])]
  {
    if values == [] {
      assert values + [v] == [v] && [v][1..] == [];
    } else {
      assert (values + [v])[1..] == values[1..] + [v];
      ElementFieldsSnoc(number, values[1..], v);
    }
  }

  ghost predicate VarintsPartlyRead(all: Bytes, rest: Bytes, before: seq<nat>) {
    ReadAllVarints(all) ==
      match ReadAllVarints(rest)
      case None => None
      case Some(more) => Some(before + more)
  }

  lemma VarintsStart(all: Bytes)
    ensures VarintsPartlyRead(all, all, [])
  {
    if ReadAllVarints(all).Some? {
      assert [] + ReadAllVarints(all).value == ReadAllVarints(all).value;
    }
  }

  lemma VarintsContinue(all: Bytes, rest: Bytes, before: seq<nat>)
    requires VarintsPartlyRead(all, rest, before)
    ensures rest == [] ==> ReadAllVarints(all) == Some(before)
    ensures rest != [] ==>
      match ReadVarint(rest, TWO_TO_32)
      case Fail => ReadAllVarints(all) == None
      case Got(v, rest') => VarintsPartlyRead(all, rest', before + [v])
  {
    if rest == [] {
      assert before + [] == before;
    } else {
      match ReadVarint(rest, TWO_TO_32)
      case Fail =>
      case Got(v, rest') =>
        match ReadAllVarints(rest')
        case None =>
        case Some(more) => assert before + ([v] + more) == (before + [v]) + more;
    }
  }
}
