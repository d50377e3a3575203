/** The generated message objects: has-bits and fields updated in place by the parser and
    by merging, sizes cached before writing, and two serializers. */
module PlayerMessages {
  import opened Options
  import opened Wire
  import opened WireLaws
  import V = PlayerValues
  import opened PlayerRoundTrip
  import opened CodedStreams
  import opened OutputStreams
  import opened Numbers

  // ---------------------------------------------------------------- parsing loops

  /** `all` parses as the fields done so far and then whatever `rest` parses as. */
  ghost predicate Parsing(schema: Schema, all: Bytes, rest: Bytes, done: seq<Field>, depth: nat)
    requires WellFormed(schema)
  {
    Parse(schema, all, depth) == Prepend(done, Parse(schema, rest, depth))
  }

  lemma ParsingStarts(schema: Schema, all: Bytes, depth: nat)
    requires WellFormed(schema)
    ensures Parsing(schema, all, all, [], depth)
  {
    if Parse(schema, all, depth).Some? {
      assert [] + Parse(schema, all, depth).value == Parse(schema, all, depth).value;
    }
  }

  lemma ParsingEnds(schema: Schema, all: Bytes, rest: Bytes, done: seq<Field>, depth: nat)
    requires WellFormed(schema) && Parsing(schema, all, rest, done, depth)
    ensures rest == [] ==> Parse(schema, all, depth) == Some(done)
    ensures rest != [] && ReadVarint(rest, TWO_TO_32).Fail? ==> Parse(schema, all, depth) == None
    ensures rest != [] && ReadVarint(rest, TWO_TO_32).Got? && ReadVarint(rest, TWO_TO_32).value == 0 ==>
      Parse(schema, all, depth) == None
  {
    if rest == [] {
      assert done + [] == done;
    } else {
      ParseStep(schema, rest, depth);
    }
  }

  /** One field after its tag: what a failed or a successful read of it means for the whole parse. */
  lemma ParsingField(schema: Schema, all: Bytes, s: Bytes, tag: nat, payload: Bytes, done: seq<Field>, depth: nat)
    requires WellFormed(schema) && Parsing(schema, all, s, done, depth) && tag != 0
    requires ReadVarint(s, TWO_TO_32) == Got(tag, payload)
    ensures tag in schema.actions ==>
      match ReadKnown(schema.actions[tag], payload, depth)
      case Fail => Parse(schema, all, depth) == None
      case Got(field, rest) => Parsing(schema, all, rest, done + [field], depth)
    ensures tag !in schema.actions ==>
      match ReadUnknown(tag, payload, depth)
      case Fail => Parse(schema, all, depth) == None
      case Got(field, rest) => Parsing(schema, all, rest, done + [Unknown(field)], depth)
  {
    ParseStep(schema, s, depth);
    if ReadField(schema, s, depth).Got? {
      var Got(field, rest) := ReadField(schema, s, depth);
      PrependTwice(done, [field], Parse(schema, rest, depth));
    }
  }

  lemma ParsingElements(schema: Schema, all: Bytes, s: Bytes, tag: nat, payload: Bytes,
      done: seq<Field>, number: nat, ok: bool, values: seq<nat>, rest: Bytes, depth: nat)
    requires WellFormed(schema) && Parsing(schema, all, s, done, depth)
    requires tag in schema.actions && ReadVarint(s, TWO_TO_32) == Got(tag, payload)
    requires AfterTag(schema, tag, payload, depth) ==
      if ok then Prepend(ElementFields(number, values), Parse(schema, rest, depth)) else None
    ensures !ok ==> Parse(schema, all, depth) == None
    ensures ok ==> Parsing(schema, all, rest, done + ElementFields(number, values), depth)
  {
    TaggedField(schema, tag, s, payload, depth);
    PrependTwice(done, ElementFields(number, values), Parse(schema, rest, depth));
  }

  /** A parse in progress, stopped before the tag at the front of `before`. */
  datatype Place = Place(all: Bytes, before: Bytes, done: seq<Field>, depth: nat)

  ghost predicate AtTag(schema: Schema, p: Place, tag: nat, payload: Bytes)
    requires WellFormed(schema)
  {
    && tag != 0 && ReadVarint(p.before, TWO_TO_32) == Got(tag, payload)
    && Parsing(schema, p.all, p.before, p.done, p.depth)
  }

  /** The reading methods below either move past one field, or show that the whole parse fails. */
  twostate predicate Moved(schema: Schema, p: Place, input: CodedInput, ok: bool, more: seq<Field>)
    requires WellFormed(schema)
    reads input
  {
    && input.Valid() && input.pos >= old(input.pos)
    && (!ok ==> Parse(schema, p.all, p.depth) == None)
    && (ok ==>
      && input.limit == old(input.limit) && input.budget == old(input.budget) && !input.legitimateEnd
      && Parsing(schema, p.all, input.Rest(), p.done + more, p.depth))
  }

  method ReadScalarField(input: CodedInput, wide: bool, tag: nat, ghost number: nat, ghost schema: Schema,
      ghost p: Place)
    returns (ok: bool, v: nat, ghost more: seq<Field>)
    requires input.Valid() && !input.legitimateEnd && WellFormed(schema) && AtTag(schema, p, tag, input.Rest())
    requires tag in schema.actions && schema.actions[tag] == ReadScalar(number, if wide then TWO_TO_64 else TWO_TO_32)
    modifies input
    ensures Moved(schema, p, input, ok, more) && more == [Scalar(number, v)]
  {
    ParsingField(schema, p.all, p.before, tag, input.Rest(), p.done, p.depth);
    if wide {
      ok, v := input.ReadVarint64();
    } else {
      ok, v := input.ReadVarint32();
    }
    more := [Scalar(number, v)];
  }

  /** Elements written one by one; how much room the list has does not matter. */
  method ReadElementFields(input: CodedInput, tag: Byte, ghost number: nat, ghost schema: Schema, ghost p: Place)
    returns (ok: bool, values: seq<nat>, ghost more: seq<Field>)
    requires input.Valid() && !input.legitimateEnd && WellFormed(schema) && AtTag(schema, p, tag, input.Rest())
    requires tag in schema.actions && schema.actions[tag] == ReadElement(number)
    modifies input
    ensures Moved(schema, p, input, ok, more) && more == ElementFields(number, values)
  {
    ghost var payload := input.Rest();
    var reserved: nat := *;
    ok, values := input.ReadRepeatedPrimitive(tag, reserved, schema, number, p.depth);
    more := ElementFields(number, values);
    ParsingElements(schema, p.all, p.before, tag, payload, p.done, number, ok, values, input.Rest(), p.depth);
  }

  method ReadPackedField(input: CodedInput, tag: nat, ghost number: nat, ghost schema: Schema, ghost p: Place)
    returns (ok: bool, values: seq<nat>, ghost more: seq<Field>)
    requires input.Valid() && !input.legitimateEnd && WellFormed(schema) && AtTag(schema, p, tag, input.Rest())
    requires tag in schema.actions && schema.actions[tag] == ReadPacked(number)
    modifies input
    ensures Moved(schema, p, input, ok, more) && more == [Elements(number, values)]
  {
    ParsingField(schema, p.all, p.before, tag, input.Rest(), p.done, p.depth);
    ok, values := input.ReadPackedPrimitive();
    more := [Elements(number, values)];
  }

  method ReadUnknownField(input: CodedInput, tag: nat, ghost schema: Schema, ghost p: Place)
    returns (ok: bool, field: UnknownField, ghost more: seq<Field>)
    requires input.Valid() && !input.legitimateEnd && WellFormed(schema) && AtTag(schema, p, tag, input.Rest())
    requires tag !in schema.actions && p.depth == input.budget
    modifies input
    ensures Moved(schema, p, input, ok, more) && more == [Unknown(field)]
  {
    ParsingField(schema, p.all, p.before, tag, input.Rest(), p.done, p.depth);
    ok, field := input.SkipField(tag);
    more := [Unknown(field)];
  }

  // ---------------------------------------------------------------- UserFrame

  lemma UserFrameMore(base: V.UserFrame, done: seq<Field>, more: seq<Field>)
    ensures V.MergeUserFrame(base, V.UserFrameOf(done + more)) ==
      V.MergeUserFrame(V.MergeUserFrame(base, V.UserFrameOf(done)), V.UserFrameOf(more))
  {
    V.OfConcat(done, more);
    var a, b := V.UserFrameOf(done), V.UserFrameOf(more);
    assert base.keyInfo + (a.keyInfo + b.keyInfo) == (base.keyInfo + a.keyInfo) + b.keyInfo;
    assert base.unknown + (a.unknown + b.unknown) == (base.unknown + a.unknown) + b.unknown;
  }

  lemma UserFrameOfOne(f: Field, values: seq<nat>)
    ensures V.UserFrameOf([f]) == V.UserFrame(
      if f.Scalar? && f.number == 1 then Some(f.value) else None,
      if f.Elements? && f.number == 2 then f.values else [],
      if f.Unknown? then [f.unknown] else [])
    ensures V.UserFrameOf(ElementFields(2, values)) == V.UserFrame(None, values, [])
  {
    V.ObserveOne(f, 1);
    V.ObserveOne(f, 2);
    ElementFieldsObserved(2, values, 1);
  }

  class UserFrame {
    var hasUuid: bool
    var uuid: nat
    var keyInfo: seq<nat>
    var unknown: seq<UnknownField>
    var cachedSize: nat

    function Value(): V.UserFrame
      reads this
    {
      V.UserFrame(if hasUuid then Some(uuid) else None, keyInfo, unknown)
    }

    constructor ()
      ensures Value() == V.UserFrame(None, [], [])
    {
      hasUuid, uuid, keyInfo, unknown, cachedSize := false, 0, [], [], 0;
    }

    constructor From(v: V.UserFrame)
      ensures Value() == v && (UserInRange(v) ==> InRange())
    {
      hasUuid, uuid := v.uuid.Some?, if v.uuid.Some? then v.uuid.value else 0;
      keyInfo, unknown, cachedSize := v.keyInfo, v.unknown, 0;
    }

    method Clear()
      modifies this
      ensures Value() == V.UserFrame(None, [], [])
    {
      keyInfo, uuid, hasUuid, unknown := [], 0, false, [];
    }

    method MergeUuid(input: CodedInput, tag: nat, ghost p: Place) returns (ok: bool, ghost more: seq<Field>)
      requires input.Valid() && !input.legitimateEnd && tag == 8
      requires AtTag(V.USER_FRAME_SCHEMA, p, tag, input.Rest()) && p.depth == input.budget
      modifies this, input
      ensures Moved(V.USER_FRAME_SCHEMA, p, input, ok, more)
      ensures ok ==> Value() == V.MergeUserFrame(old(Value()), V.UserFrameOf(more))
    {
      hide Parse;
      hasUuid := true;
      var v;
      ok, v, more := ReadScalarField(input, false, tag, 1, V.USER_FRAME_SCHEMA, p);
      uuid := v;
      UserFrameOfOne(Scalar(1, v), []);
    }

    method MergeKeys(input: CodedInput, tag: nat, ghost p: Place) returns (ok: bool, ghost more: seq<Field>)
      requires input.Valid() && !input.legitimateEnd && (tag == 16 || tag == 18)
      requires AtTag(V.USER_FRAME_SCHEMA, p, tag, input.Rest()) && p.depth == input.budget
      modifies this, input
      ensures Moved(V.USER_FRAME_SCHEMA, p, input, ok, more)
      ensures ok ==> Value() == V.MergeUserFrame(old(Value()), V.UserFrameOf(more))
    {
      hide Parse;
      var values;
      if tag == 16 {
        ok, values, more := ReadElementFields(input, 16, 2, V.USER_FRAME_SCHEMA, p);
      } else {
        ok, values, more := ReadPackedField(input, 18, 2, V.USER_FRAME_SCHEMA, p);
      }
      keyInfo := keyInfo + values;
      UserFrameOfOne(Elements(2, values), values);
    }

    method MergeUnknown(input: CodedInput, tag: nat, ghost p: Place) returns (ok: bool, ghost more: seq<Field>)
      requires input.Valid() && !input.legitimateEnd && tag !in V.USER_FRAME_SCHEMA.actions
      requires AtTag(V.USER_FRAME_SCHEMA, p, tag, input.Rest()) && p.depth == input.budget
      modifies this, input
      ensures Moved(V.USER_FRAME_SCHEMA, p, input, ok, more)
      ensures ok ==> Value() == V.MergeUserFrame(old(Value()), V.UserFrameOf(more))
    {
      hide Parse;
      var field;
      ok, field, more := ReadUnknownField(input, tag, V.USER_FRAME_SCHEMA, p);
      unknown := unknown + [field];
      UserFrameOfOne(Unknown(field), []);
    }

    /** One field after its tag. */
    method MergeField(input: CodedInput, tag: nat, low: bool, ghost p: Place)
      returns (ok: bool, ghost more: seq<Field>)
      requires input.Valid() && !input.legitimateEnd && (low <==> 1 <= tag <= 127)
      requires AtTag(V.USER_FRAME_SCHEMA, p, tag, input.Rest()) && p.depth == input.budget
      modifies this, input
      ensures Moved(V.USER_FRAME_SCHEMA, p, input, ok, more)
      ensures ok ==> Value() == V.MergeUserFrame(old(Value()), V.UserFrameOf(more))
    {
      hide Parse;
      if low && tag == 8 {
        ok, more := MergeUuid(input, tag, p);
      } else if low && (tag == 16 || tag == 18) {
        ok, more := MergeKeys(input, tag, p);
      } else {
        ok, more := MergeUnknown(input, tag, p);
      }
    }

    method MergePartialFromCodedStream(input: CodedInput) returns (ok: bool)
      requires input.Valid() && !input.legitimateEnd
      modifies this, input
      ensures input.Valid() && input.pos >= old(input.pos)
      ensures ok ==> input.limit == old(input.limit)
      ensures ok && input.legitimateEnd <==> Parse(V.USER_FRAME_SCHEMA, old(input.Rest()), old(input.budget)).Some?
      ensures ok && input.legitimateEnd ==>
        && Value() == V.MergeUserFrame(old(Value()),
             V.UserFrameOf(Parse(V.USER_FRAME_SCHEMA, old(input.Rest()), old(input.budget)).value))
        && input.pos == input.limit == old(input.limit) && input.budget == old(input.budget)
    {
      ghost var all, done, base, depth := input.Rest(), [], Value(), input.budget;
      ParsingStarts(V.USER_FRAME_SCHEMA, all, depth);
      while true
        invariant input.Valid() && input.pos >= old(input.pos) && !input.legitimateEnd
        invariant input.limit == old(input.limit) && input.budget == depth
        invariant Parsing(V.USER_FRAME_SCHEMA, all, input.Rest(), done, depth)
        invariant Value() == V.MergeUserFrame(base, V.UserFrameOf(done))
        decreases input.limit - input.pos
      {
        ghost var before := input.Rest();
        ParsingEnds(V.USER_FRAME_SCHEMA, all, before, done, depth);
        var tag, low := input.ReadTag();
        if tag == 0 {
          return true;
        }
        ghost var more;
        ok, more := MergeField(input, tag, low, Place(all, before, done, depth));
        if !ok {
          return false;
        }
        UserFrameMore(base, done, more);
        done := done + more;
      }
    }

    method ParseFromArray(data: Bytes) returns (ok: bool)
      modifies this
      ensures ok <==> V.ParseUserFrame(data).Some?
      ensures ok ==> Value() == V.ParseUserFrame(data).value
    {
      var input := new CodedInput(data);
      Clear();
      ok := MergePartialFromCodedStream(input);
      ok := ok && input.legitimateEnd;
    }

    method MergeFrom(from: UserFrame)
      requires from != this
      modifies this
      ensures Value() == V.MergeUserFrame(old(Value()), from.Value())
    {
      unknown := unknown + from.unknown;
      keyInfo := keyInfo + from.keyInfo;
      if from.hasUuid {
        hasUuid := true;
        uuid := from.uuid;
      }
    }

    /** The values the field types of the object can hold. */
    ghost predicate InRange()
      reads this
    {
      && uuid < TWO_TO_32 && (forall k | k in keyInfo :: k < TWO_TO_32)
      && (forall u | u in unknown :: Representable(u, V.RECURSION_LIMIT))
    }

    method ByteSizeLong() returns (total: nat)
      requires InRange()
      modifies this`cachedSize
      ensures total == |WriteUserFrame(Value())| && cachedSize == total
      ensures Value() == old(Value()) && InRange()
    {
      UnknownsSizeIsLength(unknown, V.RECURSION_LIMIT);
      total := UnknownsSize(unknown) + |keyInfo| + KeysSize(keyInfo);
      KeysSizeIsLength(16, keyInfo);
      if hasUuid {
        VarintSizeIsLength(uuid);
        total := total + 1 + VarintSize(uuid);
      }
      cachedSize := total;
    }

    method SerializeWithCachedSizes(output: CodedOutput)
      modifies output
      ensures output.bytes == old(output.bytes) + WriteUserFrame(Value())
    {
      output.WriteOptionalScalar(8, hasUuid, uuid);
      output.WriteElementsOf(16, keyInfo);
      output.WriteUnknowns(unknown);
      AppendInTurn(old(output.bytes), WriteOptional(8, Value().uuid), WriteElements(16, keyInfo),
        EncodeUnknowns(unknown));
    }

    method InternalSerializeToArray(target: array<Byte>, from: nat, ghost start: Bytes, ghost at: nat, ghost w: Bytes)
      returns (next: nat)
      requires Written(target, start, at, w) && from == at + |w| && from + |WriteUserFrame(Value())| <= target.Length
      modifies target
      ensures next == from + |WriteUserFrame(Value())| && Written(target, start, at, w + WriteUserFrame(Value()))
    {
      ghost var a, b, c := WriteOptional(8, Value().uuid), WriteElements(16, keyInfo), EncodeUnknowns(unknown);
      AppendInTurn(w, a, b, c);
      next := WriteOptionalToArray(8, hasUuid, uuid, target, from, start, at, w);
      next := WriteElementsToArray(16, keyInfo, target, next, start, at, w + a);
      next := WriteUnknownsToArray(unknown, target, next, start, at, w + a + b);
    }
  }

  lemma AppendInTurn(s: Bytes, a: Bytes, b: Bytes, c: Bytes)
    ensures s + (a + b + c) == s + a + b + c
  {
  }

  /** The summed sizes of a list of varints. */
  function KeysSize(values: seq<nat>): nat {
    if values == [] then 0 else VarintSize(values[0]) + KeysSize(values[1..])
  }

  lemma {:induction false} KeysSizeIsLength(tag: Byte, values: seq<nat>)
    requires forall v | v in values :: v < TWO_TO_32
    ensures |values| + KeysSize(values) == |WriteElements(tag, values)|
  {
    if values != [] {
      assert values[0] in values && forall v | v in values[1..] :: v in values;
      VarintSizeIsLength(values[0]);
      KeysSizeIsLength(tag, values[1..]);
    }
  }

  // ---------------------------------------------------------------- CSFrame

  lemma CSFrameMore(base: V.CSFrame, done: seq<Field>, more: seq<Field>)
    ensures V.MergeCSFrame(base, V.CSFrameOf(done + more)) ==
      V.MergeCSFrame(V.MergeCSFrame(base, V.CSFrameOf(done)), V.CSFrameOf(more))
  {
    V.OfConcat(done, more);
    var a, b := V.CSFrameOf(done), V.CSFrameOf(more);
    assert base.keyInfo + (a.keyInfo + b.keyInfo) == (base.keyInfo + a.keyInfo) + b.keyInfo;
    assert base.unknown + (a.unknown + b.unknown) == (base.unknown + a.unknown) + b.unknown;
  }

  lemma CSFrameOfOne(f: Field, values: seq<nat>)
    ensures V.CSFrameOf([f]) == V.CSFrame(
      if f.Scalar? && f.number == 1 then Some(f.value) else None,
      if f.Scalar? && f.number == 2 then Some(f.value) else None,
      if f.Elements? && f.number == 3 then f.values else [],
      if f.Unknown? then [f.unknown] else [])
    ensures V.CSFrameOf(ElementFields(3, values)) == V.CSFrame(None, None, values, [])
  {
    V.ObserveOne(f, 1);
    V.ObserveOne(f, 2);
    V.ObserveOne(f, 3);
    ElementFieldsObserved(3, values, 1);
    ElementFieldsObserved(3, values, 2);
  }

  class CSFrame {
    var hasUuid: bool
    var uuid: nat
    var hasFrameId: bool
    var frameId: nat
    var keyInfo: seq<nat>
    var unknown: seq<UnknownField>
    var cachedSize: nat

    ghost function Value(): V.CSFrame
      reads this
    {
      V.CSFrame(if hasUuid then Some(uuid) else None, if hasFrameId then Some(frameId) else None, keyInfo, unknown)
    }

    constructor ()
      ensures Value() == V.CSFrame(None, None, [], [])
    {
      hasUuid, uuid, hasFrameId, frameId, keyInfo, unknown, cachedSize := false, 0, false, 0, [], [], 0;
    }

    method Clear()
      modifies this
      ensures Value() == V.CSFrame(None, None, [], [])
    {
      keyInfo := [];
      if hasUuid || hasFrameId {
        frameId, uuid := 0, 0;
      }
      hasUuid, hasFrameId, unknown := false, false, [];
    }

    method MergeKeys(input: CodedInput, tag: nat, ghost p: Place) returns (ok: bool, ghost more: seq<Field>)
      requires input.Valid() && !input.legitimateEnd && (tag == 24 || tag == 26)
      requires AtTag(V.CS_FRAME_SCHEMA, p, tag, input.Rest()) && p.depth == input.budget
      modifies this, input
      ensures Moved(V.CS_FRAME_SCHEMA, p, input, ok, more)
      ensures ok ==> Value() == V.MergeCSFrame(old(Value()), V.CSFrameOf(more))
    {
      hide Parse;
      var values;
      if tag == 24 {
        ok, values, more := ReadElementFields(input, 24, 3, V.CS_FRAME_SCHEMA, p);
      } else {
        ok, values, more := ReadPackedField(input, 26, 3, V.CS_FRAME_SCHEMA, p);
      }
      keyInfo := keyInfo + values;
      CSFrameOfOne(Elements(3, values), values);
    }

    method MergeScalar(input: CodedInput, tag: nat, ghost p: Place) returns (ok: bool, ghost more: seq<Field>)
      requires input.Valid() && !input.legitimateEnd && (tag == 8 || tag == 16)
      requires AtTag(V.CS_FRAME_SCHEMA, p, tag, input.Rest()) && p.depth == input.budget
      modifies this, input
      ensures Moved(V.CS_FRAME_SCHEMA, p, input, ok, more)
      ensures ok ==> Value() == V.MergeCSFrame(old(Value()), V.CSFrameOf(more))
    {
      hide Parse;
      if tag == 8 {
        hasUuid := true;
      } else {
        hasFrameId := true;
      }
      var v;
      ok, v, more := ReadScalarField(input, tag == 16, tag, tag / 8, V.CS_FRAME_SCHEMA, p);
      if tag == 8 {
        uuid := v;
      } else {
        frameId := v;
      }
      CSFrameOfOne(Scalar(tag / 8, v), []);
    }

    method MergeUnknown(input: CodedInput, tag: nat, ghost p: Place) returns (ok: bool, ghost more: seq<Field>)
      requires input.Valid() && !input.legitimateEnd && tag !in V.CS_FRAME_SCHEMA.actions
      requires AtTag(V.CS_FRAME_SCHEMA, p, tag, input.Rest()) && p.depth == input.budget
      modifies this, input
      ensures Moved(V.CS_FRAME_SCHEMA, p, input, ok, more)
      ensures ok ==> Value() == V.MergeCSFrame(old(Value()), V.CSFrameOf(more))
    {
      hide Parse;
      var field;
      ok, field, more := ReadUnknownField(input, tag, V.CS_FRAME_SCHEMA, p);
      unknown := unknown + [field];
      CSFrameOfOne(Unknown(field), []);
    }

    method MergeField(input: CodedInput, tag: nat, low: bool, ghost p: Place)
      returns (ok: bool, ghost more: seq<Field>)
      requires input.Valid() && !input.legitimateEnd && (low <==> 1 <= tag <= 127)
      requires AtTag(V.CS_FRAME_SCHEMA, p, tag, input.Rest()) && p.depth == input.budget
      modifies this, input
      ensures Moved(V.CS_FRAME_SCHEMA, p, input, ok, more)
      ensures ok ==> Value() == V.MergeCSFrame(old(Value()), V.CSFrameOf(more))
    {
      hide Parse;
      if low && (tag == 8 || tag == 16) {
        ok, more := MergeScalar(input, tag, p);
      } else if low && (tag == 24 || tag == 26) {
        ok, more := MergeKeys(input, tag, p);
      } else {
        ok, more := MergeUnknown(input, tag, p);
      }
    }

    method MergePartialFromCodedStream(input: CodedInput) returns (ok: bool)
      requires input.Valid() && !input.legitimateEnd
      modifies this, input
      ensures input.Valid() && input.pos >= old(input.pos)
      ensures ok ==> input.limit == old(input.limit)
      ensures ok && input.legitimateEnd <==> Parse(V.CS_FRAME_SCHEMA, old(input.Rest()), old(input.budget)).Some?
      ensures ok && input.legitimateEnd ==>
        && Value() == V.MergeCSFrame(old(Value()),
             V.CSFrameOf(Parse(V.CS_FRAME_SCHEMA, old(input.Rest()), old(input.budget)).value))
        && input.pos == input.limit == old(input.limit) && input.budget == old(input.budget)
    {
      ghost var all, done, base, depth := input.Rest(), [], Value(), input.budget;
      ParsingStarts(V.CS_FRAME_SCHEMA, all, depth);
      while true
        invariant input.Valid() && input.pos >= old(input.pos) && !input.legitimateEnd
        invariant input.limit == old(input.limit) && input.budget == depth
        invariant Parsing(V.CS_FRAME_SCHEMA, all, input.Rest(), done, depth)
        invariant Value() == V.MergeCSFrame(base, V.CSFrameOf(done))
        decreases input.limit - input.pos
      {
        ghost var before := input.Rest();
        ParsingEnds(V.CS_FRAME_SCHEMA, all, before, done, depth);
        var tag, low := input.ReadTag();
        if tag == 0 {
          return true;
        }
        ghost var more;
        ok, more := MergeField(input, tag, low, Place(all, before, done, depth));
        if !ok {
          return false;
        }
        CSFrameMore(base, done, more);
        done := done + more;
      }
    }

    method ParseFromArray(data: Bytes) returns (ok: bool)
      modifies this
      ensures ok <==> V.ParseCSFrame(data).Some?
      ensures ok ==> Value() == V.ParseCSFrame(data).value
    {
      var input := new CodedInput(data);
      Clear();
      ok := MergePartialFromCodedStream(input);
      ok := ok && input.legitimateEnd;
    }

    method MergeFrom(from: CSFrame)
      requires from != this
      modifies this
      ensures Value() == V.MergeCSFrame(old(Value()), from.Value())
    {
      unknown := unknown + from.unknown;
      keyInfo := keyInfo + from.keyInfo;
      if from.hasFrameId {
        frameId := from.frameId;
      }
      if from.hasUuid {
        uuid := from.uuid;
      }
      hasFrameId := hasFrameId || from.hasFrameId;
      hasUuid := hasUuid || from.hasUuid;
    }

    ghost predicate InRange()
      reads this
    {
      && uuid < TWO_TO_32 && frameId < TWO_TO_64 && (forall k | k in keyInfo :: k < TWO_TO_32)
      && (forall u | u in unknown :: Representable(u, V.RECURSION_LIMIT))
    }

    method ByteSizeLong() returns (total: nat)
      requires InRange()
      modifies this`cachedSize
      ensures total == |WriteCSFrame(Value())| && cachedSize == total
    {
      UnknownsSizeIsLength(unknown, V.RECURSION_LIMIT);
      KeysSizeIsLength(24, keyInfo);
      total := UnknownsSize(unknown) + |keyInfo| + KeysSize(keyInfo);
      if hasFrameId {
        VarintSizeIsLength(frameId);
        total := total + 1 + VarintSize(frameId);
      }
      if hasUuid {
        VarintSizeIsLength(uuid);
        total := total + 1 + VarintSize(uuid);
      }
      cachedSize := total;
    }

    method SerializeWithCachedSizes(output: CodedOutput)
      modifies output
      ensures output.bytes == old(output.bytes) + WriteCSFrame(Value())
    {
      output.WriteOptionalScalar(8, hasUuid, uuid);
      output.WriteOptionalScalar(16, hasFrameId, frameId);
      output.WriteElementsOf(24, keyInfo);
      output.WriteUnknowns(unknown);
      AppendFour(old(output.bytes), WriteOptional(8, Value().uuid), WriteOptional(16, Value().frameId),
        WriteElements(24, keyInfo), EncodeUnknowns(unknown));
    }

    method InternalSerializeToArray(target: array<Byte>, from: nat, ghost start: Bytes, ghost at: nat, ghost w: Bytes)
      returns (next: nat)
      requires Written(target, start, at, w) && from == at + |w| && from + |WriteCSFrame(Value())| <= target.Length
      modifies target
      ensures next == from + |WriteCSFrame(Value())| && Written(target, start, at, w + WriteCSFrame(Value()))
    {
      ghost var a, b := WriteOptional(8, Value().uuid), WriteOptional(16, Value().frameId);
      ghost var c := WriteElements(24, keyInfo);
      AppendFour(w, a, b, c, EncodeUnknowns(unknown));
      next := WriteOptionalToArray(8, hasUuid, uuid, target, from, start, at, w);
      next := WriteOptionalToArray(16, hasFrameId, frameId, target, next, start, at, w + a);
      next := WriteElementsToArray(24, keyInfo, target, next, start, at, w + a + b);
      next := WriteUnknownsToArray(unknown, target, next, start, at, w + a + b + c);
    }
  }

  lemma AppendFour(s: Bytes, a: Bytes, b: Bytes, c: Bytes, d: Bytes)
    ensures s + (a + b + c + d) == s + a + b + c + d
  {
  }

  // ---------------------------------------------------------------- SCFrame

  /** A user owned by its frame: nothing else points to it, so it is kept by value,
      with the size last computed for it. */
  datatype Owned = Owned(value: V.UserFrame, cachedSize: nat)

  function Values(users: seq<Owned>): (values: seq<V.UserFrame>)
    ensures |values| == |users|
  {
    seq(|users|, i requires 0 <= i < |users| => users[i].value)
  }

  lemma SCFrameMore(base: V.SCFrame, done: seq<Field>, more: seq<Field>)
    ensures V.MergeSCFrame(base, V.SCFrameOf(done + more)) ==
      V.MergeSCFrame(V.MergeSCFrame(base, V.SCFrameOf(done)), V.SCFrameOf(more))
  {
    V.OfConcat(done, more);
    var a, b := V.SCFrameOf(done), V.SCFrameOf(more);
    assert base.users + (a.users + b.users) == (base.users + a.users) + b.users;
    assert base.unknown + (a.unknown + b.unknown) == (base.unknown + a.unknown) + b.unknown;
  }

  lemma SCFrameOfOne(f: Field)
    ensures V.SCFrameOf([f]) == V.SCFrame(
      if f.Scalar? && f.number == 1 then Some(f.value) else None,
      if f.Scalar? && f.number == 2 then Some(f.value) else None,
      if f.Message? && f.number == 3 then [V.UserFrameOf(f.fields)] else [],
      if f.Unknown? then [f.unknown] else [])
  {
    V.ObserveOne(f, 1);
    V.ObserveOne(f, 2);
    V.ObserveOne(f, 3);
    assert V.UserFramesOf([]) == [];
    if f.Message? {
      assert V.UserFramesOf([f.fields]) == [V.UserFrameOf(f.fields)];
    }
  }

  /** A nested message: its own limit and one level of the recursion budget. */
  method ReadUserMessage(input: CodedInput, user: UserFrame) returns (ok: bool)
    requires input.Valid() && !input.legitimateEnd && user.Value() == V.UserFrame(None, [], [])
    modifies input, user
    ensures input.Valid() && input.pos >= old(input.pos)
    ensures var r := ReadKnown(ReadMessage(3, V.USER_FRAME_SCHEMA), old(input.Rest()), old(input.budget));
      && ok == r.Got?
      && (ok ==> input.Rest() == r.rest && user.Value() == V.UserFrameOf(r.value.fields))
    ensures ok ==> input.limit == old(input.limit) && input.budget == old(input.budget) && !input.legitimateEnd
  {
    var length;
    ok, length := input.ReadVarintSizeAsInt();
    if !ok {
      return;
    }
    ghost var after := input.Rest();
    var oldLimit := input.PushLimit(length);
    if input.budget == 0 {
      return false;
    }
    input.budget := input.budget - 1;
    ok := user.MergePartialFromCodedStream(input);
    if !ok {
      return;
    }
    ok := input.legitimateEnd;
    input.PopLimit(oldLimit);
    input.budget := input.budget + 1;
    assert ok ==> input.Rest() == after[Min(length, |after|)..];
  }

  method MessageSize(v: V.UserFrame) returns (size: nat)
    requires UserInRange(v) && |WriteUserFrame(v)| < TWO_TO_31
    ensures size == |WriteUserFrame(v)|
    ensures VarintSize(size) + size + 1 == |WriteBody(26, WriteUserFrame(v))|
  {
    var user := new UserFrame.From(v);
    size := user.ByteSizeLong();
    VarintSizeIsLength(size);
  }

  method WriteMessage(u: Owned, output: CodedOutput)
    requires u.cachedSize == |WriteUserFrame(u.value)|
    modifies output
    ensures output.bytes == old(output.bytes) + WriteBody(26, WriteUserFrame(u.value))
  {
    var user := new UserFrame.From(u.value);
    output.WriteScalar(26, u.cachedSize);
    user.SerializeWithCachedSizes(output);
  }

  method WriteMessageToArray(u: Owned, target: array<Byte>, from: nat, ghost start: Bytes, ghost at: nat,
      ghost w: Bytes)
    returns (next: nat)
    requires u.cachedSize == |WriteUserFrame(u.value)| && Written(target, start, at, w) && from == at + |w|
    requires from + |WriteBody(26, WriteUserFrame(u.value))| <= target.Length
    modifies target
    ensures next == from + |WriteBody(26, WriteUserFrame(u.value))|
    ensures Written(target, start, at, w + WriteBody(26, WriteUserFrame(u.value)))
  {
    var user := new UserFrame.From(u.value);
    ghost var head := [26] + EncodeVarint(u.cachedSize);
    next := WriteScalarToArray(26, u.cachedSize, target, from, start, at, w);
    next := user.InternalSerializeToArray(target, next, start, at, w + head);
    assert (w + head) + WriteUserFrame(u.value) == w + WriteBody(26, WriteUserFrame(u.value));
  }

  ghost predicate AllSized(users: seq<Owned>) {
    forall i | 0 <= i < |users| :: users[i].cachedSize == |WriteUserFrame(users[i].value)|
  }

  /** The bytes of the first `n` users. */
  ghost function WrittenUsers(users: seq<Owned>, n: nat): Bytes
    requires n <= |users|
  {
    if n == 0 then [] else WrittenUsers(users, n - 1) + WriteBody(26, WriteUserFrame(users[n - 1].value))
  }

  lemma {:induction false} WrittenUsersAre(users: seq<Owned>, n: nat)
    requires n <= |users|
    ensures WrittenUsers(users, n) == WriteUserFrames(Values(users)[..n])
  {
    hide WriteUserFrame, WriteBody;
    if n > 0 {
      WrittenUsersAre(users, n - 1);
      var values := Values(users);
      WriteUserFramesSnoc(values[..n - 1], values[n - 1]);
      assert values[..n] == values[..n - 1] + [values[n - 1]];
    }
  }

  lemma AllUsersWritten(users: seq<Owned>)
    ensures WrittenUsers(users, |users|) == WriteUserFrames(Values(users))
  {
    WrittenUsersAre(users, |users|);
    assert Values(users)[..|users|] == Values(users);
  }

  lemma {:induction false} WrittenUsersGrow(users: seq<Owned>, n: nat)
    requires n <= |users|
    ensures |WrittenUsers(users, n)| <= |WrittenUsers(users, |users|)|
    decreases |users| - n
  {
    if n < |users| {
      WrittenUsersGrow(users, n + 1);
    }
  }

  lemma NextUserWritten(w: Bytes, users: seq<Owned>, n: nat)
    requires n < |users|
    ensures w + WrittenUsers(users, n + 1) ==
      (w + WrittenUsers(users, n)) + WriteBody(26, WriteUserFrame(users[n].value))
    ensures |WrittenUsers(users, n + 1)| == |WrittenUsers(users, n)| + |WriteBody(26, WriteUserFrame(users[n].value))|
  {
    hide WriteUserFrame, WriteBody;
    var before, body := WrittenUsers(users, n), WriteBody(26, WriteUserFrame(users[n].value));
    assert WrittenUsers(users, n + 1) == before + body;
    assert w + (before + body) == (w + before) + body;
  }

  /** Each length prefix is the child's cached size. */
  method WriteMessages(users: seq<Owned>, output: CodedOutput)
    requires AllSized(users)
    modifies output
    ensures output.bytes == old(output.bytes) + WriteUserFrames(Values(users))
  {
    hide WriteUserFrame, WriteBody;
    for i := 0 to |users|
      invariant output.bytes == old(output.bytes) + WrittenUsers(users, i)
    {
      WriteMessage(users[i], output);
    }
    AllUsersWritten(users);
  }

  method WriteMessagesToArray(users: seq<Owned>, target: array<Byte>, from: nat, ghost start: Bytes, ghost at: nat,
      ghost w: Bytes)
    returns (next: nat)
    requires AllSized(users) && Written(target, start, at, w) && from == at + |w|
    requires from + |WriteUserFrames(Values(users))| <= target.Length
    modifies target
    ensures next == from + |WriteUserFrames(Values(users))|
    ensures Written(target, start, at, w + WriteUserFrames(Values(users)))
  {
    hide WriteUserFrame, WriteBody;
    AllUsersWritten(users);
    next := from;
    for i := 0 to |users|
      invariant Written(target, start, at, w + WrittenUsers(users, i))
      invariant next == from + |WrittenUsers(users, i)|
    {
      WrittenUsersGrow(users, i + 1);
      NextUserWritten(w, users, i);
      next := WriteMessageToArray(users[i], target, next, start, at, w + WrittenUsers(users, i));
    }
  }

  class SCFrame {
    var hasFrameId: bool
    var frameId: nat
    var hasNextFrameId: bool
    var nextFrameId: nat
    var users: seq<Owned>
    var unknown: seq<UnknownField>
    var cachedSize: nat

    ghost function Value(): V.SCFrame
      reads this
    {
      V.SCFrame(if hasFrameId then Some(frameId) else None, if hasNextFrameId then Some(nextFrameId) else None,
        Values(users), unknown)
    }

    constructor ()
      ensures Value() == V.SCFrame(None, None, [], [])
    {
      hasFrameId, frameId, hasNextFrameId, nextFrameId := false, 0, false, 0;
      users, unknown, cachedSize := [], [], 0;
    }

    method Clear()
      modifies this
      ensures Value() == V.SCFrame(None, None, [], [])
    {
      users := [];
      if hasFrameId || hasNextFrameId {
        frameId, nextFrameId := 0, 0;
      }
      hasFrameId, hasNextFrameId, unknown := false, false, [];
    }

    method MergeUser(input: CodedInput, ghost p: Place) returns (ok: bool, ghost more: seq<Field>)
      requires input.Valid() && !input.legitimateEnd
      requires AtTag(V.SC_FRAME_SCHEMA, p, 26, input.Rest()) && p.depth == input.budget
      modifies this, input
      ensures Moved(V.SC_FRAME_SCHEMA, p, input, ok, more)
      ensures ok ==> Value() == V.MergeSCFrame(old(Value()), V.SCFrameOf(more))
    {
      hide Parse;
      ParsingField(V.SC_FRAME_SCHEMA, p.all, p.before, 26, input.Rest(), p.done, p.depth);
      ghost var r := ReadKnown(ReadMessage(3, V.USER_FRAME_SCHEMA), input.Rest(), p.depth);
      ghost var was := Values(users);
      var user := new UserFrame();
      ok := ReadUserMessage(input, user);
      users := users + [Owned(user.Value(), 0)];
      more := [];
      if ok {
        more := [r.value];
        SCFrameOfOne(r.value);
        assert Values(users) == was + [V.UserFrameOf(r.value.fields)];
      }
    }

    method MergeScalar(input: CodedInput, tag: nat, ghost p: Place) returns (ok: bool, ghost more: seq<Field>)
      requires input.Valid() && !input.legitimateEnd && (tag == 8 || tag == 16)
      requires AtTag(V.SC_FRAME_SCHEMA, p, tag, input.Rest()) && p.depth == input.budget
      modifies this, input
      ensures Moved(V.SC_FRAME_SCHEMA, p, input, ok, more)
      ensures ok ==> Value() == V.MergeSCFrame(old(Value()), V.SCFrameOf(more))
    {
      hide Parse;
      if tag == 8 {
        hasFrameId := true;
      } else {
        hasNextFrameId := true;
      }
      var v;
      ok, v, more := ReadScalarField(input, true, tag, tag / 8, V.SC_FRAME_SCHEMA, p);
      if tag == 8 {
        frameId := v;
      } else {
        nextFrameId := v;
      }
      SCFrameOfOne(Scalar(tag / 8, v));
    }

    method MergeUnknown(input: CodedInput, tag: nat, ghost p: Place) returns (ok: bool, ghost more: seq<Field>)
      requires input.Valid() && !input.legitimateEnd && tag !in V.SC_FRAME_SCHEMA.actions
      requires AtTag(V.SC_FRAME_SCHEMA, p, tag, input.Rest()) && p.depth == input.budget
      modifies this, input
      ensures Moved(V.SC_FRAME_SCHEMA, p, input, ok, more)
      ensures ok ==> Value() == V.MergeSCFrame(old(Value()), V.SCFrameOf(more))
    {
      hide Parse;
      var field;
      ok, field, more := ReadUnknownField(input, tag, V.SC_FRAME_SCHEMA, p);
      unknown := unknown + [field];
      SCFrameOfOne(Unknown(field));
    }

    method MergeField(input: CodedInput, tag: nat, low: bool, ghost p: Place)
      returns (ok: bool, ghost more: seq<Field>)
      requires input.Valid() && !input.legitimateEnd && (low <==> 1 <= tag <= 127)
      requires AtTag(V.SC_FRAME_SCHEMA, p, tag, input.Rest()) && p.depth == input.budget
      modifies this, input
      ensures Moved(V.SC_FRAME_SCHEMA, p, input, ok, more)
      ensures ok ==> Value() == V.MergeSCFrame(old(Value()), V.SCFrameOf(more))
    {
      hide Parse;
      if low && (tag == 8 || tag == 16) {
        ok, more := MergeScalar(input, tag, p);
      } else if low && tag == 26 {
        ok, more := MergeUser(input, p);
      } else {
        ok, more := MergeUnknown(input, tag, p);
      }
    }

    method MergePartialFromCodedStream(input: CodedInput) returns (ok: bool)
      requires input.Valid() && !input.legitimateEnd
      modifies this, input
      ensures input.Valid() && input.pos >= old(input.pos)
      ensures ok ==> input.limit == old(input.limit)
      ensures ok && input.legitimateEnd <==> Parse(V.SC_FRAME_SCHEMA, old(input.Rest()), old(input.budget)).Some?
      ensures ok && input.legitimateEnd ==>
        && Value() == V.MergeSCFrame(old(Value()),
             V.SCFrameOf(Parse(V.SC_FRAME_SCHEMA, old(input.Rest()), old(input.budget)).value))
        && input.pos == input.limit == old(input.limit) && input.budget == old(input.budget)
    {
      ghost var all, done, base, depth := input.Rest(), [], Value(), input.budget;
      ParsingStarts(V.SC_FRAME_SCHEMA, all, depth);
      SCFrameMergeNothing(base);
      while true
        invariant input.Valid() && input.pos >= old(input.pos) && !input.legitimateEnd
        invariant input.limit == old(input.limit) && input.budget == depth
        invariant Parsing(V.SC_FRAME_SCHEMA, all, input.Rest(), done, depth)
        invariant Value() == V.MergeSCFrame(base, V.SCFrameOf(done))
        decreases input.limit - input.pos
      {
        ghost var before := input.Rest();
        ParsingEnds(V.SC_FRAME_SCHEMA, all, before, done, depth);
        var tag, low := input.ReadTag();
        if tag == 0 {
          return true;
        }
        ghost var more;
        ok, more := MergeField(input, tag, low, Place(all, before, done, depth));
        if !ok {
          return false;
        }
        SCFrameMore(base, done, more);
        done := done + more;
      }
    }

    method ParseFromArray(data: Bytes) returns (ok: bool)
      modifies this
      ensures ok <==> V.ParseSCFrame(data).Some?
      ensures ok ==> Value() == V.ParseSCFrame(data).value
    {
      var input := new CodedInput(data);
      Clear();
      ok := MergePartialFromCodedStream(input);
      ok := ok && input.legitimateEnd;
      if ok {
        SCFrameMergeNothing(V.ParseSCFrame(data).value);
      }
    }

    /** Copies the users one by one. */
    method AppendCopies(from: seq<Owned>)
      modifies this`users
      ensures Values(users) == Values(old(users)) + Values(from)
    {
      for i := 0 to |from|
        invariant Values(users) == Values(old(users)) + Values(from[..i])
      {
        ghost var before := users;
        var user := new UserFrame();
        var other := new UserFrame.From(from[i].value);
        user.MergeFrom(other);
        MergeIntoEmpty(from[i].value);
        users := users + [Owned(user.Value(), 0)];
        assert Values(users) == Values(before) + [from[i].value];
        assert Values(from[..i + 1]) == Values(from[..i]) + [from[i].value];
      }
      assert from[..|from|] == from;
    }

    method MergeFrom(from: SCFrame)
      requires from != this
      modifies this
      ensures Value() == V.MergeSCFrame(old(Value()), from.Value())
    {
      unknown := unknown + from.unknown;
      AppendCopies(from.users);
      if from.hasFrameId {
        frameId := from.frameId;
      }
      if from.hasNextFrameId {
        nextFrameId := from.nextFrameId;
      }
      hasFrameId := hasFrameId || from.hasFrameId;
      hasNextFrameId := hasNextFrameId || from.hasNextFrameId;
    }

    ghost predicate InRange()
      reads this
    {
      && frameId < TWO_TO_64 && nextFrameId < TWO_TO_64
      && (forall i | 0 <= i < |users| :: UserInRange(users[i].value) && |WriteUserFrame(users[i].value)| < TWO_TO_31)
      && (forall u | u in unknown :: Representable(u, V.RECURSION_LIMIT))
    }

    /** Every nested size has been cached, and is right. */
    ghost predicate Sized()
      reads this
    {
      AllSized(users)
    }

    /** The nested messages with their tags and length prefixes; caches each child's size. */
    method UsersSize() returns (total: nat)
      requires InRange()
      modifies this`users
      ensures total == |WriteUserFrames(Values(users))| && Values(users) == old(Values(users)) && Sized()
    {
      hide WriteUserFrame;
      ghost var was := users;
      total := |users|;
      for i := 0 to |users|
        invariant |users| == |was| && forall j | 0 <= j < |users| :: users[j].value == was[j].value
        invariant forall j | 0 <= j < i :: users[j].cachedSize == |WriteUserFrame(was[j].value)|
        invariant total == |users| - i + |WrittenUsers(was, i)|
      {
        var size := MessageSize(users[i].value);
        NextUserWritten([], was, i);
        users := users[i := Owned(users[i].value, size)];
        total := total + VarintSize(size) + size;
      }
      AllUsersWritten(was);
      assert Values(users) == Values(was);
    }

    method ByteSizeLong() returns (total: nat)
      requires InRange()
      modifies this`cachedSize, this`users
      ensures total == |WriteSCFrame(Value())| && cachedSize == total && Sized()
      ensures Value() == old(Value())
    {
      UnknownsSizeIsLength(unknown, V.RECURSION_LIMIT);
      total := UsersSize();
      total := total + UnknownsSize(unknown);
      if hasFrameId {
        VarintSizeIsLength(frameId);
        total := total + 1 + VarintSize(frameId);
      }
      if hasNextFrameId {
        VarintSizeIsLength(nextFrameId);
        total := total + 1 + VarintSize(nextFrameId);
      }
      cachedSize := total;
    }

    method SerializeWithCachedSizes(output: CodedOutput)
      requires Sized()
      modifies output
      ensures output.bytes == old(output.bytes) + WriteSCFrame(Value())
    {
      output.WriteOptionalScalar(8, hasFrameId, frameId);
      output.WriteOptionalScalar(16, hasNextFrameId, nextFrameId);
      WriteMessages(users, output);
      output.WriteUnknowns(unknown);
      AppendFour(old(output.bytes), WriteOptional(8, Value().frameId), WriteOptional(16, Value().nextFrameId),
        WriteUserFrames(Values(users)), EncodeUnknowns(unknown));
    }

    method InternalSerializeToArray(target: array<Byte>, from: nat, ghost start: Bytes, ghost at: nat, ghost w: Bytes)
      returns (next: nat)
      requires Sized() && Written(target, start, at, w) && from == at + |w| &&
        from + |WriteSCFrame(Value())| <= target.Length
      modifies target
      ensures next == from + |WriteSCFrame(Value())| && Written(target, start, at, w + WriteSCFrame(Value()))
    {
      ghost var a, b := WriteOptional(8, Value().frameId), WriteOptional(16, Value().nextFrameId);
      ghost var c := WriteUserFrames(Values(users));
      AppendFour(w, a, b, c, EncodeUnknowns(unknown));
      next := WriteOptionalToArray(8, hasFrameId, frameId, target, from, start, at, w);
      next := WriteOptionalToArray(16, hasNextFrameId, nextFrameId, target, next, start, at, w + a);
      next := WriteMessagesToArray(users, target, next, start, at, w + a + b);
      next := WriteUnknownsToArray(unknown, target, next, start, at, w + a + b + c);
    }

    /** Sizes first, then bytes: a buffer of the computed size is filled exactly. */
    method SerializeToArray(data: array<Byte>, size: nat) returns (ok: bool)
      requires InRange() && size <= data.Length
      modifies this, data
      ensures Value() == old(Value())
      ensures ok <==> |WriteSCFrame(Value())| <= size
      ensures ok ==> data[..] == WriteSCFrame(Value()) + old(data[..])[|WriteSCFrame(Value())|..]
      ensures !ok ==> data[..] == old(data[..])
    {
      var byteSize := ByteSizeLong();
      if size < byteSize {
        return false;
      }
      ghost var start := data[..];
      var end := InternalSerializeToArray(data, 0, start, 0, []);
      assert end == byteSize;
      assert [] + WriteSCFrame(Value()) == WriteSCFrame(Value());
      ok := true;
    }
  }

  predicate UserInRange(v: V.UserFrame) {
    && Below(v.uuid, TWO_TO_32) && (forall k | k in v.keyInfo :: k < TWO_TO_32)
    && (forall u | u in v.unknown :: Representable(u, V.RECURSION_LIMIT))
  }

  lemma MergeIntoEmpty(m: V.UserFrame)
    ensures V.MergeUserFrame(V.UserFrame(None, [], []), m) == m
  {
    assert [] + m.keyInfo == m.keyInfo && [] + m.unknown == m.unknown;
  }

  lemma SCFrameMergeNothing(m: V.SCFrame)
    ensures V.MergeSCFrame(m, V.SCFrameOf([])) == m
    ensures V.MergeSCFrame(V.SCFrame(None, None, [], []), m) == m
  {
    assert V.UserFramesOf([]) == [];
    assert m.users + [] == m.users && m.unknown + [] == m.unknown;
    assert [] + m.users == m.users && [] + m.unknown == m.unknown;
  }

  lemma {:induction false} WriteUserFramesSnoc(users: seq<V.UserFrame>, user: V.UserFrame)
    ensures WriteUserFrames(users + [user]) == WriteUserFrames(users) + WriteBody(26, WriteUserFrame(user))
  {
    if users == [] {
      assert users + [user] == [user] && [user][1..] == [];
    } else {
      assert (users + [user])[1..] == users[1..] + [user];
      WriteUserFramesSnoc(users[1..], user);
    }
  }
}
