/** Serialized messages one after another: every encoding the serializers write is framed, so
    what follows it, whatever it is, merges into it -- repeated fields in order, the last scalar
    wins. */
module PlayerConcat {
  import opened Options
  import opened Wire
  import opened WireLaws
  import opened PlayerValues
  import opened PlayerRoundTrip
  import opened Numbers

  /** Bytes that read the same whatever follows them are framed. */
  lemma YieldsFramed(schema: Schema, s: Bytes, fields: seq<Field>, depth: nat)
    requires WellFormed(schema) && Yields(schema, s, fields, depth)
    ensures Parse(schema, s, depth) == Some(fields) && Framed(schema, s, depth)
  {
    hide Parse, Framed, WellFormed, Yields;
    YieldsWhole(schema, s, fields, depth);
    forall b | Parse(schema, b, depth).Some?
      ensures Parse(schema, s + b, depth) == Some(fields + Parse(schema, b, depth).value)
    {
      YieldsAt(schema, s, fields, b, depth);
    }
    ConcatLawIffFramed(schema, s, depth);
  }

  lemma WrittenUserFrameMerges(m: UserFrame, b: Bytes)
    requires UserFrameOk(m, RECURSION_LIMIT) && ParseUserFrame(b).Some?
    ensures ParseUserFrame(WriteUserFrame(m) + b) == Some(MergeUserFrame(m, ParseUserFrame(b).value))
  {
    hide Parse, Framed, Yields, WriteUserFrame, UserFrameOk, UserFrameOf, UserFrameFields;
    UserFrameYields(m, RECURSION_LIMIT);
    YieldsFramed(USER_FRAME_SCHEMA, WriteUserFrame(m), UserFrameFields(m), RECURSION_LIMIT);
    UserFrameConcatMergesIffFramed(WriteUserFrame(m));
  }

  lemma WrittenCSFrameMerges(m: CSFrame, b: Bytes)
    requires CSFrameOk(m) && ParseCSFrame(b).Some?
    ensures ParseCSFrame(WriteCSFrame(m) + b) == Some(MergeCSFrame(m, ParseCSFrame(b).value))
  {
    hide Parse, Framed, Yields, WriteCSFrame, CSFrameOk, CSFrameOf, CSFrameFields;
    CSFrameYields(m);
    CSFrameRoundTrip(m);
    YieldsFramed(CS_FRAME_SCHEMA, WriteCSFrame(m), CSFrameFields(m), RECURSION_LIMIT);
    CSFrameConcatMergesIffFramed(WriteCSFrame(m));
  }

  lemma WrittenSCFrameMerges(m: SCFrame, b: Bytes)
    requires SCFrameOk(m) && ParseSCFrame(b).Some?
    ensures ParseSCFrame(WriteSCFrame(m) + b) == Some(MergeSCFrame(m, ParseSCFrame(b).value))
  {
    hide Parse, Framed, Yields, WriteSCFrame, SCFrameOk, SCFrameOf, SCFrameFields;
    SCFrameYields(m);
    SCFrameRoundTrip(m);
    YieldsFramed(SC_FRAME_SCHEMA, WriteSCFrame(m), SCFrameFields(m), RECURSION_LIMIT);
    SCFrameConcatMergesIffFramed(WriteSCFrame(m));
  }

  lemma WrittenSCSightMerges(m: SCSight, b: Bytes)
    requires SCSightOk(m) && ParseSCSight(b).Some?
    ensures ParseSCSight(WriteSCSight(m) + b) == Some(MergeSCSight(m, ParseSCSight(b).value))
  {
    hide Parse, Framed, Yields, WriteSCSight, SCSightOk, SCSightOf;
    SCSightYields(m);
    SCSightRoundTrip(m);
    YieldsFramed(SC_SIGHT_SCHEMA, WriteSCSight(m), PlayerInfosFields(m.players) + UnknownFields(m.unknown),
      RECURSION_LIMIT);
    SCSightConcatMergesIffFramed(WriteSCSight(m));
  }

  // ---------------------------------------------------------------- encodings that are cut short

  lemma OneByte(b: Byte, rest: Bytes, modulus: nat)
    requires b < 128 <= modulus
    ensures ReadVarint([b] + rest, modulus) == Got(b as nat, rest)
  {
    assert ([b] + rest)[1..] == rest;
  }

  lemma KnownField(schema: Schema, tag: Byte, rest: Bytes, depth: nat)
    requires WellFormed(schema) && 0 < tag < 128 && tag in schema.actions
    ensures ReadField(schema, [tag] + rest, depth) == ReadKnown(schema.actions[tag], rest, depth)
  {
    hide ReadKnown, ReadVarint;
    OneByte(tag, rest, TWO_TO_32);
  }

  lemma LastField(schema: Schema, s: Bytes, field: Field, depth: nat)
    requires WellFormed(schema) && s != [] && ReadField(schema, s, depth) == Got(field, [])
    ensures Parse(schema, s, depth) == Some([field])
  {
    hide ReadField;
    assert Parse(schema, [], depth) == Some([]);
    assert [field] + [] == [field];
  }

  lemma BodyUpTo(n: Byte, rest: Bytes)
    requires n < 128
    ensures ReadBody([n] + rest) == Got(rest[..Min(n, |rest|)], rest[Min(n, |rest|)..])
    ensures ReadSize([n] + rest) == Got(n as nat, rest)
  {
    hide ReadVarint;
    OneByte(n, rest, TWO_TO_64);
  }

  lemma PackedKeys(number: nat, s: Bytes, keys: seq<nat>, depth: nat)
    requires ReadBody(s).Got? && ReadAllVarints(ReadBody(s).value) == Some(keys)
    ensures ReadKnown(ReadPacked(number), s, depth) == Got(Elements(number, keys), ReadBody(s).rest)
  {
    hide ReadBody, ReadAllVarints;
  }

  lemma PrefixShows(schema: Schema, tag: Byte, n: Byte, rest: Bytes)
    requires 0 < tag < 128 && n < 128 && tag in schema.actions && schema.actions[tag].ReadPacked?
    ensures PrefixFits(schema, [tag] + ([n] + rest)) <==> n <= |rest|
  {
    hide ReadVarint, ReadSize;
    OneByte(tag, [n] + rest, TWO_TO_32);
    BodyUpTo(n, rest);
  }

  /** A packed field of a key message whose prefix promises `n` bytes. */
  lemma KeysUpTo(n: Byte, rest: Bytes, keys: seq<nat>)
    requires n < 128 && ReadAllVarints(rest[..Min(n, |rest|)]) == Some(keys)
    ensures ReadField(CS_FRAME_SCHEMA, [26] + ([n] + rest), RECURSION_LIMIT) ==
      Got(Elements(3, keys), rest[Min(n, |rest|)..])
    ensures PrefixFits(CS_FRAME_SCHEMA, [26] + ([n] + rest)) <==> n <= |rest|
  {
    hide ReadAllVarints, ReadField, ReadKnown, ReadBody, ReadSize, ReadVarint, PrefixFits;
    KnownField(CS_FRAME_SCHEMA, 26, [n] + rest, RECURSION_LIMIT);
    BodyUpTo(n, rest);
    PackedKeys(3, [n] + rest, keys, RECURSION_LIMIT);
    PrefixShows(CS_FRAME_SCHEMA, 26, n, rest);
  }

  lemma OneKeyMore(b: Byte, rest: Bytes, keys: seq<nat>)
    requires b < 128 && ReadAllVarints(rest) == Some(keys)
    ensures ReadAllVarints([b] + rest) == Some([b as nat] + keys)
  {
    hide ReadVarint;
    OneByte(b, rest, TWO_TO_32);
  }

  lemma SmallKeys(a: Byte, b: Byte, c: Byte)
    requires a < 128 && b < 128 && c < 128
    ensures ReadAllVarints([a]) == Some([a as nat])
    ensures ReadAllVarints([a, b]) == Some([a as nat, b as nat])
    ensures ReadAllVarints([a, b, c]) == Some([a as nat, b as nat, c as nat])
  {
    assert ReadAllVarints([]) == Some([]);
    hide ReadAllVarints;
    assert [a] == [a] + [] && [b] == [b] + [] && [c] == [c] + [];
    OneKeyMore(a, [], []);
    OneKeyMore(b, [], []);
    OneKeyMore(c, [], []);
    assert [a, b, c] == [a] + [b, c] && [a, b] == [a] + [b] && [b, c] == [b] + [c];
    OneKeyMore(a, [b], [b as nat]);
    OneKeyMore(b, [c], [c as nat]);
    OneKeyMore(a, [b, c], [b as nat, c as nat]);
  }

  lemma FieldsOfKeys(keys: seq<nat>)
    ensures CSFrameOf([Elements(3, keys)]) == CSFrame(None, None, keys, [])
  {
    ObserveOne(Elements(3, keys), 1);
    ObserveOne(Elements(3, keys), 2);
    ObserveOne(Elements(3, keys), 3);
  }

  /** A key message with the key 7 in a packed field cut short: the prefix promises `n` bytes
      and one is there. */
  function CutShort(n: Byte): Bytes {
    [26, n, 7]
  }

  /** The parser takes it, though it is not framed. */
  lemma CutShortAccepted(n: Byte)
    requires 2 <= n < 128
    ensures ParseCSFrame(CutShort(n)) == Some(CSFrame(None, None, [7], []))
    ensures !Framed(CS_FRAME_SCHEMA, CutShort(n), RECURSION_LIMIT)
  {
    hide ReadField, ReadAllVarints, PrefixFits, Parse;
    assert CutShort(n) == [26] + ([n] + [7]);
    assert [7][..1] == [7] && [7][1..] == [];
    SmallKeys(7, 0, 0);
    KeysUpTo(n, [7], [7]);
    LastField(CS_FRAME_SCHEMA, CutShort(n), Elements(3, [7]), RECURSION_LIMIT);
    FieldsOfKeys([7]);
  }

  /** The user id 5, as a message of its own. */
  const USER_FIVE: Bytes := [8, 5]

  lemma UserFiveAccepted()
    ensures ParseCSFrame(USER_FIVE) == Some(CSFrame(Some(5), None, [], []))
  {
    hide ReadField, ReadVarint, Parse;
    assert USER_FIVE == [8] + [5] && [5] == [5] + [];
    KnownField(CS_FRAME_SCHEMA, 8, [5], RECURSION_LIMIT);
    OneByte(5, [], TWO_TO_32);
    LastField(CS_FRAME_SCHEMA, USER_FIVE, Scalar(1, 5), RECURSION_LIMIT);
    ObserveOne(Scalar(1, 5), 1);
    ObserveOne(Scalar(1, 5), 2);
    ObserveOne(Scalar(1, 5), 3);
  }

  lemma StrayFive()
    ensures ReadField(CS_FRAME_SCHEMA, [5], RECURSION_LIMIT) == Fail
  {
    hide ReadVarint;
    assert [5] == [5] + [];
    OneByte(5, [], TWO_TO_32);
  }

  /** Accepted encodings of which the concatenation does not merge the messages, which would
      give user 5 the key 7: when the prefix promises a byte too many, the parser refuses the
      whole, and when it promises two too many, it takes the user's id for two more keys. */
  lemma CutShortSwallows()
    ensures ParseCSFrame(CutShort(2)) == ParseCSFrame(CutShort(3)) == Some(CSFrame(None, None, [7], []))
    ensures ParseCSFrame(USER_FIVE) == Some(CSFrame(Some(5), None, [], []))
    ensures ParseCSFrame(CutShort(2) + USER_FIVE) == None
    ensures ParseCSFrame(CutShort(3) + USER_FIVE) == Some(CSFrame(None, None, [7, 8, 5], []))
  {
    hide ReadField, ReadAllVarints, PrefixFits, Framed, CSFrameOf;
    CutShortAccepted(2);
    CutShortAccepted(3);
    UserFiveAccepted();
    var rest: Bytes := [7, 8, 5];
    assert CutShort(2) + USER_FIVE == [26] + ([2] + rest) && CutShort(3) + USER_FIVE == [26] + ([3] + rest);
    assert rest[..2] == [7, 8] && rest[2..] == [5] && rest[..3] == rest && rest[3..] == [];
    SmallKeys(7, 8, 5);
    KeysUpTo(2, rest, [7, 8]);
    KeysUpTo(3, rest, [7, 8, 5]);
    StrayFive();
    assert Parse(CS_FRAME_SCHEMA, [5], RECURSION_LIMIT) == None;
    hide Parse;
    ThenFails(CS_FRAME_SCHEMA, CutShort(2) + USER_FIVE, Elements(3, [7, 8]), [5], RECURSION_LIMIT);
    LastField(CS_FRAME_SCHEMA, CutShort(3) + USER_FIVE, Elements(3, [7, 8, 5]), RECURSION_LIMIT);
    FieldsOfKeys([7, 8, 5]);
  }

  lemma ThenFails(schema: Schema, s: Bytes, field: Field, rest: Bytes, depth: nat)
    requires WellFormed(schema) && s != [] && ReadField(schema, s, depth) == Got(field, rest)
    requires Parse(schema, rest, depth) == None
    ensures Parse(schema, s, depth) == None
  {
    hide ReadField;
  }
}
