/** Whatever bytes the parser accepts, writing the message they mean and parsing that again
    gives the same message: nothing the parser keeps, known or unknown, is lost or changed. */
module PlayerReparse {
  import opened Wire
  import opened WireLaws
  import opened PlayerValues
  import opened PlayerRoundTrip
  import opened PlayerSizes
  import opened Numbers

  /** What the parser can have read for a schema with `depth` levels to spare. */
  ghost predicate FieldOk(schema: Schema, f: Field, depth: nat)
    decreases f
  {
    match f
    case Scalar(number, value) =>
      exists tag ::
        && tag in schema.actions
        && (schema.actions[tag].ReadScalar? || schema.actions[tag].ReadDouble?)
        && schema.actions[tag].number == number
        && value < (if schema.actions[tag].ReadScalar? then schema.actions[tag].modulus else PowerOf256(8))
    case Elements(_, values) => forall v | v in values :: v < TWO_TO_32
    case Message(number, fields) =>
      depth > 0 && exists tag ::
        && tag in schema.actions
        && schema.actions[tag].ReadMessage?
        && schema.actions[tag].number == number
        && forall g | g in fields :: FieldOk(schema.actions[tag].schema, g, depth - 1)
    case Unknown(u) => Representable(u, depth) && TagOf(u) !in schema.actions
  }

  ghost predicate FieldsOk(schema: Schema, fields: seq<Field>, depth: nat) {
    forall f | f in fields :: FieldOk(schema, f, depth)
  }

  lemma {:induction false} VarintsOk(s: Bytes)
    requires ReadAllVarints(s).Some?
    ensures forall v | v in ReadAllVarints(s).value :: v < TWO_TO_32
    decreases |s|
  {
    if s != [] {
      VarintsOk(ReadVarint(s, TWO_TO_32).rest);
    }
  }

  lemma {:induction false} ReadKnownOk(schema: Schema, tag: nat, s: Bytes, depth: nat)
    requires WellFormed(schema) && tag in schema.actions && ReadKnown(schema.actions[tag], s, depth).Got?
    ensures FieldOk(schema, ReadKnown(schema.actions[tag], s, depth).value, depth)
    decreases |s|, 0
  {
    hide Parse, ReadAllVarints, ReadSize, DecodeVarint;
    var f := ReadKnown(schema.actions[tag], s, depth).value;
    match schema.actions[tag]
    case ReadScalar(number, modulus) =>
    case ReadDouble(number) =>
      DecodeFixedBound(s[..8]);
      hide PowerOf256, DecodeFixed;
    case ReadElement(number) =>
    case ReadPacked(number) =>
      VarintsOk(ReadBody(s).value);
    case ReadMessage(number, sub) =>
      ParseFieldsOk(sub, ReadBody(s).value, depth - 1);
      assert FieldsOk(sub, f.fields, depth - 1);
  }

  /** Everything the parser reads is within the bounds of its type, at every level. */
  lemma {:induction false} ParseFieldsOk(schema: Schema, s: Bytes, depth: nat)
    requires WellFormed(schema) && Parse(schema, s, depth).Some?
    ensures FieldsOk(schema, Parse(schema, s, depth).value, depth)
    decreases |s|, 2
  {
    hide FieldOk, ReadKnown, ReadUnknown, WellFormed;
    if s != [] {
      var Got(tag, rest) := ReadVarint(s, TWO_TO_32);
      var Got(field, rest') := ReadField(schema, s, depth);
      if tag in schema.actions {
        ReadKnownOk(schema, tag, rest, depth);
      } else {
        ReadUnknownRepresentable(tag, rest, depth);
        UnknownOk(schema, field.unknown, depth);
      }
      ParseFieldsOk(schema, rest', depth);
    }
  }

  lemma UnknownOk(schema: Schema, u: UnknownField, depth: nat)
    requires Representable(u, depth) && TagOf(u) !in schema.actions
    ensures FieldOk(schema, Unknown(u), depth)
  {
    hide Representable;
  }

  // ---------------------------------------------------------------- observers

  lemma {:induction false} ScalarFrom(fields: seq<Field>, number: nat)
    ensures ScalarOf(fields, number).Some? ==> Scalar(number, ScalarOf(fields, number).value) in fields
  {
    if fields != [] {
      ScalarFrom(fields[1..], number);
    }
  }

  lemma {:induction false} ElementsFrom(fields: seq<Field>, number: nat)
    requires forall f | f in fields && f.Elements? :: forall v | v in f.values :: v < TWO_TO_32
    ensures forall v | v in ElementsOf(fields, number) :: v < TWO_TO_32
  {
    if fields != [] {
      assert fields[0] in fields;
      ElementsFrom(fields[1..], number);
    }
  }

  lemma {:induction false} UnknownsFrom(fields: seq<Field>)
    ensures forall u | u in UnknownsOf(fields) :: Unknown(u) in fields
  {
    if fields != [] {
      UnknownsFrom(fields[1..]);
    }
  }

  lemma ObservedOk(schema: Schema, fields: seq<Field>, depth: nat, number: nat)
    requires FieldsOk(schema, fields, depth)
    ensures ScalarOf(fields, number).Some? ==> FieldOk(schema, Scalar(number, ScalarOf(fields, number).value), depth)
    ensures forall v | v in ElementsOf(fields, number) :: v < TWO_TO_32
    ensures UnknownsOk(UnknownsOf(fields), schema, depth)
    ensures forall body | body in MessagesOf(fields, number) :: FieldOk(schema, Message(number, body), depth)
  {
    ScalarFrom(fields, number);
    ElementsFrom(fields, number);
    MessagesAreFields(fields, number);
    UnknownsFrom(fields);
    hide Representable, ScalarOf, ElementsOf, MessagesOf, UnknownsOf;
    forall u | u in UnknownsOf(fields) ensures Representable(u, depth) && TagOf(u) !in schema.actions {
      assert FieldOk(schema, Unknown(u), depth);
    }
  }

  lemma UserFrameParsedOk(fields: seq<Field>, depth: nat)
    requires FieldsOk(USER_FRAME_SCHEMA, fields, depth)
    ensures UserFrameOk(UserFrameOf(fields), depth)
  {
    hide FieldsOk, UnknownsOk, ScalarOf, ElementsOf;
    ObservedOk(USER_FRAME_SCHEMA, fields, depth, 1);
    ObservedOk(USER_FRAME_SCHEMA, fields, depth, 2);
  }

  lemma CSFrameParsedOk(fields: seq<Field>)
    requires FieldsOk(CS_FRAME_SCHEMA, fields, RECURSION_LIMIT)
    ensures CSFrameOk(CSFrameOf(fields))
  {
    hide FieldsOk, UnknownsOk, ScalarOf, ElementsOf;
    ObservedOk(CS_FRAME_SCHEMA, fields, RECURSION_LIMIT, 1);
    ObservedOk(CS_FRAME_SCHEMA, fields, RECURSION_LIMIT, 2);
    ObservedOk(CS_FRAME_SCHEMA, fields, RECURSION_LIMIT, 3);
  }

  lemma PlayerInfoParsedOk(fields: seq<Field>, depth: nat)
    requires FieldsOk(PLAYER_INFO_SCHEMA, fields, depth)
    ensures PlayerInfoOk(PlayerInfoOf(fields), depth)
  {
    hide FieldsOk, UnknownsOk, ScalarOf, ElementsOf, PowerOf256;
    ObservedOk(PLAYER_INFO_SCHEMA, fields, depth, 1);
    ObservedOk(PLAYER_INFO_SCHEMA, fields, depth, 2);
    ObservedOk(PLAYER_INFO_SCHEMA, fields, depth, 3);
    ObservedOk(PLAYER_INFO_SCHEMA, fields, depth, 4);
  }

  // ---------------------------------------------------------------- parse, write, parse

  lemma UserFrameReparse(s: Bytes)
    requires ParseUserFrame(s).Some?
    ensures ParseUserFrame(WriteUserFrame(ParseUserFrame(s).value)) == ParseUserFrame(s)
  {
    hide Parse, FieldsOk, UserFrameOk, UserFrameOf;
    ParseFieldsOk(USER_FRAME_SCHEMA, s, RECURSION_LIMIT);
    UserFrameParsedOk(Parse(USER_FRAME_SCHEMA, s, RECURSION_LIMIT).value, RECURSION_LIMIT);
    UserFrameRoundTrip(ParseUserFrame(s).value);
  }

  lemma CSFrameReparse(s: Bytes)
    requires ParseCSFrame(s).Some?
    ensures CSFrameOk(ParseCSFrame(s).value)
    ensures ParseCSFrame(WriteCSFrame(ParseCSFrame(s).value)) == ParseCSFrame(s)
  {
    hide Parse, FieldsOk, CSFrameOk, CSFrameOf;
    ParseFieldsOk(CS_FRAME_SCHEMA, s, RECURSION_LIMIT);
    CSFrameParsedOk(Parse(CS_FRAME_SCHEMA, s, RECURSION_LIMIT).value);
    CSFrameRoundTrip(ParseCSFrame(s).value);
  }

  lemma SCFrameIdsOk(s: Bytes)
    requires ParseSCFrame(s).Some?
    ensures Below(ParseSCFrame(s).value.frameId, TWO_TO_64) && Below(ParseSCFrame(s).value.nextFrameId, TWO_TO_64)
  {
    hide Parse, FieldsOk, UnknownsOk, ScalarOf, MessagesOf, UnknownsOf, UserFramesOf;
    ParseFieldsOk(SC_FRAME_SCHEMA, s, RECURSION_LIMIT);
    ObservedOk(SC_FRAME_SCHEMA, Parse(SC_FRAME_SCHEMA, s, RECURSION_LIMIT).value, RECURSION_LIMIT, 1);
    ObservedOk(SC_FRAME_SCHEMA, Parse(SC_FRAME_SCHEMA, s, RECURSION_LIMIT).value, RECURSION_LIMIT, 2);
  }

  lemma SCFrameUsersOk(fields: seq<Field>)
    requires FieldsOk(SC_FRAME_SCHEMA, fields, RECURSION_LIMIT)
    ensures forall u | u in SCFrameOf(fields).users :: UserFrameOk(u, RECURSION_LIMIT - 1)
  {
    hide FieldsOk, UserFrameOk, MessagesOf, ScalarOf, UnknownsOf, UserFrameOf;
    ObservedOk(SC_FRAME_SCHEMA, fields, RECURSION_LIMIT, 3);
    var bodies := MessagesOf(fields, 3);
    forall i | 0 <= i < |bodies| ensures UserFrameOk(UserFrameOf(bodies[i]), RECURSION_LIMIT - 1) {
      assert FieldOk(SC_FRAME_SCHEMA, Message(3, bodies[i]), RECURSION_LIMIT);
      assert FieldsOk(USER_FRAME_SCHEMA, bodies[i], RECURSION_LIMIT - 1) by { NestedUserFrame(bodies[i]); }
      UserFrameParsedOk(bodies[i], RECURSION_LIMIT - 1);
    }
  }

  lemma NestedUserFrame(body: seq<Field>)
    requires FieldOk(SC_FRAME_SCHEMA, Message(3, body), RECURSION_LIMIT)
    ensures FieldsOk(USER_FRAME_SCHEMA, body, RECURSION_LIMIT - 1)
  {
  }

  lemma NestedPlayerInfo(body: seq<Field>)
    requires FieldOk(SC_SIGHT_SCHEMA, Message(1, body), RECURSION_LIMIT)
    ensures FieldsOk(PLAYER_INFO_SCHEMA, body, RECURSION_LIMIT - 1)
  {
  }

  /** The sizes of bytes a machine can hold. */
  const ADDRESSABLE: nat := 0x4000_0000_0000_0000

  /** Writing does not pack, so a nested message may take more room than what was read, and one
      of 2 GB or more gets a length prefix that is refused. The law holds exactly when none is
      that long; they are not when fewer than 1 GB were read. */
  lemma SCFrameReparse(s: Bytes)
    requires ParseSCFrame(s).Some? && |s| < ADDRESSABLE
    ensures ParseSCFrame(WriteSCFrame(ParseSCFrame(s).value)) == ParseSCFrame(s) <==>
      forall u | u in ParseSCFrame(s).value.users :: |WriteUserFrame(u)| < TWO_TO_31
    ensures 2 * |s| < TWO_TO_31 ==> ParseSCFrame(WriteSCFrame(ParseSCFrame(s).value)) == ParseSCFrame(s)
  {
    hide Parse, FieldsOk, UserFrameOk, UnknownsOk, ScalarOf, MessagesOf, UnknownsOf, UserFramesOf, WriteUserFrame,
      WriteSCFrame;
    ParseFieldsOk(SC_FRAME_SCHEMA, s, RECURSION_LIMIT);
    var fields := Parse(SC_FRAME_SCHEMA, s, RECURSION_LIMIT).value;
    SCFrameUsersOk(fields);
    ObservedOk(SC_FRAME_SCHEMA, fields, RECURSION_LIMIT, 1);
    ObservedOk(SC_FRAME_SCHEMA, fields, RECURSION_LIMIT, 2);
    UsersAtMostTwice(s);
    var m := ParseSCFrame(s).value;
    if forall u | u in m.users :: |WriteUserFrame(u)| < TWO_TO_31 {
      SCFrameRoundTrip(m);
    } else {
      LongFrameRefused(m);
    }
  }

  lemma SCSightPlayersOk(fields: seq<Field>)
    requires FieldsOk(SC_SIGHT_SCHEMA, fields, RECURSION_LIMIT)
    ensures forall p | p in SCSightOf(fields).players :: PlayerInfoOk(p, RECURSION_LIMIT - 1)
  {
    hide FieldsOk, PlayerInfoOk, MessagesOf, UnknownsOf, PlayerInfoOf;
    ObservedOk(SC_SIGHT_SCHEMA, fields, RECURSION_LIMIT, 1);
    var bodies := MessagesOf(fields, 1);
    forall i | 0 <= i < |bodies| ensures PlayerInfoOk(PlayerInfoOf(bodies[i]), RECURSION_LIMIT - 1) {
      assert FieldOk(SC_SIGHT_SCHEMA, Message(1, bodies[i]), RECURSION_LIMIT);
      NestedPlayerInfo(bodies[i]);
      PlayerInfoParsedOk(bodies[i], RECURSION_LIMIT - 1);
    }
  }

  lemma SCSightReparse(s: Bytes)
    requires ParseSCSight(s).Some? && |s| < ADDRESSABLE
    ensures ParseSCSight(WriteSCSight(ParseSCSight(s).value)) == ParseSCSight(s) <==>
      forall p | p in ParseSCSight(s).value.players :: |WritePlayerInfo(p)| < TWO_TO_31
    ensures 2 * |s| < TWO_TO_31 ==> ParseSCSight(WriteSCSight(ParseSCSight(s).value)) == ParseSCSight(s)
  {
    hide Parse, FieldsOk, PlayerInfoOk, UnknownsOk, MessagesOf, UnknownsOf, PlayerInfosOf, WritePlayerInfo,
      WritePlayerInfos, EncodeUnknowns;
    ParseFieldsOk(SC_SIGHT_SCHEMA, s, RECURSION_LIMIT);
    var fields := Parse(SC_SIGHT_SCHEMA, s, RECURSION_LIMIT).value;
    SCSightPlayersOk(fields);
    ObservedOk(SC_SIGHT_SCHEMA, fields, RECURSION_LIMIT, 1);
    PlayersAtMostTwice(s);
    var m := ParseSCSight(s).value;
    if forall p | p in m.players :: |WritePlayerInfo(p)| < TWO_TO_31 {
      SCSightRoundTrip(m);
    } else {
      LongPlayerRefused(m.players, EncodeUnknowns(m.unknown));
    }
  }
}
