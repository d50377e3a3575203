/** How much room what was parsed takes when it is written again: at most twice the bytes read,
    since written elements are not packed, and no more than them otherwise. */
module PlayerSizes {
  import opened Options
  import opened Wire
  import opened WireLaws
  import opened PlayerValues
  import opened PlayerRoundTrip
  import opened Numbers

  // ---------------------------------------------------------------- single items

  lemma {:induction false} DecodedBelow(s: Bytes, budget: nat)
    requires DecodeVarint(s, budget).Got?
    ensures |s| > |DecodeVarint(s, budget).rest|
    ensures DecodeVarint(s, budget).value < PowerOf128(|s| - |DecodeVarint(s, budget).rest|)
  {
    if s[0] >= 128 {
      DecodedBelow(s[1..], budget - 1);
    } else {
      assert PowerOf128(1) == 128 * PowerOf128(0);
    }
  }

  /** The shortest spelling of a number read is no longer than the one it was read from. */
  lemma ReadVarintShrinks(s: Bytes, modulus: nat)
    requires modulus > 0 && ReadVarint(s, modulus).Got?
    ensures |EncodeVarint(ReadVarint(s, modulus).value)| <= |s| - |ReadVarint(s, modulus).rest|
  {
    DecodedBelow(s, MAX_VARINT_BYTES);
    var Got(raw, rest) := DecodeVarint(s, MAX_VARINT_BYTES);
    ModuloBelow(raw, modulus);
    VarintLength(raw % modulus, |s| - |rest|);
  }

  lemma ModuloBelow(v: nat, modulus: nat)
    requires modulus > 0
    ensures v % modulus <= v
  {
    assert v == v / modulus * modulus + v % modulus;
    assert v / modulus >= 0 && v / modulus * modulus >= 0;
  }

  lemma {:induction false} ReadUnknownShrinks(tag: nat, s: Bytes, depth: nat)
    requires ReadUnknown(tag, s, depth).Got?
    ensures TagOf(ReadUnknown(tag, s, depth).value) == tag
    ensures |EncodePayload(ReadUnknown(tag, s, depth).value)| <= |s| - |ReadUnknown(tag, s, depth).rest|
    decreases |s|, 1
  {
    hide EncodeVarint, ReadVarint, DecodeFixed;
    if tag % 8 == 0 {
      ReadVarintShrinks(s, TWO_TO_64);
    } else if tag % 8 == 2 {
      ReadVarintShrinks(s, TWO_TO_32);
    } else if tag % 8 == 3 {
      ReadGroupShrinks(tag / 8, s, depth - 1);
    }
  }

  lemma {:induction false} ReadGroupShrinks(number: nat, s: Bytes, depth: nat)
    requires ReadGroup(number, s, depth).Got?
    ensures |EncodeUnknowns(ReadGroup(number, s, depth).value)| + |EncodeVarint(number * 8 + 4)| <=
      |s| - |ReadGroup(number, s, depth).rest|
    decreases |s|, 0
  {
    hide EncodeVarint, EncodePayload, ReadUnknown;
    ReadVarintShrinks(s, TWO_TO_32);
    var Got(tag, rest) := ReadVarint(s, TWO_TO_32);
    if tag % 8 != 4 {
      ReadUnknownShrinks(tag, rest, depth);
      var Got(field, rest') := ReadUnknown(tag, rest, depth);
      ReadGroupShrinks(number, rest', depth);
      var fields := ReadGroup(number, rest', depth).value;
      assert ([field] + fields)[0] == field && ([field] + fields)[1..] == fields;
    }
  }

  /** Elements written one by one take a tag more each than when they were packed. */
  lemma {:induction false} UnpackedAtMostTwice(s: Bytes, tag: Byte)
    requires ReadAllVarints(s).Some?
    ensures |WriteElements(tag, ReadAllVarints(s).value)| <= 2 * |s|
    decreases |s|
  {
    hide EncodeVarint;
    if s != [] {
      ReadVarintShrinks(s, TWO_TO_32);
      var Got(v, rest) := ReadVarint(s, TWO_TO_32);
      UnpackedAtMostTwice(rest, tag);
      var vs := ReadAllVarints(rest).value;
      assert ([v] + vs)[0] == v && ([v] + vs)[1..] == vs;
    }
  }

  // ---------------------------------------------------------------- fields of a nested message

  /** The room a field takes written on its own; a message type's first field is its only varint. */
  function Room(f: Field): nat {
    match f
    case Scalar(number, v) => if number == 1 then 1 + |EncodeVarint(v)| else 9
    case Elements(_, values) => |WriteElements(16, values)|
    case Message(_, _) => 0
    case Unknown(u) => |EncodeUnknown(u)|
  }

  function RoomOf(fields: seq<Field>): nat {
    if fields == [] then 0 else Room(fields[0]) + RoomOf(fields[1..])
  }

  /** A message type whose fields are varints under number 1, doubles, elements or unknown. */
  predicate Flat(schema: Schema) {
    forall tag | tag in schema.actions ::
      && !schema.actions[tag].ReadMessage?
      && (schema.actions[tag].ReadScalar? ==> schema.actions[tag].number == 1)
      && (schema.actions[tag].ReadDouble? ==> schema.actions[tag].number != 1)
  }

  lemma KnownAtMostTwice(action: Action, s: Bytes, depth: nat)
    requires (action.ReadScalar? ==> action.modulus > 0 && action.number == 1) && !action.ReadMessage?
    requires (action.ReadDouble? ==> action.number != 1) && ReadKnown(action, s, depth).Got?
    ensures Room(ReadKnown(action, s, depth).value) <= 2 * (|s| - |ReadKnown(action, s, depth).rest|) + 1
  {
    hide EncodeVarint, ReadVarint, ReadAllVarints, DecodeFixed;
    match action
    case ReadScalar(_, modulus) => ReadVarintShrinks(s, modulus);
    case ReadDouble(_) =>
    case ReadElement(_) =>
      ReadVarintShrinks(s, TWO_TO_32);
      OneElement(ReadVarint(s, TWO_TO_32).value);
    case ReadPacked(_) =>
      BodyShorter(s);
      UnpackedAtMostTwice(ReadBody(s).value, 16);
  }

  lemma OneElement(v: nat)
    ensures |WriteElements(16, [v])| == 1 + |EncodeVarint(v)|
  {
    assert [v][1..] == [];
  }

  lemma BodyShorter(s: Bytes)
    requires ReadBody(s).Got?
    ensures |ReadBody(s).value| <= |s| - |ReadBody(s).rest|
  {
  }

  lemma FieldAtMostTwice(schema: Schema, s: Bytes, depth: nat)
    requires WellFormed(schema) && Flat(schema) && ReadField(schema, s, depth).Got?
    ensures Room(ReadField(schema, s, depth).value) <= 2 * (|s| - |ReadField(schema, s, depth).rest|)
  {
    hide EncodeVarint, ReadKnown, ReadUnknown, Room, EncodePayload;
    ReadVarintShrinks(s, TWO_TO_32);
    var Got(tag, rest) := ReadVarint(s, TWO_TO_32);
    if tag in schema.actions {
      KnownAtMostTwice(schema.actions[tag], rest, depth);
    } else {
      ReadUnknownShrinks(tag, rest, depth);
      UnknownRoom(ReadUnknown(tag, rest, depth).value);
    }
  }

  lemma UnknownRoom(u: UnknownField)
    ensures Room(Unknown(u)) == |EncodeVarint(TagOf(u))| + |EncodePayload(u)|
  {
    hide EncodeVarint, EncodePayload;
  }

  lemma {:induction false} ParsedAtMostTwice(schema: Schema, s: Bytes, depth: nat)
    requires WellFormed(schema) && Flat(schema) && Parse(schema, s, depth).Some?
    ensures RoomOf(Parse(schema, s, depth).value) <= 2 * |s|
    decreases |s|
  {
    hide Flat, ReadField, Room, WellFormed;
    if s != [] {
      FieldAtMostTwice(schema, s, depth);
      var Got(field, rest) := ReadField(schema, s, depth);
      ParsedAtMostTwice(schema, rest, depth);
      var fields := Parse(schema, rest, depth).value;
      assert ([field] + fields)[0] == field && ([field] + fields)[1..] == fields;
    }
  }

  // ---------------------------------------------------------------- whole nested messages

  lemma {:induction false} ElementsConcat(tag: Byte, a: seq<nat>, b: seq<nat>)
    ensures WriteElements(tag, a + b) == WriteElements(tag, a) + WriteElements(tag, b)
  {
    hide EncodeVarint;
    if a == [] {
      assert a + b == b;
    } else {
      assert (a + b)[0] == a[0] && (a + b)[1..] == a[1..] + b;
      ElementsConcat(tag, a[1..], b);
    }
  }

  function OptionalRoom(v: Option<nat>): nat {
    if v.Some? then 1 + |EncodeVarint(v.value)| else 0
  }

  function DoubleRoom(v: Option<nat>): nat {
    if v.Some? then 9 else 0
  }

  /** Repeated scalars count once when written, so all parts together take no more room than the
      fields one by one. */
  lemma {:induction false} PartsFit(fields: seq<Field>)
    ensures OptionalRoom(ScalarOf(fields, 1)) + |WriteElements(16, ElementsOf(fields, 2))|
      + DoubleRoom(ScalarOf(fields, 2)) + DoubleRoom(ScalarOf(fields, 3)) + DoubleRoom(ScalarOf(fields, 4))
      + |EncodeUnknowns(UnknownsOf(fields))| <= RoomOf(fields)
  {
    hide EncodeVarint, EncodeUnknown;
    if fields != [] {
      var first, rest := fields[0], fields[1..];
      PartsFit(rest);
      if first.Elements? && first.number == 2 {
        ElementsConcat(16, first.values, ElementsOf(rest, 2));
      }
      assert [] + ElementsOf(rest, 2) == ElementsOf(rest, 2) && [] + UnknownsOf(rest) == UnknownsOf(rest);
      if first.Unknown? {
        var us := [first.unknown] + UnknownsOf(rest);
        assert us[0] == first.unknown && us[1..] == UnknownsOf(rest);
      }
    }
  }

  lemma UserFrameFits(fields: seq<Field>)
    ensures |WriteUserFrame(UserFrameOf(fields))| <= RoomOf(fields)
  {
    hide EncodeVarint, EncodeUnknowns, RoomOf, ScalarOf, ElementsOf, UnknownsOf, WriteElements;
    PartsFit(fields);
  }

  lemma PlayerInfoFits(fields: seq<Field>)
    ensures |WritePlayerInfo(PlayerInfoOf(fields))| <= RoomOf(fields)
  {
    hide EncodeVarint, EncodeUnknowns, RoomOf, ScalarOf, ElementsOf, UnknownsOf, WriteElements;
    PartsFit(fields);
  }

  // ---------------------------------------------------------------- messages that nest them

  /** Every nested message type is flat. */
  predicate NestsFlat(schema: Schema) {
    forall tag | tag in schema.actions && schema.actions[tag].ReadMessage? ::
      WellFormed(schema.actions[tag].schema) && Flat(schema.actions[tag].schema)
  }

  lemma NestedFieldRoom(schema: Schema, s: Bytes, depth: nat)
    requires WellFormed(schema) && NestsFlat(schema) && ReadField(schema, s, depth).Got?
    requires ReadField(schema, s, depth).value.Message?
    ensures RoomOf(ReadField(schema, s, depth).value.fields) <= 2 * |s|
  {
    hide Parse, Flat, RoomOf, ReadUnknown;
    var Got(tag, rest) := ReadVarint(s, TWO_TO_32);
    BodyShorter(rest);
    ParsedAtMostTwice(schema.actions[tag].schema, ReadBody(rest).value, depth - 1);
  }

  /** A nested message takes at most twice the room of all the bytes it was read from. */
  lemma {:induction false} NestedRoom(schema: Schema, s: Bytes, depth: nat, number: nat, body: seq<Field>)
    requires WellFormed(schema) && NestsFlat(schema) && Parse(schema, s, depth).Some?
    requires Message(number, body) in Parse(schema, s, depth).value
    ensures RoomOf(body) <= 2 * |s|
    decreases |s|
  {
    hide NestsFlat, ReadField, RoomOf, WellFormed;
    var Got(field, rest) := ReadField(schema, s, depth);
    if field == Message(number, body) {
      NestedFieldRoom(schema, s, depth);
    } else {
      NestedRoom(schema, rest, depth, number, body);
    }
  }

  lemma FrameNestsFlat()
    ensures NestsFlat(SC_FRAME_SCHEMA)
  {
    assert Flat(USER_FRAME_SCHEMA) && WellFormed(USER_FRAME_SCHEMA);
    hide Flat, WellFormed;
  }

  lemma SightNestsFlat()
    ensures NestsFlat(SC_SIGHT_SCHEMA)
  {
    assert Flat(PLAYER_INFO_SCHEMA) && WellFormed(PLAYER_INFO_SCHEMA);
    hide Flat, WellFormed;
  }

  /** Each user of a parsed frame, written again, takes at most twice the bytes of the whole. */
  lemma UsersAtMostTwice(s: Bytes)
    requires ParseSCFrame(s).Some?
    ensures forall u | u in ParseSCFrame(s).value.users :: |WriteUserFrame(u)| <= 2 * |s|
  {
    hide Parse, MessagesOf, UserFrameOf, WriteUserFrame, NestsFlat, RoomOf;
    FrameNestsFlat();
    var fields := Parse(SC_FRAME_SCHEMA, s, RECURSION_LIMIT).value;
    var bodies := MessagesOf(fields, 3);
    MessagesAreFields(fields, 3);
    forall i | 0 <= i < |bodies| ensures |WriteUserFrame(UserFrameOf(bodies[i]))| <= 2 * |s| {
      NestedRoom(SC_FRAME_SCHEMA, s, RECURSION_LIMIT, 3, bodies[i]);
      UserFrameFits(bodies[i]);
    }
  }

  lemma PlayersAtMostTwice(s: Bytes)
    requires ParseSCSight(s).Some?
    ensures forall p | p in ParseSCSight(s).value.players :: |WritePlayerInfo(p)| <= 2 * |s|
  {
    hide Parse, MessagesOf, PlayerInfoOf, WritePlayerInfo, NestsFlat, RoomOf;
    SightNestsFlat();
    var fields := Parse(SC_SIGHT_SCHEMA, s, RECURSION_LIMIT).value;
    var bodies := MessagesOf(fields, 1);
    MessagesAreFields(fields, 1);
    forall i | 0 <= i < |bodies| ensures |WritePlayerInfo(PlayerInfoOf(bodies[i]))| <= 2 * |s| {
      NestedRoom(SC_SIGHT_SCHEMA, s, RECURSION_LIMIT, 1, bodies[i]);
      PlayerInfoFits(bodies[i]);
    }
  }

  lemma {:induction false} MessagesAreFields(fields: seq<Field>, number: nat)
    ensures forall body | body in MessagesOf(fields, number) :: Message(number, body) in fields
  {
    if fields != [] {
      MessagesAreFields(fields[1..], number);
    }
  }

  // ---------------------------------------------------------------- prefixes that cannot be written

  /** A nested body of 2 GB or more gets a length prefix the parser refuses. */
  lemma TooLongRefused(schema: Schema, tag: Byte, body: Bytes, rest: Bytes, depth: nat)
    requires WellFormed(schema) && tag in schema.actions && schema.actions[tag].ReadMessage?
    requires TWO_TO_31 <= |body| < TWO_TO_64
    ensures Parse(schema, WriteBody(tag, body) + rest, depth) == None
  {
    hide ReadVarint, EncodeVarint, Parse;
    var s, payload := WriteBody(tag, body) + rest, EncodeVarint(|body|) + (body + rest);
    assert s == [tag] + payload;
    KnownTagRead(schema, tag, s, payload, depth);
    ReadEncodedVarint(|body|, body + rest, TWO_TO_64);
    assert ReadSize(payload).Fail?;
    assert ReadField(schema, s, depth).Fail?;
    NoFieldNoParse(schema, s, depth);
  }

  lemma NoFieldNoParse(schema: Schema, s: Bytes, depth: nat)
    requires WellFormed(schema) && s != [] && ReadField(schema, s, depth).Fail?
    ensures Parse(schema, s, depth) == None
  {
  }

  /** So a frame whose users are fine but for one that is too long does not parse. */
  lemma {:induction false} LongUserRefused(users: seq<UserFrame>, rest: Bytes)
    requires forall u | u in users :: UserFrameOk(u, RECURSION_LIMIT - 1) && |WriteUserFrame(u)| < TWO_TO_64
    requires exists u | u in users :: |WriteUserFrame(u)| >= TWO_TO_31
    ensures Parse(SC_FRAME_SCHEMA, WriteUserFrames(users) + rest, RECURSION_LIMIT) == None
  {
    hide Parse, WriteUserFrame, UserFrameOk, WriteBody, Yields;
    var first, after := WriteBody(26, WriteUserFrame(users[0])), WriteUserFrames(users[1..]);
    assert first + after + rest == first + (after + rest);
    if |WriteUserFrame(users[0])| >= TWO_TO_31 {
      TooLongRefused(SC_FRAME_SCHEMA, 26, WriteUserFrame(users[0]), after + rest, RECURSION_LIMIT);
    } else {
      assert users[0] in users && forall u | u in users[1..] :: u in users;
      LongUserRefused(users[1..], rest);
      YieldsOne(users[0]);
      YieldsAt(SC_FRAME_SCHEMA, first, [Message(3, UserFrameFields(users[0]))], after + rest, RECURSION_LIMIT);
    }
  }

  lemma YieldsOne(u: UserFrame)
    requires UserFrameOk(u, RECURSION_LIMIT - 1) && |WriteUserFrame(u)| < TWO_TO_31
    ensures Yields(SC_FRAME_SCHEMA, WriteBody(26, WriteUserFrame(u)), [Message(3, UserFrameFields(u))], RECURSION_LIMIT)
  {
    hide Parse, Yields, WriteUserFrame, UserFrameOk;
    UserFrameYields(u, RECURSION_LIMIT - 1);
    YieldsBody(SC_FRAME_SCHEMA, 26, 3, USER_FRAME_SCHEMA, WriteUserFrame(u), UserFrameFields(u), RECURSION_LIMIT);
  }

  lemma {:induction false} LongPlayerRefused(players: seq<PlayerInfo>, rest: Bytes)
    requires forall p | p in players :: PlayerInfoOk(p, RECURSION_LIMIT - 1) && |WritePlayerInfo(p)| < TWO_TO_64
    requires exists p | p in players :: |WritePlayerInfo(p)| >= TWO_TO_31
    ensures Parse(SC_SIGHT_SCHEMA, WritePlayerInfos(players) + rest, RECURSION_LIMIT) == None
  {
    hide Parse, WritePlayerInfo, PlayerInfoOk, WriteBody, Yields;
    var first, after := WriteBody(10, WritePlayerInfo(players[0])), WritePlayerInfos(players[1..]);
    assert first + after + rest == first + (after + rest);
    if |WritePlayerInfo(players[0])| >= TWO_TO_31 {
      TooLongRefused(SC_SIGHT_SCHEMA, 10, WritePlayerInfo(players[0]), after + rest, RECURSION_LIMIT);
    } else {
      assert players[0] in players && forall p | p in players[1..] :: p in players;
      LongPlayerRefused(players[1..], rest);
      YieldsOnePlayer(players[0]);
      YieldsAt(SC_SIGHT_SCHEMA, first, [Message(1, PlayerInfoFields(players[0]))], after + rest, RECURSION_LIMIT);
    }
  }

  lemma YieldsOnePlayer(p: PlayerInfo)
    requires PlayerInfoOk(p, RECURSION_LIMIT - 1) && |WritePlayerInfo(p)| < TWO_TO_31
    ensures Yields(SC_SIGHT_SCHEMA, WriteBody(10, WritePlayerInfo(p)), [Message(1, PlayerInfoFields(p))],
      RECURSION_LIMIT)
  {
    hide Parse, Yields, WritePlayerInfo, PlayerInfoOk;
    PlayerInfoYields(p, RECURSION_LIMIT - 1);
    YieldsBody(SC_SIGHT_SCHEMA, 10, 1, PLAYER_INFO_SCHEMA, WritePlayerInfo(p), PlayerInfoFields(p), RECURSION_LIMIT);
  }

  /** The ids before the users parse, so the frame is refused with them. */
  lemma LongFrameRefused(m: SCFrame)
    requires Below(m.frameId, TWO_TO_64) && Below(m.nextFrameId, TWO_TO_64)
    requires forall u | u in m.users :: UserFrameOk(u, RECURSION_LIMIT - 1) && |WriteUserFrame(u)| < TWO_TO_64
    requires exists u | u in m.users :: |WriteUserFrame(u)| >= TWO_TO_31
    ensures ParseSCFrame(WriteSCFrame(m)) == None
  {
    hide Parse, WriteUserFrame, UserFrameOk, WriteUserFrames, Yields, WriteOptional, EncodeUnknowns;
    var a, b := WriteOptional(8, m.frameId), WriteOptional(16, m.nextFrameId);
    var c, d := WriteUserFrames(m.users), EncodeUnknowns(m.unknown);
    YieldsOptional(SC_FRAME_SCHEMA, 8, 1, TWO_TO_64, m.frameId, RECURSION_LIMIT);
    YieldsOptional(SC_FRAME_SCHEMA, 16, 2, TWO_TO_64, m.nextFrameId, RECURSION_LIMIT);
    var ids := OptionalField(1, m.frameId) + OptionalField(2, m.nextFrameId);
    YieldsConcat(SC_FRAME_SCHEMA, a, OptionalField(1, m.frameId), b, OptionalField(2, m.nextFrameId), RECURSION_LIMIT);
    LongUserRefused(m.users, d);
    assert a + b + c + d == (a + b) + (c + d);
    YieldsAt(SC_FRAME_SCHEMA, a + b, ids, c + d, RECURSION_LIMIT);
  }
}
