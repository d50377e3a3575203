/** The lock-step messages byte by byte: under which tag each field travels, how it is written,
    and how the last of several values wins. */
module PlayerFields {
  import opened Options
  import opened Wire
  import opened WireLaws
  import opened PlayerValues
  import opened PlayerRoundTrip
  import opened PlayerConcat
  import opened Numbers

  /** A nested user entry, with `depth` levels of nesting to spare. */
  function UserFrameIn(s: Bytes, depth: nat): (u: Option<UserFrame>)
    ensures depth == RECURSION_LIMIT ==> u == ParseUserFrame(s)
  {
    match Parse(USER_FRAME_SCHEMA, s, depth) case None => None case Some(fields) => Some(UserFrameOf(fields))
  }

  function PlayerInfoIn(s: Bytes, depth: nat): Option<PlayerInfo> {
    match Parse(PLAYER_INFO_SCHEMA, s, depth) case None => None case Some(fields) => Some(PlayerInfoOf(fields))
  }

  /** Keys as a packed field holds them. */
  function Varints(keys: seq<nat>): Bytes {
    if keys == [] then [] else EncodeVarint(keys[0]) + Varints(keys[1..])
  }

  /** Eight bytes as a number, the lowest first. */
  function Number(b: Bytes): nat
    requires |b| == 8
  {
    var at := (i: int) requires 0 <= i < 8 => b[i] as int;
    at(0) + 0x100 * at(1) + 0x1_0000 * at(2) + 0x100_0000 * at(3) + 0x1_0000_0000 * at(4) + 0x100_0000_0000 * at(5)
    + 0x1_0000_0000_0000 * at(6) + 0x100_0000_0000_0000 * at(7)
  }

  // ---------------------------------------------------------------- one field on its own

  lemma OneScalar(schema: Schema, tag: Byte, number: nat, modulus: nat, v: nat, depth: nat)
    requires WellFormed(schema) && tag in schema.actions && schema.actions[tag] == ReadScalar(number, modulus)
    requires v < modulus <= TWO_TO_64
    ensures Parse(schema, [tag] + EncodeVarint(v), depth) == Some([Scalar(number, v)])
  {
    hide Parse, EncodeVarint;
    YieldsOptional(schema, tag, number, modulus, Some(v), depth);
    YieldsWhole(schema, WriteOptional(tag, Some(v)), [Scalar(number, v)], depth);
  }

  lemma LoneElement(schema: Schema, tag: Byte, number: nat, v: nat, depth: nat)
    requires WellFormed(schema) && tag in schema.actions && schema.actions[tag] == ReadElement(number)
    requires v < TWO_TO_32
    ensures Parse(schema, [tag] + EncodeVarint(v), depth) == Some([Elements(number, [v])])
  {
    hide Parse, EncodeVarint;
    YieldsElements(schema, tag, number, [v], depth);
    assert [v][1..] == [];
    assert WriteElements(tag, [v]) == [tag] + EncodeVarint(v) + WriteElements(tag, []);
    assert ElementFields(number, [v]) == [Elements(number, [v])];
    assert [tag] + EncodeVarint(v) + [] == [tag] + EncodeVarint(v);
    YieldsWhole(schema, [tag] + EncodeVarint(v), [Elements(number, [v])], depth);
  }

  lemma {:induction false} ReadVarints(keys: seq<nat>)
    requires forall k | k in keys :: k < TWO_TO_32
    ensures ReadAllVarints(Varints(keys)) == Some(keys)
  {
    if keys != [] {
      assert keys[0] in keys && forall k | k in keys[1..] :: k in keys;
      ReadVarints(keys[1..]);
      ReadEncodedVarint(keys[0], Varints(keys[1..]), TWO_TO_32);
      hide ReadVarint, EncodeVarint;
      assert [keys[0]] + keys[1..] == keys;
    }
  }

  lemma OnePacked(schema: Schema, tag: Byte, number: nat, keys: seq<nat>, depth: nat)
    requires WellFormed(schema) && tag in schema.actions && schema.actions[tag] == ReadPacked(number)
    requires |Varints(keys)| < TWO_TO_31 && forall k | k in keys :: k < TWO_TO_32
    ensures Parse(schema, [tag] + (EncodeVarint(|Varints(keys)|) + Varints(keys)), depth) ==
      Some([Elements(number, keys)])
  {
    hide Parse, EncodeVarint, ReadAllVarints, Varints, ReadVarint;
    var body := Varints(keys);
    ReadVarints(keys);
    forall rest: Bytes
      ensures ReadKnown(schema.actions[tag], EncodeVarint(|body|) + body + rest, depth) ==
        Got(Elements(number, keys), rest)
    {
      assert EncodeVarint(|body|) + body + rest == EncodeVarint(|body|) + (body + rest);
      ReadEncodedVarint(|body|, body + rest, TWO_TO_64);
      assert (body + rest)[..|body|] == body && (body + rest)[|body|..] == rest;
    }
    YieldsKnown(schema, tag, EncodeVarint(|body|) + body, Elements(number, keys), depth);
    YieldsWhole(schema, [tag] + (EncodeVarint(|body|) + body), [Elements(number, keys)], depth);
  }

  lemma OneBody(schema: Schema, tag: Byte, number: nat, sub: Schema, body: Bytes, fields: seq<Field>, depth: nat)
    requires WellFormed(schema) && tag in schema.actions && schema.actions[tag] == ReadMessage(number, sub)
    requires depth > 0 && |body| < TWO_TO_31 && Parse(sub, body, depth - 1) == Some(fields)
    ensures Parse(schema, [tag] + EncodeVarint(|body|) + body, depth) == Some([Message(number, fields)])
  {
    hide Parse, EncodeVarint;
    YieldsBody(schema, tag, number, sub, body, fields, depth);
    YieldsWhole(schema, WriteBody(tag, body), [Message(number, fields)], depth);
  }

  lemma OneDouble(schema: Schema, tag: Byte, number: nat, b: Bytes, depth: nat)
    requires WellFormed(schema) && tag in schema.actions && schema.actions[tag] == ReadDouble(number)
    requires |b| == 8
    ensures Parse(schema, [tag] + b, depth) == Some([Scalar(number, Number(b))])
  {
    hide Parse, Number;
    forall rest: Bytes
      ensures ReadKnown(schema.actions[tag], b + rest, depth) == Got(Scalar(number, Number(b)), rest)
    {
      assert (b + rest)[..8] == b && (b + rest)[8..] == rest;
      EightBytes(b);
    }
    YieldsKnown(schema, tag, b, Scalar(number, Number(b)), depth);
    YieldsWhole(schema, [tag] + b, [Scalar(number, Number(b))], depth);
  }

  lemma FixedStep(b: Bytes)
    requires b != []
    ensures DecodeFixed(b) == b[0] + 256 * DecodeFixed(b[1..])
  {
  }

  lemma EightBytes(b: Bytes)
    requires |b| == 8
    ensures DecodeFixed(b) == Number(b)
  {
    FixedStep(b);
    FixedStep(b[1..]);
    FixedStep(b[2..]);
    FixedStep(b[3..]);
    FixedStep(b[4..]);
    FixedStep(b[5..]);
    FixedStep(b[6..]);
    FixedStep(b[7..]);
    assert b[1..][1..] == b[2..] && b[2..][1..] == b[3..] && b[3..][1..] == b[4..] && b[4..][1..] == b[5..];
    assert b[5..][1..] == b[6..] && b[6..][1..] == b[7..] && b[7..][1..] == [];
  }

  // ---------------------------------------------------------------- the fields of each message

  /** In a frame, tag 8 carries its id, 16 the id of the next frame and 26 one user's keys. */
  lemma SCFrameTags(id: nat)
    requires id < TWO_TO_64
    ensures ParseSCFrame([8] + EncodeVarint(id)) == Some(SCFrame(Some(id), None, [], []))
    ensures ParseSCFrame([16] + EncodeVarint(id)) == Some(SCFrame(None, Some(id), [], []))
  {
    hide Parse, EncodeVarint;
    OneScalar(SC_FRAME_SCHEMA, 8, 1, TWO_TO_64, id, RECURSION_LIMIT);
    OneScalar(SC_FRAME_SCHEMA, 16, 2, TWO_TO_64, id, RECURSION_LIMIT);
    NestedAlone([]);
    ScalarAlone(1, id);
    ScalarAlone(2, id);
  }

  lemma NestedAlone(fields: seq<Field>)
    ensures UserFramesOf([]) == [] && UserFramesOf([fields]) == [UserFrameOf(fields)]
    ensures PlayerInfosOf([]) == [] && PlayerInfosOf([fields]) == [PlayerInfoOf(fields)]
  {
  }

  lemma ScalarAlone(number: nat, v: nat)
    ensures forall n :: ScalarOf([Scalar(number, v)], n) == if n == number then Some(v) else None
    ensures forall n :: ElementsOf([Scalar(number, v)], n) == [] && MessagesOf([Scalar(number, v)], n) == []
    ensures UnknownsOf([Scalar(number, v)]) == []
  {
    forall n: nat
      ensures ScalarOf([Scalar(number, v)], n) == if n == number then Some(v) else None
      ensures ElementsOf([Scalar(number, v)], n) == [] && MessagesOf([Scalar(number, v)], n) == []
    {
      ObserveOne(Scalar(number, v), n);
    }
    ObserveOne(Scalar(number, v), 0);
  }

  lemma ElementsAlone(number: nat, keys: seq<nat>)
    ensures forall n :: ElementsOf([Elements(number, keys)], n) == if n == number then keys else []
    ensures forall n :: ScalarOf([Elements(number, keys)], n) == None && MessagesOf([Elements(number, keys)], n) == []
    ensures UnknownsOf([Elements(number, keys)]) == []
  {
    forall n: nat
      ensures ElementsOf([Elements(number, keys)], n) == if n == number then keys else []
      ensures ScalarOf([Elements(number, keys)], n) == None && MessagesOf([Elements(number, keys)], n) == []
    {
      ObserveOne(Elements(number, keys), n);
    }
    ObserveOne(Elements(number, keys), 0);
  }

  lemma MessageAlone(number: nat, fields: seq<Field>)
    ensures forall n :: MessagesOf([Message(number, fields)], n) == if n == number then [fields] else []
    ensures forall n :: ScalarOf([Message(number, fields)], n) == None && ElementsOf([Message(number, fields)], n) == []
    ensures UnknownsOf([Message(number, fields)]) == []
  {
    forall n: nat
      ensures MessagesOf([Message(number, fields)], n) == if n == number then [fields] else []
      ensures ScalarOf([Message(number, fields)], n) == None && ElementsOf([Message(number, fields)], n) == []
    {
      ObserveOne(Message(number, fields), n);
    }
    ObserveOne(Message(number, fields), 0);
  }

  lemma OneUserMeans(fields: seq<Field>)
    ensures SCFrameOf([Message(3, fields)]) == SCFrame(None, None, [UserFrameOf(fields)], [])
    ensures SCSightOf([Message(1, fields)]) == SCSight([PlayerInfoOf(fields)], [])
  {
    MessageAlone(3, fields);
    MessageAlone(1, fields);
    NestedAlone(fields);
    hide UserFramesOf, UserFrameOf, PlayerInfosOf, PlayerInfoOf, ScalarOf, MessagesOf, UnknownsOf;
  }

  /** Tag 26, a length and that many bytes of a user's keys add the user; bytes that are none are refused. */
  lemma SCFrameUserTag(body: Bytes)
    requires |body| < TWO_TO_31
    ensures ParseSCFrame([26] + EncodeVarint(|body|) + body) ==
      match UserFrameIn(body, 99)
      case None => None
      case Some(user) => Some(SCFrame(None, None, [user], []))
  {
    hide Parse, EncodeVarint, SCFrameOf, UserFrameOf;
    if UserFrameIn(body, 99).Some? {
      SCFrameNested(body);
    } else {
      BadBody(SC_FRAME_SCHEMA, 26, 3, USER_FRAME_SCHEMA, body, RECURSION_LIMIT);
    }
  }

  lemma SCFrameNested(body: Bytes)
    requires |body| < TWO_TO_31 && UserFrameIn(body, 99).Some?
    ensures ParseSCFrame([26] + EncodeVarint(|body|) + body) ==
      Some(SCFrame(None, None, [UserFrameIn(body, 99).value], []))
  {
    hide Parse, EncodeVarint, SCFrameOf, UserFrameOf;
    var fields := Parse(USER_FRAME_SCHEMA, body, 99).value;
    OneBody(SC_FRAME_SCHEMA, 26, 3, USER_FRAME_SCHEMA, body, fields, RECURSION_LIMIT);
    OneUserMeans(fields);
  }

  lemma BadBody(schema: Schema, tag: Byte, number: nat, sub: Schema, body: Bytes, depth: nat)
    requires WellFormed(schema) && tag in schema.actions && schema.actions[tag] == ReadMessage(number, sub)
    requires depth > 0 && |body| < TWO_TO_31 && Parse(sub, body, depth - 1) == None
    ensures Parse(schema, [tag] + EncodeVarint(|body|) + body, depth) == None
  {
    var s := [tag] + EncodeVarint(|body|) + body;
    assert s == [tag] + (EncodeVarint(|body|) + body);
    KnownTagRead(schema, tag, s, EncodeVarint(|body|) + body, depth);
    ReadEncodedVarint(|body|, body, TWO_TO_64);
    hide EncodeVarint, ReadVarint;
    assert body[..|body|] == body;
  }

  /** In a user's keys, tag 8 carries the user's id, 16 one key and 18 several. */
  lemma UserFrameTags(v: nat, depth: nat)
    requires v < TWO_TO_32
    ensures UserFrameIn([8] + EncodeVarint(v), depth) == Some(UserFrame(Some(v), [], []))
    ensures UserFrameIn([16] + EncodeVarint(v), depth) == Some(UserFrame(None, [v], []))
  {
    hide Parse, EncodeVarint;
    OneScalar(USER_FRAME_SCHEMA, 8, 1, TWO_TO_32, v, depth);
    LoneElement(USER_FRAME_SCHEMA, 16, 2, v, depth);
    ScalarAlone(1, v);
    ElementsAlone(2, [v]);
  }

  lemma UserFramePacked(keys: seq<nat>, depth: nat)
    requires |Varints(keys)| < TWO_TO_31 && forall k | k in keys :: k < TWO_TO_32
    ensures UserFrameIn([18] + (EncodeVarint(|Varints(keys)|) + Varints(keys)), depth) ==
      Some(UserFrame(None, keys, []))
  {
    hide Parse, EncodeVarint, Varints;
    OnePacked(USER_FRAME_SCHEMA, 18, 2, keys, depth);
    ElementsAlone(2, keys);
  }

  /** In a client's keys, tag 8 carries the user's id, 16 the frame's, 24 one key and 26 several. */
  lemma CSFrameTags(v: nat, id: nat)
    requires v < TWO_TO_32 && id < TWO_TO_64
    ensures ParseCSFrame([8] + EncodeVarint(v)) == Some(CSFrame(Some(v), None, [], []))
    ensures ParseCSFrame([16] + EncodeVarint(id)) == Some(CSFrame(None, Some(id), [], []))
    ensures ParseCSFrame([24] + EncodeVarint(v)) == Some(CSFrame(None, None, [v], []))
  {
    hide Parse, EncodeVarint;
    OneScalar(CS_FRAME_SCHEMA, 8, 1, TWO_TO_32, v, RECURSION_LIMIT);
    OneScalar(CS_FRAME_SCHEMA, 16, 2, TWO_TO_64, id, RECURSION_LIMIT);
    LoneElement(CS_FRAME_SCHEMA, 24, 3, v, RECURSION_LIMIT);
    ScalarAlone(1, v);
    ScalarAlone(2, id);
    ElementsAlone(3, [v]);
  }

  lemma CSFramePacked(keys: seq<nat>)
    requires |Varints(keys)| < TWO_TO_31 && forall k | k in keys :: k < TWO_TO_32
    ensures ParseCSFrame([26] + (EncodeVarint(|Varints(keys)|) + Varints(keys))) ==
      Some(CSFrame(None, None, keys, []))
  {
    hide Parse, EncodeVarint, Varints;
    OnePacked(CS_FRAME_SCHEMA, 26, 3, keys, RECURSION_LIMIT);
    ElementsAlone(3, keys);
  }

  /** In a player, tag 8 carries the user's id, and 17, 25 and 33 the three positions as eight bytes each. */
  lemma PlayerInfoTags(v: nat, b: Bytes, depth: nat)
    requires v < TWO_TO_32 && |b| == 8
    ensures PlayerInfoIn([8] + EncodeVarint(v), depth) == Some(PlayerInfo(Some(v), None, None, None, []))
    ensures PlayerInfoIn([17] + b, depth) == Some(PlayerInfo(None, Some(Number(b)), None, None, []))
    ensures PlayerInfoIn([25] + b, depth) == Some(PlayerInfo(None, None, Some(Number(b)), None, []))
    ensures PlayerInfoIn([33] + b, depth) == Some(PlayerInfo(None, None, None, Some(Number(b)), []))
  {
    hide Parse, EncodeVarint, Number;
    OneScalar(PLAYER_INFO_SCHEMA, 8, 1, TWO_TO_32, v, depth);
    OneDouble(PLAYER_INFO_SCHEMA, 17, 2, b, depth);
    OneDouble(PLAYER_INFO_SCHEMA, 25, 3, b, depth);
    OneDouble(PLAYER_INFO_SCHEMA, 33, 4, b, depth);
    ScalarAlone(1, v);
    ScalarAlone(2, Number(b));
    ScalarAlone(3, Number(b));
    ScalarAlone(4, Number(b));
  }

  /** In a list of players, tag 10, a length and that many bytes of a player add the player. */
  lemma SCSightTag(body: Bytes)
    requires |body| < TWO_TO_31
    ensures ParseSCSight([10] + EncodeVarint(|body|) + body) ==
      match PlayerInfoIn(body, 99)
      case None => None
      case Some(player) => Some(SCSight([player], []))
  {
    hide Parse, EncodeVarint, SCSightOf, PlayerInfoOf;
    if PlayerInfoIn(body, 99).Some? {
      SCSightNested(body);
    } else {
      BadBody(SC_SIGHT_SCHEMA, 10, 1, PLAYER_INFO_SCHEMA, body, RECURSION_LIMIT);
    }
  }

  lemma SCSightNested(body: Bytes)
    requires |body| < TWO_TO_31 && PlayerInfoIn(body, 99).Some?
    ensures ParseSCSight([10] + EncodeVarint(|body|) + body) ==
      Some(SCSight([PlayerInfoIn(body, 99).value], []))
  {
    hide Parse, EncodeVarint, SCSightOf, PlayerInfoOf;
    var fields := Parse(PLAYER_INFO_SCHEMA, body, 99).value;
    OneBody(SC_SIGHT_SCHEMA, 10, 1, PLAYER_INFO_SCHEMA, body, fields, RECURSION_LIMIT);
    OneUserMeans(fields);
  }

  // ---------------------------------------------------------------- the bytes written

  /** The bytes of a field that is set; nothing when it is not. */
  function IfSet(tag: Byte, v: Option<nat>): Bytes {
    match v case None => [] case Some(value) => [tag] + EncodeVarint(value)
  }

  function DoubleIfSet(tag: Byte, v: Option<nat>): Bytes {
    match v case None => [] case Some(value) => [tag] + EncodeFixed(value, 8)
  }

  lemma {:induction false} ElementsSnoc(tag: Byte, values: seq<nat>, v: nat)
    ensures WriteElements(tag, values + [v]) == WriteElements(tag, values) + ([tag] + EncodeVarint(v))
    ensures WriteElements(tag, []) == []
  {
    if values == [] {
      assert values + [v] == [v] && [v][1..] == [];
    } else {
      assert (values + [v])[1..] == values[1..] + [v];
      ElementsSnoc(tag, values[1..], v);
    }
  }

  lemma {:induction false} UsersSnoc(users: seq<UserFrame>, u: UserFrame)
    ensures WriteUserFrames(users + [u]) ==
      WriteUserFrames(users) + ([26] + EncodeVarint(|WriteUserFrame(u)|) + WriteUserFrame(u))
  {
    hide WriteUserFrame, EncodeVarint;
    if users == [] {
      assert users + [u] == [u] && [u][1..] == [];
    } else {
      assert (users + [u])[1..] == users[1..] + [u];
      UsersSnoc(users[1..], u);
    }
  }

  lemma {:induction false} PlayersSnoc(players: seq<PlayerInfo>, p: PlayerInfo)
    ensures WritePlayerInfos(players + [p]) ==
      WritePlayerInfos(players) + ([10] + EncodeVarint(|WritePlayerInfo(p)|) + WritePlayerInfo(p))
  {
    hide WritePlayerInfo, EncodeVarint;
    if players == [] {
      assert players + [p] == [p] && [p][1..] == [];
    } else {
      assert (players + [p])[1..] == players[1..] + [p];
      PlayersSnoc(players[1..], p);
    }
  }

  /** A frame is written as its ids under 8 and 16, each user in order under 26 with its length,
      and then its unknown fields. */
  lemma SCFrameBytes(id: Option<nat>, next: Option<nat>, users: seq<UserFrame>, u: UserFrame,
      unknown: seq<UnknownField>)
    ensures WriteSCFrame(SCFrame(id, next, [], unknown)) == IfSet(8, id) + IfSet(16, next) + EncodeUnknowns(unknown)
    ensures WriteSCFrame(SCFrame(id, next, users + [u], unknown)) ==
      WriteSCFrame(SCFrame(id, next, users, [])) + [26] + EncodeVarint(|WriteUserFrame(u)|) + WriteUserFrame(u)
      + EncodeUnknowns(unknown)
  {
    hide WriteUserFrame, EncodeVarint, WriteUserFrames, EncodeUnknowns;
    UsersSnoc(users, u);
    NothingWritten();
  }

  lemma NothingWritten()
    ensures WriteUserFrames([]) == [] && WritePlayerInfos([]) == [] && EncodeUnknowns([]) == []
  {
  }

  lemma UserFrameBytes(uuid: Option<nat>, keys: seq<nat>, key: nat, unknown: seq<UnknownField>)
    ensures WriteUserFrame(UserFrame(uuid, [], unknown)) == IfSet(8, uuid) + EncodeUnknowns(unknown)
    ensures WriteUserFrame(UserFrame(uuid, keys + [key], unknown)) ==
      WriteUserFrame(UserFrame(uuid, keys, [])) + [16] + EncodeVarint(key) + EncodeUnknowns(unknown)
  {
    hide EncodeVarint, WriteElements, EncodeUnknowns;
    ElementsSnoc(16, keys, key);
    NothingWritten();
  }

  lemma CSFrameBytes(uuid: Option<nat>, id: Option<nat>, keys: seq<nat>, key: nat, unknown: seq<UnknownField>)
    ensures WriteCSFrame(CSFrame(uuid, id, [], unknown)) == IfSet(8, uuid) + IfSet(16, id) + EncodeUnknowns(unknown)
    ensures WriteCSFrame(CSFrame(uuid, id, keys + [key], unknown)) ==
      WriteCSFrame(CSFrame(uuid, id, keys, [])) + [24] + EncodeVarint(key) + EncodeUnknowns(unknown)
  {
    hide EncodeVarint, WriteElements, EncodeUnknowns;
    ElementsSnoc(24, keys, key);
    NothingWritten();
  }

  /** A list of players is each of them in order under 10 with its length; a player is its id
      under 8 and its positions under 17, 25 and 33. */
  lemma SCSightBytes(players: seq<PlayerInfo>, p: PlayerInfo, unknown: seq<UnknownField>)
    ensures WriteSCSight(SCSight([], unknown)) == EncodeUnknowns(unknown)
    ensures WriteSCSight(SCSight(players + [p], unknown)) ==
      WriteSCSight(SCSight(players, [])) + [10] + EncodeVarint(|WritePlayerInfo(p)|) + WritePlayerInfo(p)
      + EncodeUnknowns(unknown)
    ensures WritePlayerInfo(p) == IfSet(8, p.uuid) + DoubleIfSet(17, p.posX) + DoubleIfSet(25, p.posY)
      + DoubleIfSet(33, p.posZ) + EncodeUnknowns(p.unknown)
  {
    PlayerBytes(p);
    hide WritePlayerInfo, EncodeVarint, EncodeFixed, WritePlayerInfos, EncodeUnknowns;
    PlayersSnoc(players, p);
    NothingWritten();
  }

  lemma PlayerBytes(p: PlayerInfo)
    ensures WritePlayerInfo(p) == IfSet(8, p.uuid) + DoubleIfSet(17, p.posX) + DoubleIfSet(25, p.posY)
      + DoubleIfSet(33, p.posZ) + EncodeUnknowns(p.unknown)
  {
    hide EncodeVarint, EncodeFixed, EncodeUnknowns;
  }

  // ---------------------------------------------------------------- the last value wins

  /** Merging takes each scalar from the second message when it is set there, and otherwise keeps
      the first's; repeated and unknown fields are appended. */
  lemma SecondWins(a: SCFrame, b: SCFrame, c: CSFrame, d: CSFrame, e: UserFrame, f: UserFrame)
    ensures b.frameId.Some? ==> MergeSCFrame(a, b).frameId == b.frameId
    ensures b.frameId.None? ==> MergeSCFrame(a, b).frameId == a.frameId
    ensures b.nextFrameId.Some? ==> MergeSCFrame(a, b).nextFrameId == b.nextFrameId
    ensures b.nextFrameId.None? ==> MergeSCFrame(a, b).nextFrameId == a.nextFrameId
    ensures MergeSCFrame(a, b).users == a.users + b.users && MergeSCFrame(a, b).unknown == a.unknown + b.unknown
    ensures MergeCSFrame(c, d).uuid == (if d.uuid.Some? then d.uuid else c.uuid)
    ensures MergeCSFrame(c, d).frameId == (if d.frameId.Some? then d.frameId else c.frameId)
    ensures MergeCSFrame(c, d).keyInfo == c.keyInfo + d.keyInfo && MergeCSFrame(c, d).unknown == c.unknown + d.unknown
    ensures MergeUserFrame(e, f).uuid == (if f.uuid.Some? then f.uuid else e.uuid)
    ensures MergeUserFrame(e, f).keyInfo == e.keyInfo + f.keyInfo
    ensures MergeUserFrame(e, f).unknown == e.unknown + f.unknown
  {
  }

  lemma SecondPlayerWins(a: PlayerInfo, b: PlayerInfo, c: SCSight, d: SCSight)
    ensures MergePlayerInfo(a, b).uuid == (if b.uuid.Some? then b.uuid else a.uuid)
    ensures MergePlayerInfo(a, b).posX == (if b.posX.Some? then b.posX else a.posX)
    ensures MergePlayerInfo(a, b).posY == (if b.posY.Some? then b.posY else a.posY)
    ensures MergePlayerInfo(a, b).posZ == (if b.posZ.Some? then b.posZ else a.posZ)
    ensures MergePlayerInfo(a, b).unknown == a.unknown + b.unknown
    ensures MergeSCSight(c, d).players == c.players + d.players && MergeSCSight(c, d).unknown == c.unknown + d.unknown
  {
  }

  /** On the wire: of two ids under the same tag the later one counts, and keys add up. */
  lemma LastOnTheWireWins(a: nat, b: nat, k: nat, l: nat)
    requires a < TWO_TO_64 && b < TWO_TO_64 && k < TWO_TO_32 && l < TWO_TO_32
    ensures ParseSCFrame([8] + EncodeVarint(a) + ([8] + EncodeVarint(b))) == Some(SCFrame(Some(b), None, [], []))
    ensures ParseSCFrame([16] + EncodeVarint(a) + ([16] + EncodeVarint(b))) == Some(SCFrame(None, Some(b), [], []))
    ensures ParseCSFrame([24] + EncodeVarint(k) + ([24] + EncodeVarint(l))) == Some(CSFrame(None, None, [k, l], []))
  {
    hide ParseSCFrame, ParseCSFrame, EncodeVarint;
    SCFrameTags(b);
    CSFrameTags(l, 0);
    var first, second, one: seq<nat>, two: seq<nat> := [8] + EncodeVarint(a), [16] + EncodeVarint(a), [k], [l];
    assert IfSet(8, Some(a)) + IfSet(16, None) == first && IfSet(8, None) + IfSet(16, Some(a)) == second;
    FrameThen(Some(a), None, [8] + EncodeVarint(b));
    FrameThen(None, Some(a), [16] + EncodeVarint(b));
    KeyThen(k, [24] + EncodeVarint(l));
    assert one + two == [k, l];
    assert MergeCSFrame(CSFrame(None, None, one, []), CSFrame(None, None, two, [])) == CSFrame(None, None, [k, l], []);
  }

  lemma FrameThen(id: Option<nat>, next: Option<nat>, b: Bytes)
    requires Below(id, TWO_TO_64) && Below(next, TWO_TO_64) && ParseSCFrame(b).Some?
    ensures ParseSCFrame(IfSet(8, id) + IfSet(16, next) + b) ==
      Some(MergeSCFrame(SCFrame(id, next, [], []), ParseSCFrame(b).value))
  {
    hide ParseSCFrame, EncodeVarint, WriteSCFrame, EncodeUnknowns;
    SCFrameBytes(id, next, [], UserFrame(None, [], []), []);
    NothingWritten();
    assert IfSet(8, id) + IfSet(16, next) + [] == IfSet(8, id) + IfSet(16, next);
    WrittenSCFrameMerges(SCFrame(id, next, [], []), b);
  }

  lemma KeyThen(k: nat, b: Bytes)
    requires k < TWO_TO_32 && ParseCSFrame(b).Some?
    ensures ParseCSFrame([24] + EncodeVarint(k) + b) ==
      Some(MergeCSFrame(CSFrame(None, None, [k], []), ParseCSFrame(b).value))
  {
    hide ParseCSFrame, EncodeVarint, WriteCSFrame, EncodeUnknowns;
    CSFrameBytes(None, None, [], k, []);
    NothingWritten();
    assert [] + [k] == [k];
    assert [] + [24] + EncodeVarint(k) + [] == [24] + EncodeVarint(k);
    WrittenCSFrameMerges(CSFrame(None, None, [k], []), b);
  }
}
