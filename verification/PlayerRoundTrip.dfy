/** Writing the lock-step messages: parsing undoes serialization, and the computed sizes
    are the lengths of the bytes written. */
module PlayerRoundTrip {
  import opened Options
  import opened Wire
  import opened WireLaws
  import opened PlayerValues
  import opened Numbers

  // ---------------------------------------------------------------- serialization

  function WriteOptional(tag: Byte, v: Option<nat>): Bytes {
    if v.Some? then [tag] + EncodeVarint(v.value) else []
  }

  function WriteOptionalDouble(tag: Byte, v: Option<nat>): Bytes {
    if v.Some? then [tag] + EncodeFixed(v.value, 8) else []
  }

  function WriteElements(tag: Byte, values: seq<nat>): Bytes {
    if values == [] then [] else [tag] + EncodeVarint(values[0]) + WriteElements(tag, values[1..])
  }

  /** A length-delimited field. */
  function WriteBody(tag: Byte, body: Bytes): Bytes {
    [tag] + EncodeVarint(|body|) + body
  }

  function WriteUserFrame(m: UserFrame): Bytes {
    WriteOptional(8, m.uuid) + WriteElements(16, m.keyInfo) + EncodeUnknowns(m.unknown)
  }

  function WriteCSFrame(m: CSFrame): Bytes {
    WriteOptional(8, m.uuid) + WriteOptional(16, m.frameId) + WriteElements(24, m.keyInfo) + EncodeUnknowns(m.unknown)
  }

  function WriteUserFrames(users: seq<UserFrame>): Bytes {
    if users == [] then [] else WriteBody(26, WriteUserFrame(users[0])) + WriteUserFrames(users[1..])
  }

  function WriteSCFrame(m: SCFrame): Bytes {
    WriteOptional(8, m.frameId) + WriteOptional(16, m.nextFrameId) + WriteUserFrames(m.users) +
      EncodeUnknowns(m.unknown)
  }

  function WritePlayerInfo(m: PlayerInfo): Bytes {
    WriteOptional(8, m.uuid) + WriteOptionalDouble(17, m.posX) + WriteOptionalDouble(25, m.posY) +
    WriteOptionalDouble(33, m.posZ) + EncodeUnknowns(m.unknown)
  }

  function WritePlayerInfos(players: seq<PlayerInfo>): Bytes {
    if players == [] then [] else WriteBody(10, WritePlayerInfo(players[0])) + WritePlayerInfos(players[1..])
  }

  function WriteSCSight(m: SCSight): Bytes {
    WritePlayerInfos(m.players) + EncodeUnknowns(m.unknown)
  }

  // ---------------------------------------------------------------- writable values

  predicate Below(v: Option<nat>, bound: nat) {
    v.Some? ==> v.value < bound
  }

  predicate UnknownsOk(unknown: seq<UnknownField>, schema: Schema, depth: nat) {
    forall u | u in unknown :: Representable(u, depth) && TagOf(u) !in schema.actions
  }

  predicate UserFrameOk(m: UserFrame, depth: nat) {
    && Below(m.uuid, TWO_TO_32)
    && (forall k | k in m.keyInfo :: k < TWO_TO_32)
    && UnknownsOk(m.unknown, USER_FRAME_SCHEMA, depth)
  }

  predicate CSFrameOk(m: CSFrame) {
    && Below(m.uuid, TWO_TO_32) && Below(m.frameId, TWO_TO_64)
    && (forall k | k in m.keyInfo :: k < TWO_TO_32)
    && UnknownsOk(m.unknown, CS_FRAME_SCHEMA, RECURSION_LIMIT)
  }

  /** Nested encodings must fit the 2 GB a length prefix can announce. */
  predicate SCFrameOk(m: SCFrame) {
    && Below(m.frameId, TWO_TO_64) && Below(m.nextFrameId, TWO_TO_64)
    && (forall u | u in m.users :: UserFrameOk(u, RECURSION_LIMIT - 1) && |WriteUserFrame(u)| < TWO_TO_31)
    && UnknownsOk(m.unknown, SC_FRAME_SCHEMA, RECURSION_LIMIT)
  }

  predicate PlayerInfoOk(m: PlayerInfo, depth: nat) {
    && Below(m.uuid, TWO_TO_32)
    && Below(m.posX, PowerOf256(8)) && Below(m.posY, PowerOf256(8)) && Below(m.posZ, PowerOf256(8))
    && UnknownsOk(m.unknown, PLAYER_INFO_SCHEMA, depth)
  }

  predicate SCSightOk(m: SCSight) {
    && (forall p | p in m.players :: PlayerInfoOk(p, RECURSION_LIMIT - 1) && |WritePlayerInfo(p)| < TWO_TO_31)
    && UnknownsOk(m.unknown, SC_SIGHT_SCHEMA, RECURSION_LIMIT)
  }

  // ---------------------------------------------------------------- one written item at a time

  /** `bytes`, whatever follows, parses as `fields` and then what follows. */
  ghost predicate Yields(schema: Schema, bytes: Bytes, fields: seq<Field>, depth: nat)
    requires WellFormed(schema)
  {
    forall rest: Bytes :: Parse(schema, bytes + rest, depth) == Prepend(fields, Parse(schema, rest, depth))
  }

  function Prepend(fields: seq<Field>, parsed: Option<seq<Field>>): Option<seq<Field>> {
    match parsed case None => None case Some(more) => Some(fields + more)
  }

  lemma YieldsNothing(schema: Schema, depth: nat)
    requires WellFormed(schema)
    ensures Yields(schema, [], [], depth)
  {
    forall rest: Bytes ensures Parse(schema, [] + rest, depth) == Prepend([], Parse(schema, rest, depth)) {
      assert [] + rest == rest;
      assert forall more: seq<Field> :: [] + more == more;
    }
  }

  lemma YieldsAt(schema: Schema, s: Bytes, a: seq<Field>, rest: Bytes, depth: nat)
    requires WellFormed(schema) && Yields(schema, s, a, depth)
    ensures Parse(schema, s + rest, depth) == Prepend(a, Parse(schema, rest, depth))
  {
    hide Parse;
  }

  lemma YieldsConcatAt(schema: Schema, s: Bytes, a: seq<Field>, t: Bytes, b: seq<Field>, rest: Bytes, depth: nat)
    requires WellFormed(schema) && Yields(schema, s, a, depth) && Yields(schema, t, b, depth)
    ensures Parse(schema, (s + t) + rest, depth) == Prepend(a + b, Parse(schema, rest, depth))
  {
    hide Parse, Yields;
    assert (s + t) + rest == s + (t + rest);
    YieldsAt(schema, s, a, t + rest, depth);
    YieldsAt(schema, t, b, rest, depth);
    if Parse(schema, rest, depth).Some? {
      var more := Parse(schema, rest, depth).value;
      assert (a + b) + more == a + (b + more);
    }
  }

  lemma YieldsConcat(schema: Schema, s: Bytes, a: seq<Field>, t: Bytes, b: seq<Field>, depth: nat)
    requires WellFormed(schema) && Yields(schema, s, a, depth) && Yields(schema, t, b, depth)
    ensures Yields(schema, s + t, a + b, depth)
  {
    hide Parse;
    forall rest: Bytes ensures Parse(schema, (s + t) + rest, depth) == Prepend(a + b, Parse(schema, rest, depth)) {
      YieldsConcatAt(schema, s, a, t, b, rest, depth);
    }
  }

  lemma YieldsWhole(schema: Schema, s: Bytes, a: seq<Field>, depth: nat)
    requires WellFormed(schema) && Yields(schema, s, a, depth)
    ensures Parse(schema, s, depth) == Some(a)
  {
    assert s + [] == s && a + [] == a;
    assert Parse(schema, [], depth) == Some([]);
  }

  lemma YieldsFour(schema: Schema, w1: Bytes, f1: seq<Field>, w2: Bytes, f2: seq<Field>,
      w3: Bytes, f3: seq<Field>, w4: Bytes, f4: seq<Field>, depth: nat)
    requires WellFormed(schema) && Yields(schema, w1, f1, depth) && Yields(schema, w2, f2, depth)
    requires Yields(schema, w3, f3, depth) && Yields(schema, w4, f4, depth)
    ensures Yields(schema, w1 + w2 + w3 + w4, (f1 + f2) + (f3 + f4), depth)
  {
    hide Parse, Yields;
    YieldsConcat(schema, w1, f1, w2, f2, depth);
    YieldsConcat(schema, w3, f3, w4, f4, depth);
    YieldsConcat(schema, w1 + w2, f1 + f2, w3 + w4, f3 + f4, depth);
    assert w1 + w2 + w3 + w4 == (w1 + w2) + (w3 + w4);
  }

  /** A one-byte tag followed by a payload its action reads back. */
  lemma YieldsKnown(schema: Schema, tag: Byte, payload: Bytes, field: Field, depth: nat)
    requires WellFormed(schema) && tag in schema.actions
    requires forall rest: Bytes :: ReadKnown(schema.actions[tag], payload + rest, depth) == Got(field, rest)
    ensures Yields(schema, [tag] + payload, [field], depth)
  {
    forall rest: Bytes
      ensures Parse(schema, [tag] + payload + rest, depth) == Prepend([field], Parse(schema, rest, depth))
    {
      KnownTagRead(schema, tag, [tag] + payload + rest, payload + rest, depth);
      FirstField(schema, [tag] + payload + rest, field, rest, depth);
    }
  }

  lemma KnownTagRead(schema: Schema, tag: Byte, s: Bytes, payload: Bytes, depth: nat)
    requires WellFormed(schema) && tag in schema.actions && s == [tag] + payload
    ensures ReadField(schema, s, depth) == ReadKnown(schema.actions[tag], payload, depth)
  {
    assert s[0] == tag && s[1..] == payload;
    assert DecodeVarint(s, MAX_VARINT_BYTES) == Got(tag as nat, payload);
  }

  lemma FirstField(schema: Schema, s: Bytes, field: Field, rest: Bytes, depth: nat)
    requires WellFormed(schema) && ReadField(schema, s, depth) == Got(field, rest)
    ensures Parse(schema, s, depth) == Prepend([field], Parse(schema, rest, depth))
  {
  }

  lemma YieldsOptional(schema: Schema, tag: Byte, number: nat, modulus: nat, v: Option<nat>, depth: nat)
    requires WellFormed(schema) && tag in schema.actions && schema.actions[tag] == ReadScalar(number, modulus)
    requires Below(v, modulus) && modulus <= TWO_TO_64
    ensures Yields(schema, WriteOptional(tag, v), if v.Some? then [Scalar(number, v.value)] else [], depth)
  {
    if v.Some? {
      forall rest: Bytes
        ensures ReadKnown(schema.actions[tag], EncodeVarint(v.value) + rest, depth) ==
          Got(Scalar(number, v.value), rest)
      {
        ReadEncodedVarint(v.value, rest, modulus);
      }
      YieldsKnown(schema, tag, EncodeVarint(v.value), Scalar(number, v.value), depth);
    } else {
      YieldsNothing(schema, depth);
    }
  }

  lemma YieldsOptionalDouble(schema: Schema, tag: Byte, number: nat, v: Option<nat>, depth: nat)
    requires WellFormed(schema) && tag in schema.actions && schema.actions[tag] == ReadDouble(number)
    requires Below(v, PowerOf256(8))
    ensures Yields(schema, WriteOptionalDouble(tag, v), if v.Some? then [Scalar(number, v.value)] else [], depth)
  {
    if v.Some? {
      forall rest: Bytes
        ensures ReadKnown(schema.actions[tag], EncodeFixed(v.value, 8) + rest, depth) ==
          Got(Scalar(number, v.value), rest)
      {
        ReadEncodedFixed(v.value, 8, rest);
      }
      YieldsKnown(schema, tag, EncodeFixed(v.value, 8), Scalar(number, v.value), depth);
    } else {
      YieldsNothing(schema, depth);
    }
  }

  function ElementFields(number: nat, values: seq<nat>): seq<Field> {
    if values == [] then [] else [Elements(number, [values[0]])] + ElementFields(number, values[1..])
  }

  lemma {:induction false} ElementFieldsObserved(number: nat, values: seq<nat>, n: nat)
    ensures ElementsOf(ElementFields(number, values), number) == values
    ensures ScalarOf(ElementFields(number, values), n) == None
    ensures MessagesOf(ElementFields(number, values), n) == []
    ensures UnknownsOf(ElementFields(number, values)) == []
  {
    if values != [] {
      ElementFieldsObserved(number, values[1..], n);
      assert ElementFields(number, values)[1..] == ElementFields(number, values[1..]);
    }
  }

  lemma {:induction false} YieldsElements(schema: Schema, tag: Byte, number: nat, values: seq<nat>, depth: nat)
    requires WellFormed(schema) && tag in schema.actions && schema.actions[tag] == ReadElement(number)
    requires forall v | v in values :: v < TWO_TO_32
    ensures Yields(schema, WriteElements(tag, values), ElementFields(number, values), depth)
  {
    if values == [] {
      YieldsNothing(schema, depth);
    } else {
      forall rest: Bytes
        ensures ReadKnown(schema.actions[tag], EncodeVarint(values[0]) + rest, depth) ==
          Got(Elements(number, [values[0]]), rest)
      {
        assert values[0] in values;
        ReadEncodedVarint(values[0], rest, TWO_TO_32);
      }
      YieldsKnown(schema, tag, EncodeVarint(values[0]), Elements(number, [values[0]]), depth);
      assert forall v | v in values[1..] :: v in values;
      YieldsElements(schema, tag, number, values[1..], depth);
      YieldsConcat(schema, [tag] + EncodeVarint(values[0]), [Elements(number, [values[0]])],
        WriteElements(tag, values[1..]), ElementFields(number, values[1..]), depth);
    }
  }

  lemma YieldsBody(schema: Schema, tag: Byte, number: nat, sub: Schema, body: Bytes, fields: seq<Field>, depth: nat)
    requires WellFormed(schema) && tag in schema.actions && schema.actions[tag] == ReadMessage(number, sub)
    requires depth > 0 && |body| < TWO_TO_31 && Parse(sub, body, depth - 1) == Some(fields)
    ensures Yields(schema, WriteBody(tag, body), [Message(number, fields)], depth)
  {
    forall rest: Bytes
      ensures ReadKnown(schema.actions[tag], EncodeVarint(|body|) + body + rest, depth) ==
        Got(Message(number, fields), rest)
    {
      assert EncodeVarint(|body|) + body + rest == EncodeVarint(|body|) + (body + rest);
      ReadEncodedVarint(|body|, body + rest, TWO_TO_64);
      assert (body + rest)[..|body|] == body && (body + rest)[|body|..] == rest;
    }
    YieldsKnown(schema, tag, EncodeVarint(|body|) + body, Message(number, fields), depth);
    assert WriteBody(tag, body) == [tag] + (EncodeVarint(|body|) + body);
  }

  function UnknownFields(us: seq<UnknownField>): seq<Field> {
    if us == [] then [] else [Unknown(us[0])] + UnknownFields(us[1..])
  }

  lemma {:induction false} UnknownFieldsObserved(us: seq<UnknownField>, n: nat)
    ensures UnknownsOf(UnknownFields(us)) == us
    ensures ScalarOf(UnknownFields(us), n) == None
    ensures MessagesOf(UnknownFields(us), n) == []
    ensures ElementsOf(UnknownFields(us), n) == []
  {
    if us != [] {
      UnknownFieldsObserved(us[1..], n);
      assert UnknownFields(us)[1..] == UnknownFields(us[1..]);
    }
  }

  lemma YieldsUnknownAt(schema: Schema, u: UnknownField, rest: Bytes, depth: nat)
    requires WellFormed(schema) && Representable(u, depth) && TagOf(u) !in schema.actions
    ensures Parse(schema, EncodeUnknown(u) + rest, depth) == Prepend([Unknown(u)], Parse(schema, rest, depth))
  {
    hide Parse, ReadField, ReadUnknown, ReadVarint, EncodePayload, EncodeVarint;
    var payload := EncodePayload(u) + rest;
    assert EncodeUnknown(u) + rest == EncodeVarint(TagOf(u)) + payload;
    ReadEncodedVarint(TagOf(u), payload, TWO_TO_32);
    ReadEncodedUnknown(u, rest, depth);
    UnknownTagRead(schema, TagOf(u), EncodeUnknown(u) + rest, payload, depth);
    FirstField(schema, EncodeUnknown(u) + rest, Unknown(u), rest, depth);
  }

  lemma YieldsUnknown(schema: Schema, u: UnknownField, depth: nat)
    requires WellFormed(schema) && Representable(u, depth) && TagOf(u) !in schema.actions
    ensures Yields(schema, EncodeUnknown(u), [Unknown(u)], depth)
  {
    hide Parse, EncodeUnknown, Representable;
    forall rest: Bytes
      ensures Parse(schema, EncodeUnknown(u) + rest, depth) == Prepend([Unknown(u)], Parse(schema, rest, depth))
    {
      YieldsUnknownAt(schema, u, rest, depth);
    }
  }

  lemma UnknownTagRead(schema: Schema, tag: nat, s: Bytes, payload: Bytes, depth: nat)
    requires WellFormed(schema) && tag !in schema.actions && tag != 0
    requires ReadVarint(s, TWO_TO_32) == Got(tag, payload) && ReadUnknown(tag, payload, depth).Got?
    ensures ReadField(schema, s, depth) ==
      Got(Unknown(ReadUnknown(tag, payload, depth).value), ReadUnknown(tag, payload, depth).rest)
  {
  }

  lemma {:induction false} YieldsUnknowns(schema: Schema, us: seq<UnknownField>, depth: nat)
    requires WellFormed(schema) && UnknownsOk(us, schema, depth)
    ensures Yields(schema, EncodeUnknowns(us), UnknownFields(us), depth)
  {
    if us == [] {
      YieldsNothing(schema, depth);
    } else {
      YieldsUnknown(schema, us[0], depth);
      YieldsUnknowns(schema, us[1..], depth);
      YieldsConcat(schema, EncodeUnknown(us[0]), [Unknown(us[0])], EncodeUnknowns(us[1..]), UnknownFields(us[1..]),
        depth);
    }
  }

  // ---------------------------------------------------------------- whole messages

  function OptionalField(number: nat, v: Option<nat>): seq<Field> {
    if v.Some? then [Scalar(number, v.value)] else []
  }

  lemma OptionalFieldObserved(number: nat, v: Option<nat>, n: nat)
    ensures ScalarOf(OptionalField(number, v), n) == if n == number then v else None
    ensures ElementsOf(OptionalField(number, v), n) == [] && MessagesOf(OptionalField(number, v), n) == []
    ensures UnknownsOf(OptionalField(number, v)) == []
  {
    if v.Some? {
      assert OptionalField(number, v)[1..] == [];
    }
  }

  function UserFrameFields(m: UserFrame): seq<Field> {
    OptionalField(1, m.uuid) + ElementFields(2, m.keyInfo) + UnknownFields(m.unknown)
  }

  lemma UserFrameFieldsMean(m: UserFrame)
    ensures UserFrameOf(UserFrameFields(m)) == m
  {
    var head, keys, tail := OptionalField(1, m.uuid), ElementFields(2, m.keyInfo), UnknownFields(m.unknown);
    ObserveConcat(head + keys, tail, 1);
    ObserveConcat(head, keys, 1);
    ObserveConcat(head + keys, tail, 2);
    ObserveConcat(head, keys, 2);
    ElementFieldsObserved(2, m.keyInfo, 1);
    UnknownFieldsObserved(m.unknown, 1);
    UnknownFieldsObserved(m.unknown, 2);
  }

  lemma UserFrameYields(m: UserFrame, depth: nat)
    requires UserFrameOk(m, depth)
    ensures Yields(USER_FRAME_SCHEMA, WriteUserFrame(m), UserFrameFields(m), depth)
    ensures Parse(USER_FRAME_SCHEMA, WriteUserFrame(m), depth) == Some(UserFrameFields(m))
    ensures UserFrameOf(UserFrameFields(m)) == m
  {
    var schema := USER_FRAME_SCHEMA;
    YieldsOptional(schema, 8, 1, TWO_TO_32, m.uuid, depth);
    YieldsElements(schema, 16, 2, m.keyInfo, depth);
    YieldsUnknowns(schema, m.unknown, depth);
    YieldsConcat(schema, WriteOptional(8, m.uuid), OptionalField(1, m.uuid),
      WriteElements(16, m.keyInfo), ElementFields(2, m.keyInfo), depth);
    YieldsConcat(schema, WriteOptional(8, m.uuid) + WriteElements(16, m.keyInfo),
      OptionalField(1, m.uuid) + ElementFields(2, m.keyInfo),
      EncodeUnknowns(m.unknown), UnknownFields(m.unknown), depth);
    YieldsWhole(schema, WriteUserFrame(m), UserFrameFields(m), depth);
    UserFrameFieldsMean(m);
  }

  /** Parse undoes serialize, unknown fields and groups included. */
  lemma UserFrameRoundTrip(m: UserFrame)
    requires UserFrameOk(m, RECURSION_LIMIT)
    ensures ParseUserFrame(WriteUserFrame(m)) == Some(m)
  {
    UserFrameYields(m, RECURSION_LIMIT);
  }

  function CSFrameFields(m: CSFrame): seq<Field> {
    (OptionalField(1, m.uuid) + OptionalField(2, m.frameId)) + (ElementFields(3, m.keyInfo) + UnknownFields(m.unknown))
  }

  lemma CSFrameFieldsMean(m: CSFrame)
    ensures CSFrameOf(CSFrameFields(m)) == m
  {
    var head, tail := OptionalField(1, m.uuid) + OptionalField(2, m.frameId),
      ElementFields(3, m.keyInfo) + UnknownFields(m.unknown);
    forall n: nat | 1 <= n <= 3
      ensures ScalarOf(CSFrameFields(m), n) == Or(ScalarOf(head, n), ScalarOf(tail, n))
      ensures ScalarOf(tail, n) == None
    {
      ObserveConcat(head, tail, n);
      ObserveConcat(ElementFields(3, m.keyInfo), UnknownFields(m.unknown), n);
      ElementFieldsObserved(3, m.keyInfo, n);
      UnknownFieldsObserved(m.unknown, n);
    }
    ObserveConcat(head, tail, 3);
    ObserveConcat(ElementFields(3, m.keyInfo), UnknownFields(m.unknown), 3);
    ElementFieldsObserved(3, m.keyInfo, 3);
    UnknownFieldsObserved(m.unknown, 3);
    ObserveConcat(OptionalField(1, m.uuid), OptionalField(2, m.frameId), 1);
    ObserveConcat(OptionalField(1, m.uuid), OptionalField(2, m.frameId), 2);
    ObserveConcat(OptionalField(1, m.uuid), OptionalField(2, m.frameId), 3);
  }

  lemma CSFrameYields(m: CSFrame)
    requires CSFrameOk(m)
    ensures Yields(CS_FRAME_SCHEMA, WriteCSFrame(m), CSFrameFields(m), RECURSION_LIMIT)
  {
    hide Parse, Yields;
    YieldsOptional(CS_FRAME_SCHEMA, 8, 1, TWO_TO_32, m.uuid, RECURSION_LIMIT);
    YieldsOptional(CS_FRAME_SCHEMA, 16, 2, TWO_TO_64, m.frameId, RECURSION_LIMIT);
    YieldsElements(CS_FRAME_SCHEMA, 24, 3, m.keyInfo, RECURSION_LIMIT);
    YieldsUnknowns(CS_FRAME_SCHEMA, m.unknown, RECURSION_LIMIT);
    YieldsFour(CS_FRAME_SCHEMA, WriteOptional(8, m.uuid), OptionalField(1, m.uuid),
      WriteOptional(16, m.frameId), OptionalField(2, m.frameId),
      WriteElements(24, m.keyInfo), ElementFields(3, m.keyInfo),
      EncodeUnknowns(m.unknown), UnknownFields(m.unknown), RECURSION_LIMIT);
  }

  lemma CSFrameRoundTrip(m: CSFrame)
    requires CSFrameOk(m)
    ensures ParseCSFrame(WriteCSFrame(m)) == Some(m)
  {
    hide Parse, Yields, WriteCSFrame;
    CSFrameYields(m);
    YieldsWhole(CS_FRAME_SCHEMA, WriteCSFrame(m), CSFrameFields(m), RECURSION_LIMIT);
    CSFrameFieldsMean(m);
  }

  function UserFramesFields(users: seq<UserFrame>): seq<Field> {
    if users == [] then [] else [Message(3, UserFrameFields(users[0]))] + UserFramesFields(users[1..])
  }

  lemma UserFramesOfFirst(body: seq<Field>, bodies: seq<seq<Field>>)
    ensures UserFramesOf([body] + bodies) == [UserFrameOf(body)] + UserFramesOf(bodies)
  {
  }

  lemma {:induction false} UserFramesFieldsObserved(users: seq<UserFrame>, n: nat)
    ensures UserFramesOf(MessagesOf(UserFramesFields(users), 3)) == users
    ensures ScalarOf(UserFramesFields(users), n) == None
    ensures UnknownsOf(UserFramesFields(users)) == []
  {
    if users != [] {
      UserFramesFieldsObserved(users[1..], n);
      UserFrameFieldsMean(users[0]);
      var first, rest := Message(3, UserFrameFields(users[0])), UserFramesFields(users[1..]);
      ObserveOne(first, 3);
      ObserveOne(first, n);
      ObserveConcat([first], rest, 3);
      ScalarOfConcat([first], rest, n);
      UserFramesOfFirst(first.fields, MessagesOf(rest, 3));
    }
  }

  lemma {:induction false} YieldsUserFrames(users: seq<UserFrame>, depth: nat)
    requires depth > 0
    requires forall u | u in users :: UserFrameOk(u, depth - 1) && |WriteUserFrame(u)| < TWO_TO_31
    ensures Yields(SC_FRAME_SCHEMA, WriteUserFrames(users), UserFramesFields(users), depth)
  {
    hide Parse;
    if users == [] {
      YieldsNothing(SC_FRAME_SCHEMA, depth);
    } else {
      assert users[0] in users;
      UserFrameYields(users[0], depth - 1);
      YieldsBody(SC_FRAME_SCHEMA, 26, 3, USER_FRAME_SCHEMA, WriteUserFrame(users[0]), UserFrameFields(users[0]), depth);
      assert forall u | u in users[1..] :: u in users;
      YieldsUserFrames(users[1..], depth);
      YieldsConcat(SC_FRAME_SCHEMA, WriteBody(26, WriteUserFrame(users[0])), [Message(3, UserFrameFields(users[0]))],
        WriteUserFrames(users[1..]), UserFramesFields(users[1..]), depth);
    }
  }

  function SCFrameFields(m: SCFrame): seq<Field> {
    (OptionalField(1, m.frameId) + OptionalField(2, m.nextFrameId)) +
      (UserFramesFields(m.users) + UnknownFields(m.unknown))
  }

  lemma SCFrameFieldsMean(m: SCFrame)
    ensures SCFrameOf(SCFrameFields(m)) == m
  {
    var head, tail := OptionalField(1, m.frameId) + OptionalField(2, m.nextFrameId),
      UserFramesFields(m.users) + UnknownFields(m.unknown);
    forall n: nat | 1 <= n <= 3
      ensures ScalarOf(SCFrameFields(m), n) == Or(ScalarOf(head, n), ScalarOf(tail, n))
      ensures ScalarOf(tail, n) == None
    {
      ObserveConcat(head, tail, n);
      ObserveConcat(UserFramesFields(m.users), UnknownFields(m.unknown), n);
      UserFramesFieldsObserved(m.users, n);
      UnknownFieldsObserved(m.unknown, n);
    }
    ObserveConcat(head, tail, 3);
    ObserveConcat(UserFramesFields(m.users), UnknownFields(m.unknown), 3);
    UserFramesFieldsObserved(m.users, 3);
    UnknownFieldsObserved(m.unknown, 3);
    ObserveConcat(OptionalField(1, m.frameId), OptionalField(2, m.nextFrameId), 1);
    ObserveConcat(OptionalField(1, m.frameId), OptionalField(2, m.nextFrameId), 2);
    ObserveConcat(OptionalField(1, m.frameId), OptionalField(2, m.nextFrameId), 3);
  }

  lemma SCFrameYields(m: SCFrame)
    requires SCFrameOk(m)
    ensures Yields(SC_FRAME_SCHEMA, WriteSCFrame(m), SCFrameFields(m), RECURSION_LIMIT)
  {
    hide Parse, Yields;
    YieldsOptional(SC_FRAME_SCHEMA, 8, 1, TWO_TO_64, m.frameId, RECURSION_LIMIT);
    YieldsOptional(SC_FRAME_SCHEMA, 16, 2, TWO_TO_64, m.nextFrameId, RECURSION_LIMIT);
    YieldsUserFrames(m.users, RECURSION_LIMIT);
    YieldsUnknowns(SC_FRAME_SCHEMA, m.unknown, RECURSION_LIMIT);
    YieldsFour(SC_FRAME_SCHEMA, WriteOptional(8, m.frameId), OptionalField(1, m.frameId),
      WriteOptional(16, m.nextFrameId), OptionalField(2, m.nextFrameId),
      WriteUserFrames(m.users), UserFramesFields(m.users),
      EncodeUnknowns(m.unknown), UnknownFields(m.unknown), RECURSION_LIMIT);
  }

  lemma SCFrameRoundTrip(m: SCFrame)
    requires SCFrameOk(m)
    ensures ParseSCFrame(WriteSCFrame(m)) == Some(m)
  {
    hide Parse, Yields, WriteSCFrame;
    SCFrameYields(m);
    YieldsWhole(SC_FRAME_SCHEMA, WriteSCFrame(m), SCFrameFields(m), RECURSION_LIMIT);
    SCFrameFieldsMean(m);
  }

  function PlayerInfoFields(m: PlayerInfo): seq<Field> {
    (OptionalField(1, m.uuid) + OptionalField(2, m.posX)) + (OptionalField(3, m.posY) + OptionalField(4, m.posZ)) +
    UnknownFields(m.unknown)
  }

  lemma PlayerInfoYields(m: PlayerInfo, depth: nat)
    requires PlayerInfoOk(m, depth)
    ensures Parse(PLAYER_INFO_SCHEMA, WritePlayerInfo(m), depth) == Some(PlayerInfoFields(m))
  {
    var schema := PLAYER_INFO_SCHEMA;
    var w1, w2 := WriteOptional(8, m.uuid), WriteOptionalDouble(17, m.posX);
    var w3, w4 := WriteOptionalDouble(25, m.posY), WriteOptionalDouble(33, m.posZ);
    YieldsOptional(schema, 8, 1, TWO_TO_32, m.uuid, depth);
    YieldsOptionalDouble(schema, 17, 2, m.posX, depth);
    YieldsOptionalDouble(schema, 25, 3, m.posY, depth);
    YieldsOptionalDouble(schema, 33, 4, m.posZ, depth);
    YieldsUnknowns(schema, m.unknown, depth);
    YieldsFour(schema, w1, OptionalField(1, m.uuid), w2, OptionalField(2, m.posX),
      w3, OptionalField(3, m.posY), w4, OptionalField(4, m.posZ), depth);
    var fields := (OptionalField(1, m.uuid) + OptionalField(2, m.posX)) +
      (OptionalField(3, m.posY) + OptionalField(4, m.posZ));
    YieldsConcat(schema, w1 + w2 + w3 + w4, fields, EncodeUnknowns(m.unknown), UnknownFields(m.unknown), depth);
    YieldsWhole(schema, WritePlayerInfo(m), PlayerInfoFields(m), depth);
  }

  lemma PlayerInfoFieldsMean(m: PlayerInfo)
    ensures PlayerInfoOf(PlayerInfoFields(m)) == m
  {
    var a, b := OptionalField(1, m.uuid) + OptionalField(2, m.posX),
      OptionalField(3, m.posY) + OptionalField(4, m.posZ);
    PlayerInfoScalar(m, 1);
    PlayerInfoScalar(m, 2);
    PlayerInfoScalar(m, 3);
    PlayerInfoScalar(m, 4);
    UnknownsOfConcat(a + b, UnknownFields(m.unknown));
    UnknownsOfConcat(a, b);
    UnknownsOfConcat(OptionalField(1, m.uuid), OptionalField(2, m.posX));
    UnknownsOfConcat(OptionalField(3, m.posY), OptionalField(4, m.posZ));
    UnknownFieldsObserved(m.unknown, 1);
    OptionalFieldObserved(1, m.uuid, 1);
    OptionalFieldObserved(2, m.posX, 1);
    OptionalFieldObserved(3, m.posY, 1);
    OptionalFieldObserved(4, m.posZ, 1);
  }

  lemma PlayerInfoScalar(m: PlayerInfo, n: nat)
    ensures ScalarOf(PlayerInfoFields(m), n) ==
      if n == 1 then m.uuid else if n == 2 then m.posX else if n == 3 then m.posY else if n == 4 then m.posZ else None
  {
    var a, b := OptionalField(1, m.uuid) + OptionalField(2, m.posX),
      OptionalField(3, m.posY) + OptionalField(4, m.posZ);
    ScalarOfConcat(a + b, UnknownFields(m.unknown), n);
    ScalarOfConcat(a, b, n);
    ScalarOfConcat(OptionalField(1, m.uuid), OptionalField(2, m.posX), n);
    ScalarOfConcat(OptionalField(3, m.posY), OptionalField(4, m.posZ), n);
    UnknownFieldsObserved(m.unknown, n);
    OptionalFieldObserved(1, m.uuid, n);
    OptionalFieldObserved(2, m.posX, n);
    OptionalFieldObserved(3, m.posY, n);
    OptionalFieldObserved(4, m.posZ, n);
  }

  function PlayerInfosFields(players: seq<PlayerInfo>): seq<Field> {
    if players == [] then [] else [Message(1, PlayerInfoFields(players[0]))] + PlayerInfosFields(players[1..])
  }

  lemma PlayerInfosOfFirst(body: seq<Field>, bodies: seq<seq<Field>>)
    ensures PlayerInfosOf([body] + bodies) == [PlayerInfoOf(body)] + PlayerInfosOf(bodies)
  {
  }

  lemma {:induction false} PlayerInfosFieldsObserved(players: seq<PlayerInfo>)
    ensures PlayerInfosOf(MessagesOf(PlayerInfosFields(players), 1)) == players
    ensures UnknownsOf(PlayerInfosFields(players)) == []
  {
    if players != [] {
      PlayerInfosFieldsObserved(players[1..]);
      PlayerInfoFieldsMean(players[0]);
      var first, rest := Message(1, PlayerInfoFields(players[0])), PlayerInfosFields(players[1..]);
      ObserveOne(first, 1);
      ObserveConcat([first], rest, 1);
      PlayerInfosOfFirst(first.fields, MessagesOf(rest, 1));
    }
  }

  lemma {:induction false} YieldsPlayerInfos(players: seq<PlayerInfo>, depth: nat)
    requires depth > 0
    requires forall p | p in players :: PlayerInfoOk(p, depth - 1) && |WritePlayerInfo(p)| < TWO_TO_31
    ensures Yields(SC_SIGHT_SCHEMA, WritePlayerInfos(players), PlayerInfosFields(players), depth)
  {
    hide Parse;
    if players == [] {
      YieldsNothing(SC_SIGHT_SCHEMA, depth);
    } else {
      assert players[0] in players;
      PlayerInfoYields(players[0], depth - 1);
      YieldsBody(SC_SIGHT_SCHEMA, 10, 1, PLAYER_INFO_SCHEMA, WritePlayerInfo(players[0]), PlayerInfoFields(players[0]),
        depth);
      assert forall p | p in players[1..] :: p in players;
      YieldsPlayerInfos(players[1..], depth);
      YieldsConcat(SC_SIGHT_SCHEMA, WriteBody(10, WritePlayerInfo(players[0])),
        [Message(1, PlayerInfoFields(players[0]))],
        WritePlayerInfos(players[1..]), PlayerInfosFields(players[1..]), depth);
    }
  }

  lemma SCSightYields(m: SCSight)
    requires SCSightOk(m)
    ensures Yields(SC_SIGHT_SCHEMA, WriteSCSight(m), PlayerInfosFields(m.players) + UnknownFields(m.unknown),
      RECURSION_LIMIT)
  {
    hide Parse, Yields;
    YieldsPlayerInfos(m.players, RECURSION_LIMIT);
    YieldsUnknowns(SC_SIGHT_SCHEMA, m.unknown, RECURSION_LIMIT);
    YieldsConcat(SC_SIGHT_SCHEMA, WritePlayerInfos(m.players), PlayerInfosFields(m.players),
      EncodeUnknowns(m.unknown), UnknownFields(m.unknown), RECURSION_LIMIT);
  }

  lemma SCSightRoundTrip(m: SCSight)
    requires SCSightOk(m)
    ensures ParseSCSight(WriteSCSight(m)) == Some(m)
  {
    var fields := PlayerInfosFields(m.players) + UnknownFields(m.unknown);
    SCSightYields(m);
    YieldsWhole(SC_SIGHT_SCHEMA, WriteSCSight(m), fields, RECURSION_LIMIT);
    ObserveConcat(PlayerInfosFields(m.players), UnknownFields(m.unknown), 1);
    PlayerInfosFieldsObserved(m.players);
    UnknownFieldsObserved(m.unknown, 1);
    assert MessagesOf(fields, 1) == MessagesOf(PlayerInfosFields(m.players), 1);
    assert UnknownsOf(fields) == m.unknown;
  }
}
