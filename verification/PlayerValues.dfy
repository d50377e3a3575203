/** The lock-step messages as values: what a field list means for each type, how two
    messages merge, and how one is written. */
module PlayerValues {
  import opened Options
  import opened Wire
  import opened WireLaws
  import opened Numbers

  /** The parser's recursion limit. */
  const RECURSION_LIMIT: nat := 100

  datatype UserFrame = UserFrame(uuid: Option<nat>, keyInfo: seq<nat>, unknown: seq<UnknownField>)

  datatype CSFrame = CSFrame(uuid: Option<nat>, frameId: Option<nat>, keyInfo: seq<nat>, unknown: seq<UnknownField>)

  datatype SCFrame = SCFrame(
    frameId: Option<nat>, nextFrameId: Option<nat>, users: seq<UserFrame>, unknown: seq<UnknownField>)

  /** Positions are kept as the 64-bit patterns the wire carries. */
  datatype PlayerInfo = PlayerInfo(
    uuid: Option<nat>, posX: Option<nat>, posY: Option<nat>, posZ: Option<nat>, unknown: seq<UnknownField>)

  datatype SCSight = SCSight(players: seq<PlayerInfo>, unknown: seq<UnknownField>)

  const USER_FRAME_SCHEMA := Schema(map[8 := ReadScalar(1, TWO_TO_32), 16 := ReadElement(2), 18 := ReadPacked(2)])
  const CS_FRAME_SCHEMA := Schema(map[
    8 := ReadScalar(1, TWO_TO_32), 16 := ReadScalar(2, TWO_TO_64), 24 := ReadElement(3), 26 := ReadPacked(3)])
  const SC_FRAME_SCHEMA := Schema(map[
    8 := ReadScalar(1, TWO_TO_64), 16 := ReadScalar(2, TWO_TO_64), 26 := ReadMessage(3, USER_FRAME_SCHEMA)])
  const PLAYER_INFO_SCHEMA := Schema(map[
    8 := ReadScalar(1, TWO_TO_32), 17 := ReadDouble(2), 25 := ReadDouble(3), 33 := ReadDouble(4)])
  const SC_SIGHT_SCHEMA := Schema(map[10 := ReadMessage(1, PLAYER_INFO_SCHEMA)])

  // ---------------------------------------------------------------- meaning of a field list

  function Or<T>(first: Option<T>, second: Option<T>): Option<T> {
    if second.Some? then second else first
  }

  /** The last scalar with this number. */
  function ScalarOf(fields: seq<Field>, number: nat): Option<nat> {
    if fields == [] then None
    else Or(if fields[0].Scalar? && fields[0].number == number then Some(fields[0].value) else None,
            ScalarOf(fields[1..], number))
  }

  /** All elements with this number, in order, however they were grouped on the wire. */
  function ElementsOf(fields: seq<Field>, number: nat): seq<nat> {
    if fields == [] then [] else
    var first := if fields[0].Elements? && fields[0].number == number then fields[0].values else [];
    first + ElementsOf(fields[1..], number)
  }

  function MessagesOf(fields: seq<Field>, number: nat): seq<seq<Field>> {
    if fields == [] then [] else
    var first := if fields[0].Message? && fields[0].number == number then [fields[0].fields] else [];
    first + MessagesOf(fields[1..], number)
  }

  function UnknownsOf(fields: seq<Field>): seq<UnknownField> {
    if fields == [] then [] else
    var first := if fields[0].Unknown? then [fields[0].unknown] else [];
    first + UnknownsOf(fields[1..])
  }

  lemma {:induction false} ScalarOfConcat(a: seq<Field>, b: seq<Field>, number: nat)
    ensures ScalarOf(a + b, number) == Or(ScalarOf(a, number), ScalarOf(b, number))
  {
    if a == [] {
      assert a + b == b;
    } else {
      assert (a + b)[1..] == a[1..] + b;
      ScalarOfConcat(a[1..], b, number);
    }
  }

  lemma {:induction false} ElementsOfConcat(a: seq<Field>, b: seq<Field>, number: nat)
    ensures ElementsOf(a + b, number) == ElementsOf(a, number) + ElementsOf(b, number)
  {
    if a == [] {
      assert a + b == b;
    } else {
      assert (a + b)[0] == a[0] && (a + b)[1..] == a[1..] + b;
      ElementsOfConcat(a[1..], b, number);
    }
  }

  lemma {:induction false} MessagesOfConcat(a: seq<Field>, b: seq<Field>, number: nat)
    ensures MessagesOf(a + b, number) == MessagesOf(a, number) + MessagesOf(b, number)
  {
    if a == [] {
      assert a + b == b;
    } else {
      assert (a + b)[0] == a[0] && (a + b)[1..] == a[1..] + b;
      MessagesOfConcat(a[1..], b, number);
    }
  }

  lemma {:induction false} UnknownsOfConcat(a: seq<Field>, b: seq<Field>)
    ensures UnknownsOf(a + b) == UnknownsOf(a) + UnknownsOf(b)
  {
    if a == [] {
      assert a + b == b;
    } else {
      assert (a + b)[0] == a[0] && (a + b)[1..] == a[1..] + b;
      UnknownsOfConcat(a[1..], b);
    }
  }

  lemma ObserveConcat(a: seq<Field>, b: seq<Field>, number: nat)
    ensures ScalarOf(a + b, number) == Or(ScalarOf(a, number), ScalarOf(b, number))
    ensures ElementsOf(a + b, number) == ElementsOf(a, number) + ElementsOf(b, number)
    ensures MessagesOf(a + b, number) == MessagesOf(a, number) + MessagesOf(b, number)
    ensures UnknownsOf(a + b) == UnknownsOf(a) + UnknownsOf(b)
  {
    ScalarOfConcat(a, b, number);
    ElementsOfConcat(a, b, number);
    MessagesOfConcat(a, b, number);
    UnknownsOfConcat(a, b);
  }

  lemma ObserveOne(f: Field, number: nat)
    ensures ScalarOf([f], number) == if f.Scalar? && f.number == number then Some(f.value) else None
    ensures ElementsOf([f], number) == if f.Elements? && f.number == number then f.values else []
    ensures MessagesOf([f], number) == if f.Message? && f.number == number then [f.fields] else []
    ensures UnknownsOf([f]) == if f.Unknown? then [f.unknown] else []
  {
    assert [f][1..] == [];
    assert ElementsOf([], number) == [] && MessagesOf([], number) == [] && UnknownsOf([]) == [];
    assert forall s: seq<nat> :: s + [] == s;
    assert forall s: seq<seq<Field>> :: s + [] == s;
    assert forall s: seq<UnknownField> :: s + [] == s;
  }

  lemma {:induction false} UnknownsCounted(fields: seq<Field>)
    ensures |UnknownsOf(fields)| == CountUnknown(fields)
  {
    if fields != [] {
      UnknownsCounted(fields[1..]);
    }
  }

  function UserFrameOf(fields: seq<Field>): UserFrame {
    UserFrame(ScalarOf(fields, 1), ElementsOf(fields, 2), UnknownsOf(fields))
  }

  function CSFrameOf(fields: seq<Field>): CSFrame {
    CSFrame(ScalarOf(fields, 1), ScalarOf(fields, 2), ElementsOf(fields, 3), UnknownsOf(fields))
  }

  function UserFramesOf(bodies: seq<seq<Field>>): seq<UserFrame> {
    seq(|bodies|, i requires 0 <= i < |bodies| => UserFrameOf(bodies[i]))
  }

  function SCFrameOf(fields: seq<Field>): SCFrame {
    SCFrame(ScalarOf(fields, 1), ScalarOf(fields, 2), UserFramesOf(MessagesOf(fields, 3)), UnknownsOf(fields))
  }

  function PlayerInfoOf(fields: seq<Field>): PlayerInfo {
    PlayerInfo(ScalarOf(fields, 1), ScalarOf(fields, 2), ScalarOf(fields, 3), ScalarOf(fields, 4), UnknownsOf(fields))
  }

  function PlayerInfosOf(bodies: seq<seq<Field>>): seq<PlayerInfo> {
    seq(|bodies|, i requires 0 <= i < |bodies| => PlayerInfoOf(bodies[i]))
  }

  function SCSightOf(fields: seq<Field>): SCSight {
    SCSight(PlayerInfosOf(MessagesOf(fields, 1)), UnknownsOf(fields))
  }

  // ---------------------------------------------------------------- parsing

  function ParseUserFrame(s: Bytes): Option<UserFrame> {
    match Parse(USER_FRAME_SCHEMA, s, RECURSION_LIMIT) case None => None case Some(fields) => Some(UserFrameOf(fields))
  }

  function ParseCSFrame(s: Bytes): Option<CSFrame> {
    match Parse(CS_FRAME_SCHEMA, s, RECURSION_LIMIT) case None => None case Some(fields) => Some(CSFrameOf(fields))
  }

  function ParseSCFrame(s: Bytes): Option<SCFrame> {
    match Parse(SC_FRAME_SCHEMA, s, RECURSION_LIMIT) case None => None case Some(fields) => Some(SCFrameOf(fields))
  }

  function ParseSCSight(s: Bytes): Option<SCSight> {
    match Parse(SC_SIGHT_SCHEMA, s, RECURSION_LIMIT) case None => None case Some(fields) => Some(SCSightOf(fields))
  }

  // ---------------------------------------------------------------- merging

  function MergeUserFrame(to: UserFrame, from: UserFrame): UserFrame {
    UserFrame(Or(to.uuid, from.uuid), to.keyInfo + from.keyInfo, to.unknown + from.unknown)
  }

  function MergeCSFrame(to: CSFrame, from: CSFrame): CSFrame {
    CSFrame(Or(to.uuid, from.uuid), Or(to.frameId, from.frameId), to.keyInfo + from.keyInfo, to.unknown + from.unknown)
  }

  function MergeSCFrame(to: SCFrame, from: SCFrame): SCFrame {
    SCFrame(Or(to.frameId, from.frameId), Or(to.nextFrameId, from.nextFrameId), to.users + from.users,
      to.unknown + from.unknown)
  }

  function MergePlayerInfo(to: PlayerInfo, from: PlayerInfo): PlayerInfo {
    PlayerInfo(Or(to.uuid, from.uuid), Or(to.posX, from.posX), Or(to.posY, from.posY),
      Or(to.posZ, from.posZ), to.unknown + from.unknown)
  }

  function MergeSCSight(to: SCSight, from: SCSight): SCSight {
    SCSight(to.players + from.players, to.unknown + from.unknown)
  }

  lemma OfConcat(a: seq<Field>, b: seq<Field>)
    ensures UserFrameOf(a + b) == MergeUserFrame(UserFrameOf(a), UserFrameOf(b))
    ensures CSFrameOf(a + b) == MergeCSFrame(CSFrameOf(a), CSFrameOf(b))
    ensures SCFrameOf(a + b) == MergeSCFrame(SCFrameOf(a), SCFrameOf(b))
    ensures SCSightOf(a + b) == MergeSCSight(SCSightOf(a), SCSightOf(b))
  {
    ObserveConcat(a, b, 1);
    ObserveConcat(a, b, 2);
    ObserveConcat(a, b, 3);
    assert UserFramesOf(MessagesOf(a, 3) + MessagesOf(b, 3)) ==
      UserFramesOf(MessagesOf(a, 3)) + UserFramesOf(MessagesOf(b, 3));
    assert PlayerInfosOf(MessagesOf(a, 1) + MessagesOf(b, 1)) ==
      PlayerInfosOf(MessagesOf(a, 1)) + PlayerInfosOf(MessagesOf(b, 1));
  }

  /** The facts every "last one wins" theorem below needs, for one message type. */
  lemma ConcatFacts(schema: Schema, a: Bytes, b: Bytes)
    requires WellFormed(schema) && Parse(schema, a, RECURSION_LIMIT).Some? && Parse(schema, b, RECURSION_LIMIT).Some?
    ensures Framed(schema, a, RECURSION_LIMIT) ==>
      Parse(schema, a + b, RECURSION_LIMIT) ==
        Some(Parse(schema, a, RECURSION_LIMIT).value + Parse(schema, b, RECURSION_LIMIT).value)
    ensures !Framed(schema, a, RECURSION_LIMIT) ==>
      && Parse(schema, STRAY, RECURSION_LIMIT) == Some([Unknown(Varint(15, 0))])
      && (Parse(schema, a + STRAY, RECURSION_LIMIT).Some? ==>
        |UnknownsOf(Parse(schema, a + STRAY, RECURSION_LIMIT).value)| ==
        |UnknownsOf(Parse(schema, a, RECURSION_LIMIT).value)|)
  {
    if Framed(schema, a, RECURSION_LIMIT) {
      ParseAppend(schema, a, b, RECURSION_LIMIT);
    } else {
      StrayIsOneUnknown(schema, RECURSION_LIMIT);
      UnframedSwallows(schema, a, RECURSION_LIMIT);
      UnknownsCounted(Parse(schema, a, RECURSION_LIMIT).value);
      if Parse(schema, a + STRAY, RECURSION_LIMIT).Some? {
        UnknownsCounted(Parse(schema, a + STRAY, RECURSION_LIMIT).value);
      }
    }
  }

  /** Concatenating encodings merges messages, for every continuation, exactly when no
      length prefix of the first encoding runs past its end. */
  lemma SCFrameConcatMergesIffFramed(a: Bytes)
    requires ParseSCFrame(a).Some?
    ensures Framed(SC_FRAME_SCHEMA, a, RECURSION_LIMIT) <==>
      forall b | ParseSCFrame(b).Some? ::
        ParseSCFrame(a + b) == Some(MergeSCFrame(ParseSCFrame(a).value, ParseSCFrame(b).value))
  {
    hide Parse, Framed;
    forall b | ParseSCFrame(b).Some? && Framed(SC_FRAME_SCHEMA, a, RECURSION_LIMIT)
      ensures ParseSCFrame(a + b) == Some(MergeSCFrame(ParseSCFrame(a).value, ParseSCFrame(b).value))
    {
      ConcatFacts(SC_FRAME_SCHEMA, a, b);
      OfConcat(Parse(SC_FRAME_SCHEMA, a, RECURSION_LIMIT).value, Parse(SC_FRAME_SCHEMA, b, RECURSION_LIMIT).value);
    }
    if !Framed(SC_FRAME_SCHEMA, a, RECURSION_LIMIT) {
      ConcatFacts(SC_FRAME_SCHEMA, a, a);
      assert ParseSCFrame(STRAY).Some? && |ParseSCFrame(STRAY).value.unknown| == 1;
    }
  }

  lemma CSFrameConcatMergesIffFramed(a: Bytes)
    requires ParseCSFrame(a).Some?
    ensures Framed(CS_FRAME_SCHEMA, a, RECURSION_LIMIT) <==>
      forall b | ParseCSFrame(b).Some? ::
        ParseCSFrame(a + b) == Some(MergeCSFrame(ParseCSFrame(a).value, ParseCSFrame(b).value))
  {
    hide Parse, Framed;
    forall b | ParseCSFrame(b).Some? && Framed(CS_FRAME_SCHEMA, a, RECURSION_LIMIT)
      ensures ParseCSFrame(a + b) == Some(MergeCSFrame(ParseCSFrame(a).value, ParseCSFrame(b).value))
    {
      ConcatFacts(CS_FRAME_SCHEMA, a, b);
      OfConcat(Parse(CS_FRAME_SCHEMA, a, RECURSION_LIMIT).value, Parse(CS_FRAME_SCHEMA, b, RECURSION_LIMIT).value);
    }
    if !Framed(CS_FRAME_SCHEMA, a, RECURSION_LIMIT) {
      ConcatFacts(CS_FRAME_SCHEMA, a, a);
      assert ParseCSFrame(STRAY).Some? && |ParseCSFrame(STRAY).value.unknown| == 1;
    }
  }

  lemma UserFrameConcatMergesIffFramed(a: Bytes)
    requires ParseUserFrame(a).Some?
    ensures Framed(USER_FRAME_SCHEMA, a, RECURSION_LIMIT) <==>
      forall b | ParseUserFrame(b).Some? ::
        ParseUserFrame(a + b) == Some(MergeUserFrame(ParseUserFrame(a).value, ParseUserFrame(b).value))
  {
    hide Parse, Framed;
    forall b | ParseUserFrame(b).Some? && Framed(USER_FRAME_SCHEMA, a, RECURSION_LIMIT)
      ensures ParseUserFrame(a + b) == Some(MergeUserFrame(ParseUserFrame(a).value, ParseUserFrame(b).value))
    {
      ConcatFacts(USER_FRAME_SCHEMA, a, b);
      OfConcat(Parse(USER_FRAME_SCHEMA, a, RECURSION_LIMIT).value, Parse(USER_FRAME_SCHEMA, b, RECURSION_LIMIT).value);
    }
    if !Framed(USER_FRAME_SCHEMA, a, RECURSION_LIMIT) {
      ConcatFacts(USER_FRAME_SCHEMA, a, a);
      assert ParseUserFrame(STRAY).Some? && |ParseUserFrame(STRAY).value.unknown| == 1;
    }
  }

  lemma SCSightConcatMergesIffFramed(a: Bytes)
    requires ParseSCSight(a).Some?
    ensures Framed(SC_SIGHT_SCHEMA, a, RECURSION_LIMIT) <==>
      forall b | ParseSCSight(b).Some? ::
        ParseSCSight(a + b) == Some(MergeSCSight(ParseSCSight(a).value, ParseSCSight(b).value))
  {
    hide Parse, Framed;
    forall b | ParseSCSight(b).Some? && Framed(SC_SIGHT_SCHEMA, a, RECURSION_LIMIT)
      ensures ParseSCSight(a + b) == Some(MergeSCSight(ParseSCSight(a).value, ParseSCSight(b).value))
    {
      ConcatFacts(SC_SIGHT_SCHEMA, a, b);
      OfConcat(Parse(SC_SIGHT_SCHEMA, a, RECURSION_LIMIT).value, Parse(SC_SIGHT_SCHEMA, b, RECURSION_LIMIT).value);
    }
    if !Framed(SC_SIGHT_SCHEMA, a, RECURSION_LIMIT) {
      ConcatFacts(SC_SIGHT_SCHEMA, a, a);
      assert ParseSCSight(STRAY).Some? && |ParseSCSight(STRAY).value.unknown| == 1;
    }
  }
}
