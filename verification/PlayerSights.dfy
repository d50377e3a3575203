/** The generated sight message and the players in it: positions of eight bytes each, and a
    cached size for every nested player. */
module PlayerSights {
  import opened Options
  import opened Wire
  import opened WireLaws
  import V = PlayerValues
  import opened PlayerRoundTrip
  import opened CodedStreams
  import opened OutputStreams
  import opened PlayerMessages
  import opened Numbers

  // ---------------------------------------------------------------- PlayerInfo

  const NO_PLAYER: V.PlayerInfo := V.PlayerInfo(None, None, None, None, [])

  lemma PlayerInfoMore(base: V.PlayerInfo, done: seq<Field>, more: seq<Field>)
    ensures V.MergePlayerInfo(base, V.PlayerInfoOf(done + more)) ==
      V.MergePlayerInfo(V.MergePlayerInfo(base, V.PlayerInfoOf(done)), V.PlayerInfoOf(more))
  {
    V.ObserveConcat(done, more, 1);
    V.ObserveConcat(done, more, 2);
    V.ObserveConcat(done, more, 3);
    V.ObserveConcat(done, more, 4);
    var a, b := V.PlayerInfoOf(done), V.PlayerInfoOf(more);
    assert base.unknown + (a.unknown + b.unknown) == (base.unknown + a.unknown) + b.unknown;
  }

  lemma PlayerInfoMergeNothing(m: V.PlayerInfo)
    ensures V.MergePlayerInfo(m, V.PlayerInfoOf([])) == m && V.MergePlayerInfo(NO_PLAYER, m) == m
  {
    assert m.unknown + [] == m.unknown && [] + m.unknown == m.unknown;
  }

  function ScalarIf(f: Field, number: nat): Option<nat> {
    if f.Scalar? && f.number == number then Some(f.value) else None
  }

  lemma PlayerInfoOfOne(f: Field)
    ensures V.PlayerInfoOf([f]) == V.PlayerInfo(ScalarIf(f, 1), ScalarIf(f, 2), ScalarIf(f, 3), ScalarIf(f, 4),
      if f.Unknown? then [f.unknown] else [])
  {
    V.ObserveOne(f, 1);
    V.ObserveOne(f, 2);
    V.ObserveOne(f, 3);
    V.ObserveOne(f, 4);
  }

  method ReadDoubleField(input: CodedInput, tag: nat, ghost number: nat, ghost schema: Schema, ghost p: Place)
    returns (ok: bool, v: nat, ghost more: seq<Field>)
    requires input.Valid() && !input.legitimateEnd && WellFormed(schema) && AtTag(schema, p, tag, input.Rest())
    requires tag in schema.actions && schema.actions[tag] == ReadDouble(number)
    modifies input
    ensures Moved(schema, p, input, ok, more) && more == [Scalar(number, v)]
  {
    ParsingField(schema, p.all, p.before, tag, input.Rest(), p.done, p.depth);
    ok, v := input.ReadLittleEndian(8);
    more := [Scalar(number, v)];
  }

  predicate PlayerInRange(v: V.PlayerInfo) {
    Below(v.uuid, TWO_TO_32) && forall u | u in v.unknown :: Representable(u, V.RECURSION_LIMIT)
  }

  lemma AppendFive(s: Bytes, a: Bytes, b: Bytes, c: Bytes, d: Bytes, e: Bytes)
    ensures s + (a + b + c + d + e) == s + a + b + c + d + e
  {
  }

  class PlayerInfo {
    var hasUuid: bool
    var uuid: nat
    var hasPosX: bool
    var posX: nat
    var hasPosY: bool
    var posY: nat
    var hasPosZ: bool
    var posZ: nat
    var unknown: seq<UnknownField>
    var cachedSize: nat

    function Value(): V.PlayerInfo
      reads this
    {
      V.PlayerInfo(if hasUuid then Some(uuid) else None, if hasPosX then Some(posX) else None,
        if hasPosY then Some(posY) else None, if hasPosZ then Some(posZ) else None, unknown)
    }

    constructor ()
      ensures Value() == NO_PLAYER
    {
      hasUuid, hasPosX, hasPosY, hasPosZ := false, false, false, false;
      uuid, posX, posY, posZ, unknown, cachedSize := 0, 0, 0, 0, [], 0;
    }

    constructor From(v: V.PlayerInfo)
      ensures Value() == v && (PlayerInRange(v) ==> InRange())
    {
      hasUuid, hasPosX, hasPosY, hasPosZ := v.uuid.Some?, v.posX.Some?, v.posY.Some?, v.posZ.Some?;
      uuid := if v.uuid.Some? then v.uuid.value else 0;
      posX := if v.posX.Some? then v.posX.value else 0;
      posY := if v.posY.Some? then v.posY.value else 0;
      posZ := if v.posZ.Some? then v.posZ.value else 0;
      unknown, cachedSize := v.unknown, 0;
    }

    method Clear()
      modifies this
      ensures Value() == NO_PLAYER
    {
      if hasUuid || hasPosX || hasPosY || hasPosZ {
        posX, posY, posZ, uuid := 0, 0, 0, 0;
      }
      hasUuid, hasPosX, hasPosY, hasPosZ, unknown := false, false, false, false, [];
    }

    method MergeUuid(input: CodedInput, ghost p: Place) returns (ok: bool, ghost more: seq<Field>)
      requires input.Valid() && !input.legitimateEnd
      requires AtTag(V.PLAYER_INFO_SCHEMA, p, 8, input.Rest()) && p.depth == input.budget
      modifies this, input
      ensures Moved(V.PLAYER_INFO_SCHEMA, p, input, ok, more)
      ensures ok ==> Value() == V.MergePlayerInfo(old(Value()), V.PlayerInfoOf(more))
    {
      hide Parse;
      hasUuid := true;
      var v;
      ok, v, more := ReadScalarField(input, false, 8, 1, V.PLAYER_INFO_SCHEMA, p);
      uuid := v;
      PlayerInfoOfOne(Scalar(1, v));
    }

    /** One of the three coordinates: the tag says which. */
    method MergePosition(input: CodedInput, tag: nat, ghost p: Place) returns (ok: bool, ghost more: seq<Field>)
      requires input.Valid() && !input.legitimateEnd && (tag == 17 || tag == 25 || tag == 33)
      requires AtTag(V.PLAYER_INFO_SCHEMA, p, tag, input.Rest()) && p.depth == input.budget
      modifies this, input
      ensures Moved(V.PLAYER_INFO_SCHEMA, p, input, ok, more)
      ensures ok ==> Value() == V.MergePlayerInfo(old(Value()), V.PlayerInfoOf(more))
    {
      hide Parse;
      var v;
      ghost var number := if tag == 17 then 2 else if tag == 25 then 3 else 4;
      ok, v, more := ReadDoubleField(input, tag, number, V.PLAYER_INFO_SCHEMA, p);
      PlayerInfoOfOne(Scalar(number, v));
      assert unknown + [] == unknown;
      if tag == 17 {
        hasPosX, posX := true, v;
      } else if tag == 25 {
        hasPosY, posY := true, v;
      } else {
        hasPosZ, posZ := true, v;
      }
    }

    method MergeUnknown(input: CodedInput, tag: nat, ghost p: Place) returns (ok: bool, ghost more: seq<Field>)
      requires input.Valid() && !input.legitimateEnd && tag !in V.PLAYER_INFO_SCHEMA.actions
      requires AtTag(V.PLAYER_INFO_SCHEMA, p, tag, input.Rest()) && p.depth == input.budget
      modifies this, input
      ensures Moved(V.PLAYER_INFO_SCHEMA, p, input, ok, more)
      ensures ok ==> Value() == V.MergePlayerInfo(old(Value()), V.PlayerInfoOf(more))
    {
      hide Parse;
      var field;
      ok, field, more := ReadUnknownField(input, tag, V.PLAYER_INFO_SCHEMA, p);
      unknown := unknown + [field];
      PlayerInfoOfOne(Unknown(field));
    }

    method MergeField(input: CodedInput, tag: nat, low: bool, ghost p: Place)
      returns (ok: bool, ghost more: seq<Field>)
      requires input.Valid() && !input.legitimateEnd && (low <==> 1 <= tag <= 127)
      requires AtTag(V.PLAYER_INFO_SCHEMA, p, tag, input.Rest()) && p.depth == input.budget
      modifies this, input
      ensures Moved(V.PLAYER_INFO_SCHEMA, p, input, ok, more)
      ensures ok ==> Value() == V.MergePlayerInfo(old(Value()), V.PlayerInfoOf(more))
    {
      hide Parse;
      if low && tag == 8 {
        ok, more := MergeUuid(input, p);
      } else if low && (tag == 17 || tag == 25 || tag == 33) {
        ok, more := MergePosition(input, tag, p);
      } else {
        ok, more := MergeUnknown(input, tag, p);
      }
    }

    method MergePartialFromCodedStream(input: CodedInput) returns (ok: bool)
      requires input.Valid() && !input.legitimateEnd
      modifies this, input
      ensures input.Valid() && input.pos >= old(input.pos)
      ensures ok ==> input.limit == old(input.limit)
      ensures ok && input.legitimateEnd <==> Parse(V.PLAYER_INFO_SCHEMA, old(input.Rest()), old(input.budget)).Some?
      ensures ok && input.legitimateEnd ==>
        && Value() == V.MergePlayerInfo(old(Value()),
             V.PlayerInfoOf(Parse(V.PLAYER_INFO_SCHEMA, old(input.Rest()), old(input.budget)).value))
        && input.pos == input.limit == old(input.limit) && input.budget == old(input.budget)
    {
      ghost var all, done, base, depth := input.Rest(), [], Value(), input.budget;
      ParsingStarts(V.PLAYER_INFO_SCHEMA, all, depth);
      PlayerInfoMergeNothing(base);
      while true
        invariant input.Valid() && input.pos >= old(input.pos) && !input.legitimateEnd
        invariant input.limit == old(input.limit) && input.budget == depth
        invariant Parsing(V.PLAYER_INFO_SCHEMA, all, input.Rest(), done, depth)
        invariant Value() == V.MergePlayerInfo(base, V.PlayerInfoOf(done))
        decreases input.limit - input.pos
      {
        ghost var before := input.Rest();
        ParsingEnds(V.PLAYER_INFO_SCHEMA, all, before, done, depth);
        var tag, low := input.ReadTag();
        if tag == 0 {
          return true;
        }
        ghost var more;
        ok, more := MergeField(input, tag, low, Place(all, before, done, depth));
        if !ok {
          return false;
        }
        PlayerInfoMore(base, done, more);
        done := done + more;
      }
    }

    method MergeFrom(from: PlayerInfo)
      requires from != this
      modifies this
      ensures Value() == V.MergePlayerInfo(old(Value()), from.Value())
    {
      unknown := unknown + from.unknown;
      MergePositions(from);
      if from.hasUuid {
        hasUuid, uuid := true, from.uuid;
      }
    }

    method MergePositions(from: PlayerInfo)
      requires from != this
      modifies this`hasPosX, this`posX, this`hasPosY, this`posY, this`hasPosZ, this`posZ
      ensures Value().posX == V.Or(old(Value()).posX, from.Value().posX)
      ensures Value().posY == V.Or(old(Value()).posY, from.Value().posY)
      ensures Value().posZ == V.Or(old(Value()).posZ, from.Value().posZ)
    {
      if from.hasPosX {
        hasPosX, posX := true, from.posX;
      }
      if from.hasPosY {
        hasPosY, posY := true, from.posY;
      }
      if from.hasPosZ {
        hasPosZ, posZ := true, from.posZ;
      }
    }

    ghost predicate InRange()
      reads this
    {
      uuid < TWO_TO_32 && forall u | u in unknown :: Representable(u, V.RECURSION_LIMIT)
    }

    /** A coordinate takes nine bytes wherever it is. */
    method ByteSizeLong() returns (total: nat)
      requires InRange()
      modifies this`cachedSize
      ensures total == |WritePlayerInfo(Value())| && cachedSize == total
      ensures Value() == old(Value()) && InRange()
    {
      UnknownsSizeIsLength(unknown, V.RECURSION_LIMIT);
      total := UnknownsSize(unknown);
      if hasPosX {
        total := total + 1 + 8;
      }
      if hasPosY {
        total := total + 1 + 8;
      }
      if hasPosZ {
        total := total + 1 + 8;
      }
      if hasUuid {
        VarintSizeIsLength(uuid);
        total := total + 1 + VarintSize(uuid);
      }
      cachedSize := total;
    }

    method SerializeWithCachedSizes(output: CodedOutput)
      modifies output
      ensures output.bytes == old(output.bytes) + WritePlayerInfo(Value())
    {
      hide EncodeFixed, EncodeVarint;
      output.WriteOptionalScalar(8, hasUuid, uuid);
      output.WriteOptionalDoubleOf(17, hasPosX, posX);
      output.WriteOptionalDoubleOf(25, hasPosY, posY);
      output.WriteOptionalDoubleOf(33, hasPosZ, posZ);
      output.WriteUnknowns(unknown);
      AppendFive(old(output.bytes), WriteOptional(8, Value().uuid), WriteOptionalDouble(17, Value().posX),
        WriteOptionalDouble(25, Value().posY), WriteOptionalDouble(33, Value().posZ), EncodeUnknowns(unknown));
    }

    method InternalSerializeToArray(target: array<Byte>, from: nat, ghost start: Bytes, ghost at: nat, ghost w: Bytes)
      returns (next: nat)
      requires Written(target, start, at, w) && from == at + |w| && from + |WritePlayerInfo(Value())| <= target.Length
      modifies target
      ensures next == from + |WritePlayerInfo(Value())| && Written(target, start, at, w + WritePlayerInfo(Value()))
    {
      hide EncodeFixed, EncodeVarint, WriteOptional, WriteOptionalDouble;
      ghost var a, b := WriteOptional(8, Value().uuid), WriteOptionalDouble(17, Value().posX);
      ghost var c, d := WriteOptionalDouble(25, Value().posY), WriteOptionalDouble(33, Value().posZ);
      AppendFive(w, a, b, c, d, EncodeUnknowns(unknown));
      next := WriteOptionalToArray(8, hasUuid, uuid, target, from, start, at, w);
      next := WriteOptionalDoubleToArray(17, hasPosX, posX, target, next, start, at, w + a);
      next := WriteOptionalDoubleToArray(25, hasPosY, posY, target, next, start, at, w + a + b);
      next := WriteOptionalDoubleToArray(33, hasPosZ, posZ, target, next, start, at, w + a + b + c);
      next := WriteUnknownsToArray(unknown, target, next, start, at, w + a + b + c + d);
    }
  }

  // ---------------------------------------------------------------- SCSight

  /** A player owned by its message, with the size last computed for it. */
  datatype OwnedPlayer = OwnedPlayer(value: V.PlayerInfo, cachedSize: nat)

  function Players(players: seq<OwnedPlayer>): (values: seq<V.PlayerInfo>)
    ensures |values| == |players|
  {
    seq(|players|, i requires 0 <= i < |players| => players[i].value)
  }

  lemma SCSightMore(base: V.SCSight, done: seq<Field>, more: seq<Field>)
    ensures V.MergeSCSight(base, V.SCSightOf(done + more)) ==
      V.MergeSCSight(V.MergeSCSight(base, V.SCSightOf(done)), V.SCSightOf(more))
  {
    V.OfConcat(done, more);
    var a, b := V.SCSightOf(done), V.SCSightOf(more);
    assert base.players + (a.players + b.players) == (base.players + a.players) + b.players;
    assert base.unknown + (a.unknown + b.unknown) == (base.unknown + a.unknown) + b.unknown;
  }

  lemma SCSightMergeNothing(m: V.SCSight)
    ensures V.MergeSCSight(m, V.SCSightOf([])) == m && V.MergeSCSight(V.SCSight([], []), m) == m
  {
    assert V.PlayerInfosOf([]) == [];
    assert m.players + [] == m.players && m.unknown + [] == m.unknown;
    assert [] + m.players == m.players && [] + m.unknown == m.unknown;
  }

  lemma SCSightOfOne(f: Field)
    ensures V.SCSightOf([f]) == V.SCSight(
      if f.Message? && f.number == 1 then [V.PlayerInfoOf(f.fields)] else [], if f.Unknown? then [f.unknown] else [])
  {
    V.ObserveOne(f, 1);
    assert V.PlayerInfosOf([]) == [];
    if f.Message? {
      assert V.PlayerInfosOf([f.fields]) == [V.PlayerInfoOf(f.fields)];
    }
  }

  /** A nested player: its own limit and one level of the recursion budget. */
  method ReadPlayer(input: CodedInput, player: PlayerInfo) returns (ok: bool)
    requires input.Valid() && !input.legitimateEnd && player.Value() == NO_PLAYER
    modifies input, player
    ensures input.Valid() && input.pos >= old(input.pos)
    ensures var r := ReadKnown(ReadMessage(1, V.PLAYER_INFO_SCHEMA), old(input.Rest()), old(input.budget));
      && ok == r.Got?
      && (ok ==> input.Rest() == r.rest && player.Value() == V.PlayerInfoOf(r.value.fields))
    ensures ok ==> input.limit == old(input.limit) && input.budget == old(input.budget) && !input.legitimateEnd
  {
    hide Parse, V.MergePlayerInfo, V.PlayerInfoOf;
    var length;
    ok, length := input.ReadVarintSizeAsInt();
    if !ok {
      return;
    }
    ghost var after := input.Rest();
    var oldLimit := input.PushLimit(length);
    if input.budget == 0 {
      return false;
    }
    input.budget := input.budget - 1;
    ok := player.MergePartialFromCodedStream(input);
    if !ok {
      return;
    }
    ok := input.legitimateEnd;
    if ok {
      ghost var body := after[..Min(length, |after|)];
      PlayerInfoMergeNothing(V.PlayerInfoOf(Parse(V.PLAYER_INFO_SCHEMA, body, input.budget).value));
    }
    input.PopLimit(oldLimit);
    input.budget := input.budget + 1;
    assert ok ==> input.Rest() == after[Min(length, |after|)..];
  }

  method PlayerSize(v: V.PlayerInfo) returns (size: nat)
    requires PlayerInRange(v) && |WritePlayerInfo(v)| < TWO_TO_31
    ensures size == |WritePlayerInfo(v)|
    ensures VarintSize(size) + size + 1 == |WriteBody(10, WritePlayerInfo(v))|
  {
    hide WritePlayerInfo;
    var player := new PlayerInfo.From(v);
    size := player.ByteSizeLong();
    VarintSizeIsLength(size);
  }

  method WritePlayer(p: OwnedPlayer, output: CodedOutput)
    requires p.cachedSize == |WritePlayerInfo(p.value)|
    modifies output
    ensures output.bytes == old(output.bytes) + WriteBody(10, WritePlayerInfo(p.value))
  {
    hide WritePlayerInfo;
    var player := new PlayerInfo.From(p.value);
    output.WriteScalar(10, p.cachedSize);
    player.SerializeWithCachedSizes(output);
  }

  method WritePlayerToArray(p: OwnedPlayer, target: array<Byte>, from: nat,
      ghost start: Bytes, ghost at: nat, ghost w: Bytes)
    returns (next: nat)
    requires p.cachedSize == |WritePlayerInfo(p.value)| && Written(target, start, at, w) && from == at + |w|
    requires from + |WriteBody(10, WritePlayerInfo(p.value))| <= target.Length
    modifies target
    ensures next == from + |WriteBody(10, WritePlayerInfo(p.value))|
    ensures Written(target, start, at, w + WriteBody(10, WritePlayerInfo(p.value)))
  {
    hide WritePlayerInfo;
    var player := new PlayerInfo.From(p.value);
    ghost var head := [10] + EncodeVarint(p.cachedSize);
    next := WriteScalarToArray(10, p.cachedSize, target, from, start, at, w);
    next := player.InternalSerializeToArray(target, next, start, at, w + head);
    assert (w + head) + WritePlayerInfo(p.value) == w + WriteBody(10, WritePlayerInfo(p.value));
  }

  ghost predicate PlayersSized(players: seq<OwnedPlayer>) {
    forall i | 0 <= i < |players| :: players[i].cachedSize == |WritePlayerInfo(players[i].value)|
  }

  /** The bytes of the first `n` players. */
  ghost function WrittenPlayers(players: seq<OwnedPlayer>, n: nat): Bytes
    requires n <= |players|
  {
    if n == 0 then [] else WrittenPlayers(players, n - 1) + WriteBody(10, WritePlayerInfo(players[n - 1].value))
  }

  lemma {:induction false} WritePlayerInfosSnoc(players: seq<V.PlayerInfo>, player: V.PlayerInfo)
    ensures WritePlayerInfos(players + [player]) == WritePlayerInfos(players) + WriteBody(10, WritePlayerInfo(player))
  {
    hide WritePlayerInfo, WriteBody;
    if players == [] {
      assert players + [player] == [player] && [player][1..] == [];
    } else {
      assert (players + [player])[1..] == players[1..] + [player];
      WritePlayerInfosSnoc(players[1..], player);
    }
  }

  lemma {:induction false} WrittenPlayersAre(players: seq<OwnedPlayer>, n: nat)
    requires n <= |players|
    ensures WrittenPlayers(players, n) == WritePlayerInfos(Players(players)[..n])
  {
    hide WritePlayerInfo, WriteBody;
    if n > 0 {
      WrittenPlayersAre(players, n - 1);
      var values := Players(players);
      WritePlayerInfosSnoc(values[..n - 1], values[n - 1]);
      assert values[..n] == values[..n - 1] + [values[n - 1]];
    }
  }

  lemma AllPlayersWritten(players: seq<OwnedPlayer>)
    ensures WrittenPlayers(players, |players|) == WritePlayerInfos(Players(players))
  {
    WrittenPlayersAre(players, |players|);
    assert Players(players)[..|players|] == Players(players);
  }

  lemma {:induction false} WrittenPlayersGrow(players: seq<OwnedPlayer>, n: nat)
    requires n <= |players|
    ensures |WrittenPlayers(players, n)| <= |WrittenPlayers(players, |players|)|
    decreases |players| - n
  {
    hide WritePlayerInfo, WriteBody;
    if n < |players| {
      WrittenPlayersGrow(players, n + 1);
    }
  }

  lemma NextPlayerWritten(w: Bytes, players: seq<OwnedPlayer>, n: nat)
    requires n < |players|
    ensures w + WrittenPlayers(players, n + 1) ==
      (w + WrittenPlayers(players, n)) + WriteBody(10, WritePlayerInfo(players[n].value))
    ensures |WrittenPlayers(players, n + 1)| ==
      |WrittenPlayers(players, n)| + |WriteBody(10, WritePlayerInfo(players[n].value))|
  {
    hide WritePlayerInfo, WriteBody;
    var before, body := WrittenPlayers(players, n), WriteBody(10, WritePlayerInfo(players[n].value));
    assert WrittenPlayers(players, n + 1) == before + body;
    assert w + (before + body) == (w + before) + body;
  }

  /** Each length prefix is the player's cached size. */
  method WritePlayers(players: seq<OwnedPlayer>, output: CodedOutput)
    requires PlayersSized(players)
    modifies output
    ensures output.bytes == old(output.bytes) + WritePlayerInfos(Players(players))
  {
    hide WritePlayerInfo, WriteBody;
    for i := 0 to |players|
      invariant output.bytes == old(output.bytes) + WrittenPlayers(players, i)
    {
      NextPlayerWritten(old(output.bytes), players, i);
      WritePlayer(players[i], output);
    }
    AllPlayersWritten(players);
  }

  method WritePlayersToArray(players: seq<OwnedPlayer>, target: array<Byte>, from: nat,
      ghost start: Bytes, ghost at: nat, ghost w: Bytes)
    returns (next: nat)
    requires PlayersSized(players) && Written(target, start, at, w) && from == at + |w|
    requires from + |WritePlayerInfos(Players(players))| <= target.Length
    modifies target
    ensures next == from + |WritePlayerInfos(Players(players))|
    ensures Written(target, start, at, w + WritePlayerInfos(Players(players)))
  {
    hide WritePlayerInfo, WriteBody;
    AllPlayersWritten(players);
    next := from;
    for i := 0 to |players|
      invariant Written(target, start, at, w + WrittenPlayers(players, i))
      invariant next == from + |WrittenPlayers(players, i)|
    {
      WrittenPlayersGrow(players, i + 1);
      NextPlayerWritten(w, players, i);
      next := WritePlayerToArray(players[i], target, next, start, at, w + WrittenPlayers(players, i));
    }
  }

  class SCSight {
    var players: seq<OwnedPlayer>
    var unknown: seq<UnknownField>
    var cachedSize: nat

    ghost function Value(): V.SCSight
      reads this
    {
      V.SCSight(Players(players), unknown)
    }

    constructor ()
      ensures Value() == V.SCSight([], [])
    {
      players, unknown, cachedSize := [], [], 0;
    }

    method Clear()
      modifies this
      ensures Value() == V.SCSight([], [])
    {
      players, unknown := [], [];
    }

    method MergePlayer(input: CodedInput, ghost p: Place) returns (ok: bool, ghost more: seq<Field>)
      requires input.Valid() && !input.legitimateEnd
      requires AtTag(V.SC_SIGHT_SCHEMA, p, 10, input.Rest()) && p.depth == input.budget
      modifies this, input
      ensures Moved(V.SC_SIGHT_SCHEMA, p, input, ok, more)
      ensures ok ==> Value() == V.MergeSCSight(old(Value()), V.SCSightOf(more))
    {
      hide Parse;
      ParsingField(V.SC_SIGHT_SCHEMA, p.all, p.before, 10, input.Rest(), p.done, p.depth);
      ghost var r := ReadKnown(ReadMessage(1, V.PLAYER_INFO_SCHEMA), input.Rest(), p.depth);
      ghost var was := Players(players);
      var player := new PlayerInfo();
      ok := ReadPlayer(input, player);
      players := players + [OwnedPlayer(player.Value(), 0)];
      more := [];
      if ok {
        more := [r.value];
        SCSightOfOne(r.value);
        assert Players(players) == was + [V.PlayerInfoOf(r.value.fields)];
      }
    }

    method MergeUnknown(input: CodedInput, tag: nat, ghost p: Place) returns (ok: bool, ghost more: seq<Field>)
      requires input.Valid() && !input.legitimateEnd && tag !in V.SC_SIGHT_SCHEMA.actions
      requires AtTag(V.SC_SIGHT_SCHEMA, p, tag, input.Rest()) && p.depth == input.budget
      modifies this, input
      ensures Moved(V.SC_SIGHT_SCHEMA, p, input, ok, more)
      ensures ok ==> Value() == V.MergeSCSight(old(Value()), V.SCSightOf(more))
    {
      hide Parse;
      var field;
      ok, field, more := ReadUnknownField(input, tag, V.SC_SIGHT_SCHEMA, p);
      unknown := unknown + [field];
      SCSightOfOne(Unknown(field));
    }

    method MergePartialFromCodedStream(input: CodedInput) returns (ok: bool)
      requires input.Valid() && !input.legitimateEnd
      modifies this, input
      ensures input.Valid() && input.pos >= old(input.pos)
      ensures ok ==> input.limit == old(input.limit)
      ensures ok && input.legitimateEnd <==> Parse(V.SC_SIGHT_SCHEMA, old(input.Rest()), old(input.budget)).Some?
      ensures ok && input.legitimateEnd ==>
        && Value() == V.MergeSCSight(old(Value()),
             V.SCSightOf(Parse(V.SC_SIGHT_SCHEMA, old(input.Rest()), old(input.budget)).value))
        && input.pos == input.limit == old(input.limit) && input.budget == old(input.budget)
    {
      ghost var all, done, base, depth := input.Rest(), [], Value(), input.budget;
      ParsingStarts(V.SC_SIGHT_SCHEMA, all, depth);
      SCSightMergeNothing(base);
      while true
        invariant input.Valid() && input.pos >= old(input.pos) && !input.legitimateEnd
        invariant input.limit == old(input.limit) && input.budget == depth
        invariant Parsing(V.SC_SIGHT_SCHEMA, all, input.Rest(), done, depth)
        invariant Value() == V.MergeSCSight(base, V.SCSightOf(done))
        decreases input.limit - input.pos
      {
        ghost var before := input.Rest();
        ParsingEnds(V.SC_SIGHT_SCHEMA, all, before, done, depth);
        var tag, low := input.ReadTag();
        if tag == 0 {
          return true;
        }
        ghost var more;
        if low && tag == 10 {
          ok, more := MergePlayer(input, Place(all, before, done, depth));
        } else {
          ok, more := MergeUnknown(input, tag, Place(all, before, done, depth));
        }
        if !ok {
          return false;
        }
        SCSightMore(base, done, more);
        done := done + more;
      }
    }

    method ParseFromArray(data: Bytes) returns (ok: bool)
      modifies this
      ensures ok <==> V.ParseSCSight(data).Some?
      ensures ok ==> Value() == V.ParseSCSight(data).value
    {
      var input := new CodedInput(data);
      Clear();
      ok := MergePartialFromCodedStream(input);
      ok := ok && input.legitimateEnd;
      if ok {
        SCSightMergeNothing(V.ParseSCSight(data).value);
      }
    }

    /** Copies the players one by one. */
    method MergeFrom(from: SCSight)
      requires from != this
      modifies this
      ensures Value() == V.MergeSCSight(old(Value()), from.Value())
    {
      unknown := unknown + from.unknown;
      for i := 0 to |from.players|
        invariant unknown == old(unknown) + from.unknown
        invariant Players(players) == Players(old(players)) + Players(from.players[..i])
      {
        ghost var before := players;
        var player := new PlayerInfo();
        var other := new PlayerInfo.From(from.players[i].value);
        player.MergeFrom(other);
        PlayerInfoMergeNothing(from.players[i].value);
        players := players + [OwnedPlayer(player.Value(), 0)];
        assert Players(players) == Players(before) + [from.players[i].value];
        assert Players(from.players[..i + 1]) == Players(from.players[..i]) + [from.players[i].value];
      }
      assert from.players[..|from.players|] == from.players;
    }

    ghost predicate InRange()
      reads this
    {
      && (forall i | 0 <= i < |players| ::
        PlayerInRange(players[i].value) && |WritePlayerInfo(players[i].value)| < TWO_TO_31)
      && (forall u | u in unknown :: Representable(u, V.RECURSION_LIMIT))
    }

    /** Every nested size has been cached, and is right. */
    ghost predicate Sized()
      reads this
    {
      PlayersSized(players)
    }

    /** Tags, length prefixes and players; caches each player's size. */
    method PlayersSize() returns (total: nat)
      requires InRange()
      modifies this`players
      ensures total == |WritePlayerInfos(Players(players))| && Players(players) == old(Players(players)) && Sized()
    {
      hide WritePlayerInfo;
      ghost var was := players;
      total := |players|;
      for i := 0 to |players|
        invariant |players| == |was| && forall j | 0 <= j < |players| :: players[j].value == was[j].value
        invariant forall j | 0 <= j < i :: players[j].cachedSize == |WritePlayerInfo(was[j].value)|
        invariant total == |players| - i + |WrittenPlayers(was, i)|
      {
        var size := PlayerSize(players[i].value);
        NextPlayerWritten([], was, i);
        players := players[i := OwnedPlayer(players[i].value, size)];
        total := total + VarintSize(size) + size;
      }
      AllPlayersWritten(was);
      assert Players(players) == Players(was);
    }

    method ByteSizeLong() returns (total: nat)
      requires InRange()
      modifies this`cachedSize, this`players
      ensures total == |WriteSCSight(Value())| && cachedSize == total && Sized()
      ensures Value() == old(Value())
    {
      hide WritePlayerInfo, WriteBody;
      UnknownsSizeIsLength(unknown, V.RECURSION_LIMIT);
      total := PlayersSize();
      total := total + UnknownsSize(unknown);
      cachedSize := total;
    }

    method SerializeWithCachedSizes(output: CodedOutput)
      requires Sized()
      modifies output
      ensures output.bytes == old(output.bytes) + WriteSCSight(Value())
    {
      hide WritePlayerInfos, EncodeUnknowns;
      WritePlayers(players, output);
      output.WriteUnknowns(unknown);
    }

    method InternalSerializeToArray(target: array<Byte>, from: nat, ghost start: Bytes, ghost at: nat, ghost w: Bytes)
      returns (next: nat)
      requires Sized() && Written(target, start, at, w) && from == at + |w| &&
        from + |WriteSCSight(Value())| <= target.Length
      modifies target
      ensures next == from + |WriteSCSight(Value())| && Written(target, start, at, w + WriteSCSight(Value()))
    {
      hide WritePlayerInfos, EncodeUnknowns;
      ghost var a := WritePlayerInfos(Players(players));
      next := WritePlayersToArray(players, target, from, start, at, w);
      next := WriteUnknownsToArray(unknown, target, next, start, at, w + a);
      assert (w + a) + EncodeUnknowns(unknown) == w + (a + EncodeUnknowns(unknown));
    }

    /** Sizes first, then bytes: a buffer of the computed size is filled exactly. */
    method SerializeToArray(data: array<Byte>, size: nat) returns (ok: bool)
      requires InRange() && size <= data.Length
      modifies this, data
      ensures Value() == old(Value())
      ensures ok <==> |WriteSCSight(Value())| <= size
      ensures ok ==> data[..] == WriteSCSight(Value()) + old(data[..])[|WriteSCSight(Value())|..]
      ensures !ok ==> data[..] == old(data[..])
    {
      hide WritePlayerInfos, EncodeUnknowns;
      var byteSize := ByteSizeLong();
      if size < byteSize {
        return false;
      }
      ghost var start := data[..];
      var end := InternalSerializeToArray(data, 0, start, 0, []);
      assert end == byteSize;
      assert [] + WriteSCSight(Value()) == WriteSCSight(Value());
      ok := true;
    }
  }
}
