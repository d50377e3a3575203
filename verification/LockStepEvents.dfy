/** What single events do, in the plain terms of what was queued, sent and held: who hears what,
    what a turn and a login announce, which keys count, when the game starts. */
module LockStepEvents {
  import opened Options
  import opened Wire
  import opened PlayerValues
  import opened PlayerRoundTrip
  import opened LockStepServer
  import opened LockStepRuns
  import opened LockStepClient
  import opened LockStepPlay
  import opened Numbers

  // ---------------------------------------------------------------- the server's messages

  /** In the `i`-th step a ready message of a session that has logged in is served. */
  ghost predicate ReadyAt(states: seq<Server>, events: seq<Event>, i: nat) {
    && i < |events| && i < |states| && events[i].Tick? && states[i].queue != []
    && var (from, request) := states[i].queue[0];
       from in states[i].sessions && states[i].sessions[from] != 0 && request == Ready(true)
  }

  /** How many such messages the first `n` steps served. */
  ghost function Readies(states: seq<Server>, events: seq<Event>, n: nat): nat {
    if n == 0 then 0 else Readies(states, events, n - 1) + if ReadyAt(states, events, n - 1) then 1 else 0
  }

  lemma ReadyStep(s: Server, e: Event)
    ensures var z := Next(s, e);
      if e.Tick? && s.queue != [] && s.queue[0].0 in s.sessions && s.sessions[s.queue[0].0] != 0
        && s.queue[0].1 == Ready(true)
      then z.readyCount == (s.readyCount + 1) % 0x1_0000_0000 &&
        (z.running <==> s.running || z.readyCount == |s.sessions| % 0x1_0000_0000)
      else z.readyCount == s.readyCount && z.running == s.running
  {
    hide WriteSCFrame, FrameMessage, ParseCSFrame, Delivered, Listed, AddKeys;
  }

  lemma Counted(n: nat)
    ensures (n % 0x1_0000_0000 + 1) % 0x1_0000_0000 == (n + 1) % 0x1_0000_0000
  {
    LoginCounted(n);
  }

  /** In every run, the game is running exactly when some ready message of a session that had
      logged in made the number of such messages so far equal to the number of sessions then,
      both modulo 2^32. Whose messages they were, and how many from one session, does not count. */
  lemma {:induction false} RunningIff(states: seq<Server>, logs: seq<Log>, events: seq<Event>, n: nat)
    requires Run(states, logs, events) && n < |states|
    ensures states[n].readyCount == Readies(states, events, n) % 0x1_0000_0000
    ensures states[n].running <==> exists i: nat ::
      && i < n && ReadyAt(states, events, i)
      && Readies(states, events, i + 1) % 0x1_0000_0000 == |states[i].sessions| % 0x1_0000_0000
    decreases n
  {
    hide Next, NextLog, Enabled, MessageProc;
    if n > 0 {
      RunningIff(states, logs, events, n - 1);
      ReadyStep(states[n - 1], events[n - 1]);
      Counted(Readies(states, events, n - 1));
      assert states[n] == Next(states[n - 1], events[n - 1]);
      assert ReadyAt(states, events, n - 1) <==> Readies(states, events, n) == Readies(states, events, n - 1) + 1;
    }
  }

  /** The keys the `i`-th step accepts for a user: those of a key message at the head of the queue
      that parses and names the user, 0 when it names none, whoever sent it. */
  ghost function AcceptedAt(states: seq<Server>, events: seq<Event>, i: nat, uuid: nat): seq<nat> {
    if i < |events| && i < |states| && events[i].Tick? && states[i].queue != []
      && states[i].queue[0].0 in states[i].sessions && states[i].queue[0].1.KeysPressed?
    then
      match ParseCSFrame(states[i].queue[0].1.data)
      case None => []
      case Some(m) => if uuid == (match m.uuid case None => 0 case Some(id) => id) then m.keyInfo else []
    else []
  }

  ghost function Accepted(states: seq<Server>, events: seq<Event>, n: nat, uuid: nat): seq<nat> {
    if n == 0 then [] else Accepted(states, events, n - 1, uuid) + AcceptedAt(states, events, n - 1, uuid)
  }

  /** The keys of a user the `i`-th step sends out with a frame: all that wait after the message
      of that step, when a turn is due and the game is running by then. */
  ghost function TurnedAt(states: seq<Server>, events: seq<Event>, i: nat, uuid: nat): seq<nat> {
    if i < |events| && i + 1 < |states| && events[i] == Tick(true) && states[i + 1].running
      && states[i].nxtFrameId in states[i + 1].archive && uuid in states[i + 1].archive[states[i].nxtFrameId]
    then states[i + 1].archive[states[i].nxtFrameId][uuid]
    else []
  }

  ghost function Turned(states: seq<Server>, events: seq<Event>, n: nat, uuid: nat): seq<nat> {
    if n == 0 then [] else Turned(states, events, n - 1, uuid) + TurnedAt(states, events, n - 1, uuid)
  }

  /** The keys waiting for a user. */
  function Waiting(s: Server, uuid: nat): seq<nat> {
    if uuid in s.pending then s.pending[uuid] else []
  }

  lemma KeysStep(states: seq<Server>, events: seq<Event>, i: nat, uuid: nat)
    requires i < |events| && i + 1 < |states| && states[i + 1] == Next(states[i], events[i])
    ensures TurnedAt(states, events, i, uuid) + Waiting(states[i + 1], uuid) ==
      Waiting(states[i], uuid) + AcceptedAt(states, events, i, uuid)
  {
    hide WriteSCFrame, FrameMessage, ParseCSFrame, Delivered, Listed;
    var s, z := states[i], states[i + 1];
    if events[i].Tick? {
      var after := MessageProc(s);
      MessageKeys(states, events, i, uuid, after);
      if events[i].due && after.running {
        assert z.archive == s.archive[s.nxtFrameId := after.pending] && z.running;
        assert TurnedAt(states, events, i, uuid) == Waiting(after, uuid);
        assert Waiting(z, uuid) == [];
        assert Waiting(after, uuid) + [] == Waiting(after, uuid);
      } else {
        assert z == after;
        assert TurnedAt(states, events, i, uuid) == [];
        assert [] + Waiting(z, uuid) == Waiting(z, uuid);
      }
    } else {
      assert Waiting(z, uuid) == Waiting(s, uuid);
      assert [] + Waiting(z, uuid) == Waiting(s, uuid) + [];
    }
  }

  lemma ControlKeepsPending(s: Server, from: Socket)
    requires from in s.sessions
    ensures forall parses :: var z := HandleLogin(s, from, parses);
      z.pending == s.pending && z.archive == s.archive && z.nxtFrameId == s.nxtFrameId
    ensures forall parses :: var z := HandleReady(s, from, parses);
      z.pending == s.pending && z.archive == s.archive && z.nxtFrameId == s.nxtFrameId
  {
    hide Listed, Delivered;
  }

  lemma MessageKeys(states: seq<Server>, events: seq<Event>, i: nat, uuid: nat, after: Server)
    requires i < |events| && i < |states| && events[i].Tick? && after == MessageProc(states[i])
    ensures Waiting(after, uuid) == Waiting(states[i], uuid) + AcceptedAt(states, events, i, uuid)
    ensures after.archive == states[i].archive && after.nxtFrameId == states[i].nxtFrameId
  {
    hide ParseCSFrame, HandleLogin, HandleReady;
    var s := states[i];
    assert Waiting(s, uuid) + [] == Waiting(s, uuid);
    if s.queue != [] && s.queue[0].0 in s.sessions { ControlKeepsPending(s, s.queue[0].0); }
    if s.queue != [] && s.queue[0].0 in s.sessions && s.queue[0].1.KeysPressed? {
      var parsed := ParseCSFrame(s.queue[0].1.data);
      if parsed.Some? {
        AddedFor(s.pending, UserOf(parsed.value), parsed.value.keyInfo, uuid);
      }
    }
  }

  /** In every state of every run and for every user: the keys sent out in frames, followed by
      the keys that wait, are all the keys accepted for the user, in the order they came. */
  lemma {:induction false} KeysTurnedAreAccepted(states: seq<Server>, logs: seq<Log>, events: seq<Event>,
      n: nat, uuid: nat)
    requires Run(states, logs, events) && n < |states|
    ensures Turned(states, events, n, uuid) + Waiting(states[n], uuid) == Accepted(states, events, n, uuid)
    decreases n
  {
    hide Next, NextLog, Enabled, TurnedAt, AcceptedAt;
    if n > 0 {
      KeysTurnedAreAccepted(states, logs, events, n - 1, uuid);
      KeysStep(states, events, n - 1, uuid);
      var t, a := Turned(states, events, n - 1, uuid), Accepted(states, events, n - 1, uuid);
      var turned, accepted := TurnedAt(states, events, n - 1, uuid), AcceptedAt(states, events, n - 1, uuid);
      assert t + turned + Waiting(states[n], uuid) == t + (turned + Waiting(states[n], uuid));
      assert t + (Waiting(states[n - 1], uuid) + accepted) == t + Waiting(states[n - 1], uuid) + accepted;
    }
  }

  // ---------------------------------------------------------------- what is sent

  /** Everything sent on a connection so far. */
  function SentOn(s: Server, socket: Socket): seq<Reply> {
    if socket in s.sent then s.sent[socket] else []
  }

  /** A broadcast reaches each session once, and no connection without a session. */
  lemma BroadcastMeans(s: Server, reply: Reply, to: Socket)
    ensures SentOn(Broadcast(s, reply), to) == SentOn(s, to) + if to in s.sessions then [reply] else []
    ensures Broadcast(s, reply).sessions == s.sessions
  {
    assert SentOn(s, to) + [] == SentOn(s, to);
  }

  /** The ids announced are those of all sessions, each once, in ascending order of their sockets. */
  lemma ListedMeans(sessions: map<Socket, nat>) returns (order: seq<Socket>)
    ensures forall socket :: socket in order <==> socket in sessions
    ensures forall i, j | 0 <= i < j < |order| :: order[i] < order[j]
    ensures |Listed(sessions)| == |order|
    ensures forall i | 0 <= i < |order| :: order[i] in sessions && Listed(sessions)[i] == sessions[order[i]]
  {
    order := Ascending(sessions.Keys);
    AscendingMeans(sessions.Keys);
    hide Ascending;
    forall i | 0 <= i < |order| ensures order[i] in sessions {
      assert order[i] in order;
    }
  }

  /** A turn takes the announced id, announces the one after it modulo 2^64, archives what waited
      under the id, leaves nothing waiting, and sends each session one frame: with both ids, and
      for each user that had keys, in ascending order, those keys. */
  lemma TurnMeans(s: Server) returns (m: SCFrame)
    ensures var z := FrameTurn(s);
      && z.curFrameId == s.nxtFrameId && z.nxtFrameId == (s.nxtFrameId + 1) % 0x1_0000_0000_0000_0000
      && z.archive == s.archive[s.nxtFrameId := s.pending] && z.pending == map[] && z.sessions == s.sessions
      && z.queue == s.queue && z.running == s.running
      && m.frameId == Some(z.curFrameId) && m.nextFrameId == Some(z.nxtFrameId) && m.unknown == []
      && forall to :: SentOn(z, to) == SentOn(s, to) + if to in s.sessions then [Frame(WriteSCFrame(m))] else []
    ensures forall i | 0 <= i < |m.users| ::
      var u := m.users[i];
      u.uuid.Some? && u.uuid.value in s.pending && u.keyInfo == s.pending[u.uuid.value] && u.unknown == []
    ensures forall i, j | 0 <= i < j < |m.users| ::
      m.users[i].uuid.Some? && m.users[j].uuid.Some? && m.users[i].uuid.value < m.users[j].uuid.value
    ensures forall uuid | uuid in s.pending :: exists i :: 0 <= i < |m.users| && m.users[i].uuid == Some(uuid)
  {
    m := FrameMessage(s.nxtFrameId, (s.nxtFrameId + 1) % TWO_TO_64, s.pending);
    UsersOfFrame(s.nxtFrameId, (s.nxtFrameId + 1) % TWO_TO_64, s.pending);
    hide WriteSCFrame, FrameMessage, Delivered, SentOn;
    forall to: Socket
      ensures SentOn(FrameTurn(s), to) == SentOn(s, to) + if to in s.sessions then [Frame(WriteSCFrame(m))] else []
    {
      TurnSends(s, to);
    }
  }

  lemma TurnSends(s: Server, to: Socket)
    ensures var m := FrameMessage(s.nxtFrameId, (s.nxtFrameId + 1) % TWO_TO_64, s.pending);
      SentOn(FrameTurn(s), to) == SentOn(s, to) + if to in s.sessions then [Frame(WriteSCFrame(m))] else []
  {
    hide WriteSCFrame, FrameMessage, Delivered;
    var m := FrameMessage(s.nxtFrameId, (s.nxtFrameId + 1) % TWO_TO_64, s.pending);
    BroadcastMeans(s, Frame(WriteSCFrame(m)), to);
    assert FrameTurn(s).sent == Broadcast(s, Frame(WriteSCFrame(m))).sent;
  }

  lemma UsersOfFrame(id: nat, next: nat, keys: Keys)
    ensures var m := FrameMessage(id, next, keys);
      && m.frameId == Some(id) && m.nextFrameId == Some(next) && m.unknown == []
      && (forall i | 0 <= i < |m.users| ::
        var u := m.users[i];
        u.uuid.Some? && u.uuid.value in keys && u.keyInfo == keys[u.uuid.value] && u.unknown == [])
      && (forall i, j | 0 <= i < j < |m.users| :: m.users[i].uuid.value < m.users[j].uuid.value)
      && (forall uuid | uuid in keys :: exists i :: 0 <= i < |m.users| && m.users[i].uuid == Some(uuid))
  {
    var order, users := Ascending(keys.Keys), FrameMessage(id, next, keys).users;
    AscendingMeans(keys.Keys);
    hide Ascending;
    forall i | 0 <= i < |order|
      ensures order[i] in keys && users[i] == UserFrame(Some(order[i]), keys[order[i]], [])
    {
      assert order[i] in order;
    }
    forall uuid | uuid in keys ensures exists i :: 0 <= i < |users| && users[i].uuid == Some(uuid) {
      var i :| 0 <= i < |order| && order[i] == uuid;
      assert users[i].uuid == Some(uuid);
    }
  }

  /** A first login gets the id after the last one given, modulo 2^32. The session is told it, then
      the last id used and the next; after that all sessions are told the ids of all. */
  lemma LoginMeans(s: Server, from: Socket, to: Socket)
    requires from in s.sessions && s.sessions[from] == 0
    ensures var z := HandleLogin(s, from, true);
      && z.uuidCounter == (s.uuidCounter + 1) % 0x1_0000_0000
      && z.sessions == s.sessions[from := z.uuidCounter]
      && z == s.(uuidCounter := z.uuidCounter, sessions := z.sessions, sent := z.sent)
      && SentOn(z, to) == SentOn(s, to)
        + (if to == from then [LoggedIn(z.uuidCounter), FrameInit(s.curFrameId, s.nxtFrameId)] else [])
        + (if to in s.sessions then [Sight(Listed(z.sessions))] else [])
  {
    hide Listed;
    assert SentOn(s, to) + [] + [] == SentOn(s, to);
    assert forall a: seq<Reply> :: SentOn(s, to) + [] + a == SentOn(s, to) + a;
  }

  // ---------------------------------------------------------------- the client's messages

  function IdOf(u: UserFrame): nat {
    match u.uuid case None => 0 case Some(id) => id
  }

  lemma {:induction false} PoolHas(users: seq<UserFrame>)
    ensures PoolOf(users).Some? ==>
      forall id :: id in PoolOf(users).value <==> exists i :: 0 <= i < |users| && IdOf(users[i]) == id
    decreases |users|
  {
    if users != [] {
      var n := |users| - 1;
      PoolHas(users[..n]);
      PoolLast(users);
      hide PoolOf, IdOf;
      if PoolOf(users).Some? {
        forall id ensures id in PoolOf(users).value <==> exists i :: 0 <= i < |users| && IdOf(users[i]) == id {
          if id in PoolOf(users[..n]).value {
            var i :| 0 <= i < n && IdOf(users[..n][i]) == id;
            assert IdOf(users[i]) == id;
          }
          if i :| 0 <= i < n && IdOf(users[i]) == id {
            assert IdOf(users[..n][i]) == id;
          }
        }
      }
    }
  }

  lemma {:induction false} PoolHolds(users: seq<UserFrame>)
    ensures PoolOf(users).Some? ==> forall i | 0 <= i < |users| ::
      IdOf(users[i]) in PoolOf(users).value && PoolOf(users).value[IdOf(users[i])] == users[i].keyInfo
    decreases |users|
  {
    if users != [] {
      var n := |users| - 1;
      PoolHolds(users[..n]);
      PoolLast(users);
      hide PoolOf, IdOf;
      assert forall i | 0 <= i < n :: users[..n][i] == users[i];
    }
  }

  ghost predicate DistinctIds(users: seq<UserFrame>) {
    forall i, j | 0 <= i < j < |users| :: IdOf(users[i]) != IdOf(users[j])
  }

  lemma DistinctLast(users: seq<UserFrame>)
    requires users != []
    ensures var n := |users| - 1;
      DistinctIds(users) <==>
        DistinctIds(users[..n]) && !exists i :: 0 <= i < n && IdOf(users[..n][i]) == IdOf(users[n])
  {
    hide IdOf;
    var n := |users| - 1;
    assert forall i | 0 <= i < n :: users[..n][i] == users[i];
  }

  lemma {:induction false} PoolIff(users: seq<UserFrame>)
    ensures PoolOf(users).Some? <==> DistinctIds(users)
    decreases |users|
  {
    if users != [] {
      PoolIff(users[..|users| - 1]);
      PoolHas(users[..|users| - 1]);
      PoolLast(users);
      DistinctLast(users);
      hide PoolOf, IdOf, DistinctIds;
    }
  }

  /** The users of a frame make a dictionary exactly when no two have the same id, and then each
      id has the keys that came with it, and no other id is in it. */
  lemma PoolMeans(users: seq<UserFrame>)
    ensures PoolOf(users).Some? <==> forall i, j | 0 <= i < j < |users| :: IdOf(users[i]) != IdOf(users[j])
    ensures PoolOf(users).Some? ==> forall i | 0 <= i < |users| ::
      IdOf(users[i]) in PoolOf(users).value && PoolOf(users).value[IdOf(users[i])] == users[i].keyInfo
    ensures PoolOf(users).Some? ==>
      forall id :: id in PoolOf(users).value <==> exists i :: 0 <= i < |users| && IdOf(users[i]) == id
  {
    PoolHas(users);
    PoolHolds(users);
    PoolIff(users);
    hide PoolOf, IdOf;
  }

  lemma PoolLast(users: seq<UserFrame>)
    requires users != []
    ensures var last := users[|users| - 1];
      PoolOf(users) ==
        match PoolOf(users[..|users| - 1])
        case None => None
        case Some(pool) => if IdOf(last) in pool then None else Some(pool[IdOf(last) := last.keyInfo])
  {
  }

  /** A client's message says under which id it goes, which frame it runs, and which keys it held. */
  lemma KeysSaid(c: Client)
    requires c.uuid < TWO_TO_32 && c.curFrameId < TWO_TO_64 && forall k | k in c.keys :: k < TWO_TO_32
    ensures ParseCSFrame(KeyMessage(c)) == Some(CSFrame(Some(c.uuid), Some(c.curFrameId), c.keys, []))
  {
    hide WriteCSFrame, ParseCSFrame;
    CSFrameRoundTrip(CSFrame(Some(c.uuid), Some(c.curFrameId), c.keys, []));
  }

  /** The frame waited for is run: one message goes out, for that frame and with the keys held,
      which are held no longer. Any other frame is not run and sends nothing. Either way the
      client goes on to wait for the one announced. */
  lemma FrameHandled(c: Client, data: Bytes, m: SCFrame, pool: Keys)
    requires c.uuid < TWO_TO_32 && c.curFrameId < TWO_TO_64 && forall k | k in c.keys :: k < TWO_TO_32
    requires ParseSCFrame(data) == Some(m) && m.frameId.Some? && m.nextFrameId.Some? && PoolOf(m.users) == Some(pool)
    ensures var z := OnFrame(c, data);
      && z.curFrameId == m.nextFrameId.value && z.uuid == c.uuid && z.started == c.started
      && z.nxtFrameId == c.nxtFrameId
      && if c.curFrameId == m.frameId.value then
           && z.ran == c.ran + [pool] && z.keys == [] && |z.outbox| == |c.outbox| + 1
           && z.outbox[..|c.outbox|] == c.outbox
           && ParseCSFrame(z.outbox[|c.outbox|]) == Some(CSFrame(Some(c.uuid), m.frameId, c.keys, []))
         else z.ran == c.ran && z.keys == c.keys && z.outbox == c.outbox
  {
    hide ParseSCFrame, ParseCSFrame, KeyMessage, PoolOf;
    KeysSaid(c);
  }
}
