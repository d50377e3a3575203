/** The lock-step server: sessions, the message queue, the keys collected for the next frame
    and the archive of frames sent. Frames travel as the bytes of their messages. */
module LockStepServer {
  import opened Options
  import opened Wire
  import opened PlayerValues
  import opened PlayerRoundTrip
  import opened Numbers

  type Socket = nat

  /** For each user, the keys in the order they came. */
  type Keys = map<nat, seq<nat>>

  datatype Request = Login(parses: bool) | Ready(parses: bool) | KeysPressed(data: Bytes) | Other

  /** The sight message lists the user id of every session; the positions beside them are left out. */
  datatype Reply =
    | LoggedIn(uuid: nat)
    | FrameInit(curFrameId: nat, nxtFrameId: nat)
    | Sight(ids: seq<nat>)
    | Frame(data: Bytes)

  /** `sessions` holds each session's user id, 0 before login; `sent` everything sent so far on
      each connection. */
  datatype Server = Server(
    sessions: map<Socket, nat>, queue: seq<(Socket, Request)>, running: bool, readyCount: nat,
    curFrameId: nat, nxtFrameId: nat, uuidCounter: nat,
    pending: Keys, archive: map<nat, Keys>, sent: map<Socket, seq<Reply>>)

  const FRESH: Server := Server(map[], [], false, 0, 0, 0, 0, map[], map[], map[])

  // ---------------------------------------------------------------- keys and frames

  function KeysOf(keys: Keys, uuid: nat): seq<nat> {
    if uuid in keys then keys[uuid] else []
  }

  function AddKeys(keys: Keys, uuid: nat, more: seq<nat>): Keys {
    if more == [] then keys else keys[uuid := KeysOf(keys, uuid) + more]
  }

  ghost function Least(s: set<nat>): (m: nat)
    requires s != {}
    ensures m in s && forall x | x in s :: m <= x
  {
    LeastExists(s);
    var m :| m in s && forall x | x in s :: m <= x;
    m
  }

  lemma LeastExists(s: set<nat>)
    requires s != {}
    ensures exists m :: m in s && forall x | x in s :: m <= x
  {
    var a :| a in s;
    LeastFrom(s, 0, a);
  }

  lemma {:induction false} LeastFrom(s: set<nat>, n: nat, a: nat)
    requires a in s && forall x | x in s :: n <= x
    ensures exists m :: m in s && forall x | x in s :: m <= x
    decreases a - n
  {
    if n !in s {
      LeastFrom(s, n + 1, a);
    }
  }

  /** The order in which an ordered map is walked. */
  ghost function Ascending(s: set<nat>): seq<nat>
    decreases |s|
  {
    if s == {} then [] else [Least(s)] + Ascending(s - {Least(s)})
  }

  /** Walking on from some elements to the next. */
  lemma WalkOn(order: seq<nat>, todo: set<nat>, x: nat)
    requires x in todo && forall y | y in todo :: x <= y
    ensures order + Ascending(todo) == (order + [x]) + Ascending(todo - {x})
  {
    assert x == Least(todo);
  }

  function UserFramesAt(order: seq<nat>, keys: Keys): seq<UserFrame> {
    seq(|order|, i requires 0 <= i < |order| => UserFrame(Some(order[i]), KeysOf(keys, order[i]), []))
  }

  ghost function FrameMessage(id: nat, next: nat, keys: Keys): SCFrame {
    SCFrame(Some(id), Some(next), UserFramesAt(Ascending(keys.Keys), keys), [])
  }

  // ---------------------------------------------------------------- operations

  function Send(s: Server, to: Socket, replies: seq<Reply>): Server {
    s.(sent := s.sent[to := SentTo(s.sent, to) + replies])
  }

  /** A reply added to everything sent to some sessions. */
  function Delivered(sent: map<Socket, seq<Reply>>, some: set<Socket>, reply: Reply): map<Socket, seq<Reply>> {
    map to | to in sent.Keys + some :: SentTo(sent, to) + if to in some then [reply] else []
  }

  function SentTo(sent: map<Socket, seq<Reply>>, to: Socket): seq<Reply> {
    if to in sent then sent[to] else []
  }

  function Broadcast(s: Server, reply: Reply): Server {
    s.(sent := Delivered(s.sent, s.sessions.Keys, reply))
  }

  /** The ids of some sessions, 0 for those not logged in. */
  function IdsAt(order: seq<Socket>, sessions: map<Socket, nat>): seq<nat> {
    seq(|order|, i requires 0 <= i < |order| => if order[i] in sessions then sessions[order[i]] else 0)
  }

  ghost function Listed(sessions: map<Socket, nat>): seq<nat> {
    IdsAt(Ascending(sessions.Keys), sessions)
  }

  /** A first login gets the next id and is told it and where the frames are; then every session
      is told the ids of all. */
  ghost function HandleLogin(s: Server, from: Socket, parses: bool): Server
    requires from in s.sessions
  {
    if !parses || s.sessions[from] != 0 then s
    else
      var uuid := (s.uuidCounter + 1) % TWO_TO_32;
      var told := Send(s.(uuidCounter := uuid, sessions := s.sessions[from := uuid]), from,
        [LoggedIn(uuid), FrameInit(s.curFrameId, s.nxtFrameId)]);
      Broadcast(told, Sight(Listed(told.sessions)))
  }

  /** Counts ready messages, not ready players. */
  function HandleReady(s: Server, from: Socket, parses: bool): Server
    requires from in s.sessions
  {
    if !parses || s.sessions[from] == 0 then s
    else
      var count := (s.readyCount + 1) % TWO_TO_32;
      s.(readyCount := count, running := s.running || count == |s.sessions| % TWO_TO_32)
  }

  /** The keys count for the user the message names, whoever sent it. */
  function HandleFrame(s: Server, data: Bytes): Server {
    match ParseCSFrame(data)
    case None => s
    case Some(m) => s.(pending := AddKeys(s.pending, UserOf(m), m.keyInfo))
  }

  function UserOf(m: CSFrame): nat {
    if m.uuid.Some? then m.uuid.value else 0
  }

  ghost function Dispatch(s: Server, from: Socket, request: Request): Server {
    if from !in s.sessions then s
    else match request
      case Login(parses) => HandleLogin(s, from, parses)
      case Ready(parses) => HandleReady(s, from, parses)
      case KeysPressed(data) => HandleFrame(s, data)
      case Other => s
  }

  /** One message a tick. */
  ghost function MessageProc(s: Server): Server {
    if s.queue == [] then s
    else Dispatch(s, s.queue[0].0, s.queue[0].1).(queue := s.queue[1..])
  }

  ghost function FrameTurn(s: Server): Server {
    var cur, nxt := s.nxtFrameId, (s.nxtFrameId + 1) % TWO_TO_64;
    Broadcast(
      s.(curFrameId := cur, nxtFrameId := nxt, archive := s.archive[cur := s.pending], pending := map[]),
      Frame(WriteSCFrame(FrameMessage(cur, nxt, s.pending))))
  }

  datatype Event =
    | Connect(socket: Socket)
    | Disconnect(socket: Socket)
    | Push(from: Socket, request: Request)
    | Tick(due: bool)

  predicate Enabled(s: Server, e: Event) {
    match e
    case Connect(socket) => socket !in s.sessions
    case Disconnect(socket) => socket in s.sessions
    case _ => true
  }

  ghost function Next(s: Server, e: Event): Server {
    match e
    case Connect(socket) => s.(sessions := s.sessions[socket := 0], sent := s.sent[socket := []])
    case Disconnect(socket) => s.(sessions := s.sessions - {socket})
    case Push(from, request) => s.(queue := s.queue + [(from, request)])
    case Tick(due) =>
      var after := MessageProc(s);
      if due && after.running then FrameTurn(after) else after
  }

  // ---------------------------------------------------------------- the code

  lemma AddOneMore(keys: Keys, uuid: nat, some: seq<nat>, key: nat)
    ensures AddKeys(AddKeys(keys, uuid, some), uuid, [key]) == AddKeys(keys, uuid, some + [key])
  {
    assert some + [key] != [];
    assert KeysOf(keys, uuid) + (some + [key]) == KeysOf(keys, uuid) + some + [key];
    assert some == [] ==> KeysOf(keys, uuid) + some + [key] == KeysOf(keys, uuid) + [key];
  }

  lemma SentNow(sent: map<Socket, seq<Reply>>, to: Socket, replies: seq<Reply>)
    ensures SentTo(sent[to := replies], to) == replies
  {
  }

  lemma DeliverNone(sent: map<Socket, seq<Reply>>, reply: Reply)
    ensures Delivered(sent, {}, reply) == sent
  {
    forall to | to in sent ensures Delivered(sent, {}, reply)[to] == sent[to] {
      assert SentTo(sent, to) + [] == sent[to];
    }
  }

  lemma DeliverOneMore(sent: map<Socket, seq<Reply>>, some: set<Socket>, to: Socket, reply: Reply)
    requires to !in some
    ensures var d := Delivered(sent, some, reply);
      Delivered(sent, some + {to}, reply) == d[to := SentTo(d, to) + [reply]]
  {
    var d := Delivered(sent, some, reply);
    assert SentTo(d, to) == SentTo(sent, to);
  }

  class World {
    var sessions: map<Socket, nat>
    var queue: seq<(Socket, Request)>
    var running: bool
    var readyCount: nat
    var curFrameId: nat
    var nxtFrameId: nat
    var uuidCounter: nat
    var curFrameInfo: Keys
    var oldFrameInfo: map<nat, Keys>
    var sent: map<Socket, seq<Reply>>

    function Value(): Server
      reads this
    {
      Server(sessions, queue, running, readyCount, curFrameId, nxtFrameId, uuidCounter,
        curFrameInfo, oldFrameInfo, sent)
    }

    constructor ()
      ensures Value() == FRESH
    {
      sessions, queue, running, readyCount := map[], [], false, 0;
      curFrameId, nxtFrameId, uuidCounter := 0, 0, 0;
      curFrameInfo, oldFrameInfo, sent := map[], map[], map[];
    }

    method RegisterUser(socket: Socket)
      requires Enabled(Value(), Connect(socket))
      modifies this`sessions, this`sent
      ensures sessions == old(sessions)[socket := 0] && sent == old(sent)[socket := []]
      ensures Value() == Next(old(Value()), Connect(socket))
    {
      sessions := sessions[socket := 0];
      sent := sent[socket := []];
    }

    method DeleteUser(socket: Socket)
      requires Enabled(Value(), Disconnect(socket))
      modifies this`sessions
      ensures sessions == old(sessions) - {socket}
      ensures Value() == Next(old(Value()), Disconnect(socket))
    {
      sessions := sessions - {socket};
    }

    method PushMsg(from: Socket, request: Request)
      modifies this`queue
      ensures queue == old(queue) + [(from, request)]
      ensures Value() == Next(old(Value()), Push(from, request))
    {
      queue := queue + [(from, request)];
    }

    method SendImm(to: Socket, reply: Reply)
      modifies this`sent
      ensures Value() == Send(old(Value()), to, [reply])
    {
      sent := sent[to := SentTo(sent, to) + [reply]];
    }

    /** The new id and where the frames are. */
    method SendWelcome(to: Socket)
      modifies this`sent
      ensures Value() == Send(old(Value()), to, [LoggedIn(uuidCounter), FrameInit(curFrameId, nxtFrameId)])
    {
      hide SentTo;
      ghost var before := SentTo(sent, to);
      SendImm(to, LoggedIn(uuidCounter));
      SentNow(old(sent), to, before + [LoggedIn(uuidCounter)]);
      SendImm(to, FrameInit(curFrameId, nxtFrameId));
      assert before + [LoggedIn(uuidCounter)] + [FrameInit(curFrameId, nxtFrameId)] ==
        before + [LoggedIn(uuidCounter), FrameInit(curFrameId, nxtFrameId)];
    }

    /** Everybody is told who is there. */
    method SendLoginInfo()
      modifies this`sent
      ensures Value() == Broadcast(old(Value()), Sight(Listed(sessions)))
    {
      hide Delivered, IdsAt, Ascending;
      var ids := CollectIds();
      BroadcastReply(Sight(ids));
    }

    method LoginUser(from: Socket, parses: bool) returns (ok: bool)
      requires from in sessions
      modifies this
      ensures Value() == HandleLogin(old(Value()), from, parses)
      ensures ok <==> parses && old(sessions[from]) == 0
    {
      hide Delivered, IdsAt, Ascending, SentTo;
      if !parses {
        return false;
      }
      if sessions[from] != 0 {
        return false;
      }
      uuidCounter := (uuidCounter + 1) % TWO_TO_32;
      sessions := sessions[from := uuidCounter];
      SendWelcome(from);
      SendLoginInfo();
      return true;
    }

    /** The id of every session, in ascending order of sockets. */
    method CollectIds() returns (ids: seq<nat>)
      ensures ids == Listed(sessions)
    {
      var todo := sessions.Keys;
      ghost var order := [];
      ids := [];
      while todo != {}
        invariant todo <= sessions.Keys
        invariant order + Ascending(todo) == Ascending(sessions.Keys)
        invariant ids == IdsAt(order, sessions)
        decreases |todo|
      {
        hide Ascending;
        LeastExists(todo);
        var socket :| socket in todo && forall x | x in todo :: socket <= x;
        WalkOn(order, todo, socket);
        ids := ids + [sessions[socket]];
        order := order + [socket];
        todo := todo - {socket};
      }
      assert order + Ascending({}) == order;
    }

    method ReadyUser(from: Socket, parses: bool) returns (ok: bool)
      requires from in sessions
      modifies this`readyCount, this`running
      ensures if parses && sessions[from] != 0
        then readyCount == (old(readyCount) + 1) % 0x1_0000_0000 &&
          running == (old(running) || readyCount == |sessions| % 0x1_0000_0000)
        else unchanged(this)
      ensures Value() == HandleReady(old(Value()), from, parses)
      ensures ok == parses
    {
      if !parses {
        return false;
      }
      if sessions[from] != 0 {
        readyCount := (readyCount + 1) % TWO_TO_32;
        if readyCount == |sessions| % TWO_TO_32 {
          running := true;
        }
      }
      return true;
    }

    /** One key at the end of the user's list, made if it is not there yet. */
    method InsertKey(uuid: nat, key: nat)
      modifies this`curFrameInfo
      ensures curFrameInfo == AddKeys(old(curFrameInfo), uuid, [key])
    {
      if uuid !in curFrameInfo {
        curFrameInfo := curFrameInfo[uuid := []];
      }
      curFrameInfo := curFrameInfo[uuid := curFrameInfo[uuid] + [key]];
    }

    method TakeKeys(data: Bytes) returns (ok: bool)
      modifies this`curFrameInfo
      ensures Value() == HandleFrame(old(Value()), data)
      ensures ok <==> ParseCSFrame(data).Some?
    {
      hide ParseCSFrame;
      var parsed := ParseCSFrame(data);
      if parsed == None {
        return false;
      }
      var uuid, keys := UserOf(parsed.value), parsed.value.keyInfo;
      var i := 0;
      while i < |keys|
        invariant i <= |keys| && curFrameInfo == AddKeys(old(curFrameInfo), uuid, keys[..i])
      {
        hide AddKeys, ParseCSFrame;
        AddOneMore(old(curFrameInfo), uuid, keys[..i], keys[i]);
        assert keys[..i] + [keys[i]] == keys[..i + 1];
        InsertKey(uuid, keys[i]);
        i := i + 1;
      }
      assert keys[..i] == keys;
      return true;
    }

    method ProcessMessage()
      modifies this
      ensures Value() == MessageProc(old(Value()))
    {
      if |queue| > 0 {
        var from, request := queue[0].0, queue[0].1;
        if from in sessions {
          match request {
            case Login(parses) => var _ := LoginUser(from, parses);
            case Ready(parses) => var _ := ReadyUser(from, parses);
            case KeysPressed(data) => var _ := TakeKeys(data);
            case Other =>
          }
        }
        queue := queue[1..];
      }
    }

    method BroadcastReply(reply: Reply)
      modifies this`sent
      ensures Value() == Broadcast(old(Value()), reply)
    {
      hide Delivered, SentTo;
      var todo := sessions.Keys;
      ghost var before := sent;
      DeliverNone(before, reply);
      assert sessions.Keys - todo == {};
      while todo != {}
        invariant todo <= sessions.Keys
        invariant sent == Delivered(before, sessions.Keys - todo, reply)
        decreases |todo|
      {
        var to :| to in todo;
        DeliverOneMore(before, sessions.Keys - todo, to, reply);
        assert sessions.Keys - (todo - {to}) == sessions.Keys - todo + {to};
        sent := sent[to := SentTo(sent, to) + [reply]];
        todo := todo - {to};
      }
      assert sessions.Keys - {} == sessions.Keys;
    }

    method TurnFrame()
      modifies this
      ensures Value() == FrameTurn(old(Value()))
    {
      hide Delivered, SentTo, UserFramesAt, Ascending, WriteSCFrame;
      curFrameId := nxtFrameId;
      nxtFrameId := (nxtFrameId + 1) % TWO_TO_64;
      var users := CollectUsers();
      var message := SCFrame(Some(curFrameId), Some(nxtFrameId), users, []);
      oldFrameInfo := oldFrameInfo[curFrameId := curFrameInfo];
      curFrameInfo := map[];
      BroadcastReply(Frame(WriteSCFrame(message)));
    }

    /** One entry a user, in ascending order of their ids. */
    method CollectUsers() returns (users: seq<UserFrame>)
      ensures users == UserFramesAt(Ascending(curFrameInfo.Keys), curFrameInfo)
    {
      var todo := curFrameInfo.Keys;
      ghost var order := [];
      users := [];
      while todo != {}
        invariant todo <= curFrameInfo.Keys
        invariant order + Ascending(todo) == Ascending(curFrameInfo.Keys)
        invariant users == UserFramesAt(order, curFrameInfo)
        decreases |todo|
      {
        hide Ascending;
        LeastExists(todo);
        var uuid :| uuid in todo && forall x | x in todo :: uuid <= x;
        WalkOn(order, todo, uuid);
        users := users + [UserFrame(Some(uuid), curFrameInfo[uuid], [])];
        order := order + [uuid];
        todo := todo - {uuid};
      }
      assert order + Ascending({}) == order;
    }

    method RunTick(due: bool)
      modifies this
      ensures Value() == Next(old(Value()), Tick(due))
    {
      ProcessMessage();
      if due && running {
        TurnFrame();
      }
    }
  }
}
