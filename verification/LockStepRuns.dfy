/** What every run of the server keeps: the archive of frames, the conservation of keys and
    what each connection has been sent. */
module LockStepRuns {
  import opened Options
  import opened Wire
  import opened PlayerValues
  import opened PlayerRoundTrip
  import opened PlayerReparse
  import opened LockStepServer
  import opened Numbers

  /** History of a run: the frames turned so far; for each user, every key accepted; how many
      logins there were; for each connection, how many frames had been turned when it was made
      and when it logged in, and the number of its login. */
  datatype Log = Log(
    frames: seq<Keys>, accepted: Keys, logins: nat, joined: map<Socket, nat>, entered: map<Socket, nat>,
    numbers: map<Socket, nat>)

  const NO_LOG: Log := Log([], map[], 0, map[], map[], map[])

  /** The message at the head of the queue, if its sender still has a session. */
  function Served(s: Server): Option<(Socket, Request)> {
    if s.queue != [] && s.queue[0].0 in s.sessions then Some(s.queue[0]) else None
  }

  function LoggedInTo(log: Log, from: Socket): Log {
    log.(logins := log.logins + 1, entered := log.entered[from := |log.frames|],
      numbers := log.numbers[from := log.logins + 1])
  }

  ghost function NextMessageLog(s: Server, log: Log): Log {
    match Served(s)
    case Some((from, Login(parses))) =>
      if parses && s.sessions[from] == 0 then LoggedInTo(log, from) else log
    case Some((_, KeysPressed(data))) =>
      (match ParseCSFrame(data)
       case None => log
       case Some(m) => log.(accepted := AddKeys(log.accepted, UserOf(m), m.keyInfo)))
    case _ => log
  }

  ghost function NextLog(s: Server, log: Log, e: Event): Log {
    match e
    case Connect(socket) =>
      log.(joined := log.joined[socket := |log.frames|], entered := log.entered - {socket},
        numbers := log.numbers - {socket})
    case Tick(due) =>
      var after := MessageProc(s);
      var l := NextMessageLog(s, log);
      if due && after.running then l.(frames := l.frames + [after.pending]) else l
    case _ => log
  }

  // ---------------------------------------------------------------- the invariant

  ghost predicate IdsOk(s: Server, log: Log) {
    && s.nxtFrameId == |log.frames| % TWO_TO_64
    && s.curFrameId == (if log.frames == [] then 0 else (|log.frames| - 1) % TWO_TO_64)
  }

  /** The archive holds the latest frame of each id, and no other ids. */
  ghost predicate ArchiveOk(s: Server, log: Log) {
    && (forall i | i in s.archive :: i < |log.frames| && i < TWO_TO_64)
    && (forall j | 0 <= j < |log.frames| && |log.frames| <= j + TWO_TO_64 ::
      j % TWO_TO_64 in s.archive && s.archive[j % TWO_TO_64] == log.frames[j])
  }

  /** A user's keys over some frames. */
  function Collected(frames: seq<Keys>, uuid: nat): seq<nat> {
    if frames == [] then [] else KeysOf(frames[0], uuid) + Collected(frames[1..], uuid)
  }

  ghost predicate KeysConserved(s: Server, log: Log) {
    forall uuid: nat :: Collected(log.frames, uuid) + KeysOf(s.pending, uuid) == KeysOf(log.accepted, uuid)
  }

  /** User ids and keys fit their 32-bit fields. */
  ghost predicate KeysFit(keys: Keys) {
    forall uuid | uuid in keys :: uuid < TWO_TO_32 && forall k | k in keys[uuid] :: k < TWO_TO_32
  }

  ghost predicate AllFit(s: Server, log: Log) {
    KeysFit(s.pending) && forall i | 0 <= i < |log.frames| :: KeysFit(log.frames[i])
  }

  ghost function FrameBytes(frames: seq<Keys>, i: nat): Bytes
    requires i < |frames|
  {
    WriteSCFrame(FrameMessage(i % TWO_TO_64, (i + 1) % TWO_TO_64, frames[i]))
  }

  /** The replies that carry frames `lo` to `hi`. */
  ghost function FrameReplies(frames: seq<Keys>, lo: nat, hi: nat): seq<Reply>
    requires lo <= hi <= |frames|
  {
    seq(hi - lo, i requires 0 <= i < hi - lo => Frame(FrameBytes(frames, lo + i)))
  }

  /** What a connection that logged in after `t` frames is told about them. */
  function Welcome(uuid: nat, t: nat): seq<Reply> {
    [LoggedIn(uuid), FrameInit(if t == 0 then 0 else (t - 1) % TWO_TO_64, t % TWO_TO_64)]
  }

  /** Replies without the sight messages among them. */
  function Core(replies: seq<Reply>): seq<Reply> {
    if replies == [] then []
    else
      var last := replies[|replies| - 1];
      Core(replies[..|replies| - 1]) + if last.Sight? then [] else [last]
  }

  /** A connection whose session was never given id 0. */
  ghost predicate Plain(s: Server, socket: Socket) {
    LoggedIn(0) !in SentTo(s.sent, socket)
  }

  /** What a connection made after `joined` frames has been sent, sight messages apart: the
      frames since; and if it logged in after `entered` frames, the login replies in between. */
  ghost predicate ChannelOk(s: Server, log: Log, socket: Socket)
    requires socket in s.sessions
  {
    && socket in log.joined && socket in s.sent && log.joined[socket] <= |log.frames|
    && (socket in log.entered <==> s.sessions[socket] != 0)
    && if socket in log.entered then
         var t := log.entered[socket];
         && log.joined[socket] <= t <= |log.frames|
         && Core(s.sent[socket]) == FrameReplies(log.frames, log.joined[socket], t)
            + Welcome(s.sessions[socket], t) + FrameReplies(log.frames, t, |log.frames|)
       else Core(s.sent[socket]) == FrameReplies(log.frames, log.joined[socket], |log.frames|)
  }

  /** A session that logged in has the number of its login modulo 2^32 for id, one that did not
      has 0, and no two sessions have the same number. */
  ghost predicate UsersOk(s: Server, log: Log) {
    && (forall a | a in s.sessions && a in log.numbers ::
      1 <= log.numbers[a] <= log.logins && s.sessions[a] == log.numbers[a] % TWO_TO_32)
    && (forall a | a in s.sessions && a !in log.numbers :: s.sessions[a] == 0)
    && (forall a, b | a in s.sessions && b in s.sessions && a != b && a in log.numbers && b in log.numbers ::
      log.numbers[a] != log.numbers[b])
  }

  ghost predicate ChannelsOk(s: Server, log: Log) {
    forall socket | socket in s.sessions && Plain(s, socket) :: ChannelOk(s, log, socket)
  }

  /** Ids follow the counter, which wraps; channels are as they should be for as long as their
      session was not given id 0. */
  ghost predicate SessionsOk(s: Server, log: Log) {
    s.uuidCounter == log.logins % TWO_TO_32 && UsersOk(s, log) && ChannelsOk(s, log)
  }

  ghost predicate Inv(s: Server, log: Log) {
    IdsOk(s, log) && ArchiveOk(s, log) && KeysConserved(s, log) && AllFit(s, log) && SessionsOk(s, log)
  }

  // ---------------------------------------------------------------- one event

  lemma {:induction false} CollectedSnoc(frames: seq<Keys>, last: Keys, uuid: nat)
    ensures Collected(frames + [last], uuid) == Collected(frames, uuid) + KeysOf(last, uuid)
  {
    if frames == [] {
      assert frames + [last] == [last] && [last][1..] == [];
      assert KeysOf(last, uuid) + [] == KeysOf(last, uuid);
    } else {
      assert (frames + [last])[1..] == frames[1..] + [last];
      CollectedSnoc(frames[1..], last, uuid);
    }
  }

  lemma RepliesFrame(frames: seq<Keys>, last: Keys, lo: nat, hi: nat)
    requires lo <= hi <= |frames|
    ensures FrameReplies(frames + [last], lo, hi) == FrameReplies(frames, lo, hi)
  {
    hide WriteSCFrame, FrameMessage;
    forall i | lo <= i < hi ensures FrameBytes(frames + [last], i) == FrameBytes(frames, i) {
      assert (frames + [last])[i] == frames[i];
    }
  }

  lemma RepliesSnoc(frames: seq<Keys>, last: Keys, lo: nat)
    requires lo <= |frames|
    ensures FrameReplies(frames + [last], lo, |frames| + 1) ==
      FrameReplies(frames, lo, |frames|) + [Frame(FrameBytes(frames + [last], |frames|))]
  {
    hide WriteSCFrame, FrameMessage;
    RepliesFrame(frames, last, lo, |frames|);
    var longer, n := FrameReplies(frames + [last], lo, |frames| + 1), |frames| - lo;
    assert longer[..n] == FrameReplies(frames + [last], lo, |frames|);
    assert longer == longer[..n] + [longer[n]];
  }

  /** Keys are stored for a user, so they are kept for that user and nobody else. */
  lemma KeysKept(s: Server, log: Log, uuid: nat, more: seq<nat>)
    requires KeysConserved(s, log)
    ensures KeysConserved(s.(pending := AddKeys(s.pending, uuid, more)),
      log.(accepted := AddKeys(log.accepted, uuid, more)))
  {
    hide Collected, AddKeys, KeysOf;
    forall u: nat
      ensures Collected(log.frames, u) + KeysOf(AddKeys(s.pending, uuid, more), u) ==
        KeysOf(AddKeys(log.accepted, uuid, more), u)
    {
      AddedFor(s.pending, uuid, more, u);
      AddedFor(log.accepted, uuid, more, u);
      assert Collected(log.frames, u) + KeysOf(s.pending, u) == KeysOf(log.accepted, u);
      assert Collected(log.frames, u) + (KeysOf(s.pending, u) + more) ==
        Collected(log.frames, u) + KeysOf(s.pending, u) + more;
    }
  }

  lemma AddedFor(keys: Keys, uuid: nat, more: seq<nat>, u: nat)
    ensures KeysOf(AddKeys(keys, uuid, more), u) == if u == uuid then KeysOf(keys, u) + more else KeysOf(keys, u)
  {
    assert more == [] ==> KeysOf(keys, u) + more == KeysOf(keys, u);
  }

  lemma KeysTurned(s: Server, log: Log, z: Server)
    requires KeysConserved(s, log) && z.pending == map[]
    ensures KeysConserved(z, log.(frames := log.frames + [s.pending]))
  {
    hide Collected;
    forall u: nat ensures Collected(log.frames + [s.pending], u) + KeysOf(map[], u) == KeysOf(log.accepted, u) {
      CollectedSnoc(log.frames, s.pending, u);
      assert Collected(log.frames, u) + KeysOf(s.pending, u) == KeysOf(log.accepted, u);
      assert Collected(log.frames + [s.pending], u) + [] == Collected(log.frames + [s.pending], u);
    }
  }

  /** The slot a frame is archived in held, if anything, the frame 2^64 before it. */
  lemma ArchiveTurned(s: Server, log: Log, z: Server)
    requires ArchiveOk(s, log) && s.nxtFrameId == |log.frames| % TWO_TO_64
    requires z.archive == s.archive[s.nxtFrameId := s.pending]
    ensures ArchiveOk(z, log.(frames := log.frames + [s.pending]))
  {
    var n := |log.frames|;
    var frames := log.frames + [s.pending];
    forall j | 0 <= j < n + 1 && n + 1 <= j + TWO_TO_64
      ensures j % TWO_TO_64 in z.archive && z.archive[j % TWO_TO_64] == frames[j]
    {
      if j < n { ModuloApart(j, n); }
    }
    assert n % TWO_TO_64 <= n;
  }

  lemma ModuloApart(j: nat, n: nat)
    requires j < n < j + TWO_TO_64
    ensures j % TWO_TO_64 != n % TWO_TO_64
  {
    assert n - j == (n / TWO_TO_64 - j / TWO_TO_64) * TWO_TO_64 + (n % TWO_TO_64 - j % TWO_TO_64);
  }

  lemma IdsTurned(n: nat)
    ensures (n % TWO_TO_64 + 1) % TWO_TO_64 == (n + 1) % TWO_TO_64
  {
    assert n == n / TWO_TO_64 * TWO_TO_64 + n % TWO_TO_64;
    if n % TWO_TO_64 + 1 == TWO_TO_64 {
      assert n + 1 == (n / TWO_TO_64 + 1) * TWO_TO_64;
    }
  }

  lemma CoreSnoc(replies: seq<Reply>, last: Reply)
    ensures Core(replies + [last]) == Core(replies) + if last.Sight? then [] else [last]
  {
    assert (replies + [last])[..|replies|] == replies;
  }

  /** A reply for every session: plain connections were plain before, and a sight message
      leaves the rest of the channel as it was. */
  lemma Heard(s: Server, socket: Socket, reply: Reply)
    requires socket in s.sessions
    ensures var z := Broadcast(s, reply);
      && socket in z.sent && z.sent[socket] == SentTo(s.sent, socket) + [reply]
      && (Plain(z, socket) ==> Plain(s, socket))
      && Core(z.sent[socket]) == Core(SentTo(s.sent, socket)) + if reply.Sight? then [] else [reply]
  {
    hide Core;
    var before := SentTo(s.sent, socket);
    var now := Broadcast(s, reply).sent[socket];
    assert now == before + [reply];
    assert forall r | r in before :: r in now;
    CoreSnoc(before, reply);
  }

  lemma ChannelTurned(s: Server, log: Log, socket: Socket)
    requires IdsOk(s, log) && socket in s.sessions && ChannelOk(s, log, socket)
    ensures ChannelOk(FrameTurn(s), log.(frames := log.frames + [s.pending]), socket)
  {
    hide WriteSCFrame, FrameMessage, FrameReplies, Delivered, Core;
    var frames, n := log.frames + [s.pending], |log.frames|;
    IdsTurned(n);
    var reply := Frame(FrameBytes(frames, n));
    assert FrameTurn(s).sent == Delivered(s.sent, s.sessions.Keys, reply);
    Heard(s, socket, reply);
    RepliesSnoc(log.frames, s.pending, log.joined[socket]);
    RepliesFrame(log.frames, s.pending, log.joined[socket], n);
    if socket in log.entered {
      var t := log.entered[socket];
      RepliesSnoc(log.frames, s.pending, t);
      RepliesFrame(log.frames, s.pending, log.joined[socket], t);
      assert FrameReplies(log.frames, log.joined[socket], t) + Welcome(s.sessions[socket], t)
          + FrameReplies(log.frames, t, n) + [reply]
        == FrameReplies(log.frames, log.joined[socket], t) + Welcome(s.sessions[socket], t)
          + (FrameReplies(log.frames, t, n) + [reply]);
    }
  }

  /** Connections that are plain after a turn were plain before it. */
  lemma PlainTurned(s: Server, socket: Socket)
    requires socket in s.sessions && Plain(FrameTurn(s), socket)
    ensures Plain(s, socket)
  {
    hide WriteSCFrame, FrameMessage, Delivered, Plain, Core;
    Heard(s, socket, Frame(WriteSCFrame(FrameMessage(s.nxtFrameId, (s.nxtFrameId + 1) % TWO_TO_64, s.pending))));
    assert FrameTurn(s).sent == Broadcast(s,
      Frame(WriteSCFrame(FrameMessage(s.nxtFrameId, (s.nxtFrameId + 1) % TWO_TO_64, s.pending)))).sent;
    PlainSame(Broadcast(s, Frame(WriteSCFrame(FrameMessage(s.nxtFrameId, (s.nxtFrameId + 1) % TWO_TO_64, s.pending)))),
      FrameTurn(s), socket);
  }

  lemma PlainSame(s: Server, z: Server, socket: Socket)
    requires SentTo(z.sent, socket) == SentTo(s.sent, socket)
    ensures Plain(z, socket) <==> Plain(s, socket)
  {
  }

  lemma TurnKeepsInv(s: Server, log: Log)
    requires Inv(s, log)
    ensures Inv(FrameTurn(s), log.(frames := log.frames + [s.pending]))
  {
    hide ArchiveOk, KeysConserved, WriteSCFrame, FrameMessage, ChannelOk, UsersOk, Plain, Delivered, KeysFit;
    var z, l := FrameTurn(s), log.(frames := log.frames + [s.pending]);
    IdsTurned(|log.frames|);
    ArchiveTurned(s, log, z);
    KeysTurned(s, log, z);
    assert KeysFit(map[]) by { NoKeysFit(); }
    UsersSame(s, z, log, l);
    forall socket | socket in z.sessions && Plain(z, socket) ensures ChannelOk(z, l, socket) {
      PlainTurned(s, socket);
      ChannelTurned(s, log, socket);
    }
  }

  lemma NoKeysFit()
    ensures KeysFit(map[])
  {
  }

  lemma UsersSame(s: Server, z: Server, log: Log, l: Log)
    requires UsersOk(s, log) && z.sessions == s.sessions && l.logins == log.logins && l.numbers == log.numbers
    ensures UsersOk(z, l)
  {
  }

  /** Nothing of a connection's own changes but for sight messages. */
  lemma ChannelSame(s: Server, z: Server, log: Log, l: Log, socket: Socket)
    requires socket in s.sessions && ChannelOk(s, log, socket)
    requires socket in z.sessions && z.sessions[socket] == s.sessions[socket]
    requires socket in z.sent && (socket in s.sent ==> Core(z.sent[socket]) == Core(s.sent[socket]))
    requires l.frames == log.frames && socket in l.joined &&
      (socket in log.joined ==> l.joined[socket] == log.joined[socket])
    requires socket in l.entered <==> socket in log.entered
    requires socket in log.entered ==> l.entered[socket] == log.entered[socket]
    ensures ChannelOk(z, l, socket)
  {
    hide FrameReplies, Core;
  }

  lemma LoginCounted(n: nat)
    ensures (n % TWO_TO_32 + 1) % TWO_TO_32 == (n + 1) % TWO_TO_32
  {
    assert n == n / TWO_TO_32 * TWO_TO_32 + n % TWO_TO_32;
    if n % TWO_TO_32 + 1 == TWO_TO_32 {
      assert n + 1 == (n / TWO_TO_32 + 1) * TWO_TO_32;
    }
  }

  /** The session that logs in: what it is sent, and that id 0 shows in it. */
  lemma LoginChannel(s: Server, log: Log, from: Socket)
    requires IdsOk(s, log) && from in s.sessions && s.sessions[from] == 0
    requires Plain(s, from) ==> ChannelOk(s, log, from)
    ensures var z := HandleLogin(s, from, true); Plain(z, from) ==> ChannelOk(z, LoggedInTo(log, from), from)
  {
    hide FrameReplies, Delivered, Core, Listed;
    var z, before := HandleLogin(s, from, true), SentTo(s.sent, from);
    var uuid := (s.uuidCounter + 1) % TWO_TO_32;
    var first, second := LoggedIn(uuid), FrameInit(s.curFrameId, s.nxtFrameId);
    var told := Send(s.(uuidCounter := uuid, sessions := s.sessions[from := uuid]), from, [first, second]);
    Heard(told, from, Sight(Listed(told.sessions)));
    if Plain(z, from) {
      var sent := before + [first, second];
      assert SentTo(told.sent, from) == sent;
      assert sent[|before|] == first && first in sent;
      assert forall r | r in before :: r in sent;
      assert sent == (before + [first]) + [second];
      CoreSnoc(before, first);
      CoreSnoc(before + [first], second);
      assert Core(sent) == Core(before) + Welcome(uuid, |log.frames|);
      NoReplies(log.frames);
    }
  }

  /** Every other session only gets a sight message. */
  lemma LoginElsewhere(s: Server, log: Log, from: Socket, socket: Socket)
    requires from in s.sessions && s.sessions[from] == 0 && socket in s.sessions && socket != from
    requires Plain(s, socket) ==> ChannelOk(s, log, socket)
    ensures var z := HandleLogin(s, from, true); Plain(z, socket) ==> ChannelOk(z, LoggedInTo(log, from), socket)
  {
    hide FrameReplies, Delivered, Core, Listed, Plain;
    var z := HandleLogin(s, from, true);
    var uuid := (s.uuidCounter + 1) % TWO_TO_32;
    var told := Send(s.(uuidCounter := uuid, sessions := s.sessions[from := uuid]), from,
      [LoggedIn(uuid), FrameInit(s.curFrameId, s.nxtFrameId)]);
    Heard(told, socket, Sight(Listed(told.sessions)));
    assert SentTo(told.sent, socket) == SentTo(s.sent, socket);
    PlainSame(s, told, socket);
    if Plain(z, socket) {
      ChannelKnown(s, log, socket);
      ChannelSame(s, z, log, LoggedInTo(log, from), socket);
    }
  }

  lemma LoginUsers(s: Server, log: Log, from: Socket)
    requires from in s.sessions && UsersOk(s, log)
    ensures forall z | z == s.(sessions := s.sessions[from := (log.logins + 1) % TWO_TO_32]) ::
      UsersOk(z, LoggedInTo(log, from))
  {
  }

  lemma LoginKeepsSessions(s: Server, log: Log, from: Socket)
    requires Inv(s, log) && from in s.sessions && s.sessions[from] == 0
    ensures SessionsOk(HandleLogin(s, from, true), LoggedInTo(log, from))
  {
    hide ArchiveOk, KeysConserved, AllFit, ChannelOk, Plain, Listed, Delivered, UsersOk;
    var z, l := HandleLogin(s, from, true), LoggedInTo(log, from);
    LoginCounted(log.logins);
    LoginUsers(s, log, from);
    UsersSame(s.(sessions := s.sessions[from := (log.logins + 1) % TWO_TO_32]), z, l, l);
    forall socket | socket in z.sessions && Plain(z, socket) ensures ChannelOk(z, l, socket) {
      if socket == from {
        LoginChannel(s, log, from);
      } else {
        LoginElsewhere(s, log, from, socket);
      }
    }
  }

  lemma NoReplies(frames: seq<Keys>)
    ensures FrameReplies(frames, |frames|, |frames|) == []
    ensures forall some: seq<Reply> :: some + FrameReplies(frames, |frames|, |frames|) == some
  {
  }

  /** Events that touch neither frames nor keys, and sessions only by adding or removing one. */
  lemma SameSessions(s: Server, z: Server, log: Log, l: Log)
    requires SessionsOk(s, log) && z.sessions == s.sessions && z.uuidCounter == s.uuidCounter && z.sent == s.sent
    requires l.logins == log.logins && l.numbers == log.numbers
    requires l.frames == log.frames && l.joined == log.joined && l.entered == log.entered
    ensures SessionsOk(z, l)
  {
    hide FrameReplies, ChannelOk, UsersOk, Plain;
    UsersSame(s, z, log, l);
    forall socket | socket in z.sessions && Plain(z, socket) ensures ChannelOk(z, l, socket) {
      PlainSame(s, z, socket);
      ChannelKnown(s, log, socket);
      ChannelSame(s, z, log, l, socket);
    }
  }

  lemma ChannelKnown(s: Server, log: Log, socket: Socket)
    requires socket in s.sessions && ChannelOk(s, log, socket)
    ensures socket in s.sent && socket in log.joined
  {
    hide FrameReplies;
  }

  lemma AcceptedFit(s: Server, data: Bytes)
    requires KeysFit(s.pending)
    ensures KeysFit(HandleFrame(s, data).pending)
  {
    hide ParseCSFrame, WriteCSFrame, UnknownsOk;
    if ParseCSFrame(data).Some? {
      CSFrameReparse(data);
    }
  }

  lemma LoginKeepsInv(s: Server, log: Log, from: Socket)
    requires Inv(s, log) && from in s.sessions && s.sessions[from] == 0
    ensures Inv(HandleLogin(s, from, true), LoggedInTo(log, from))
  {
    hide ArchiveOk, KeysConserved, KeysFit, SessionsOk, Listed, Delivered;
    LoginKeepsSessions(s, log, from);
    SameRest(s, HandleLogin(s, from, true), log, LoggedInTo(log, from));
  }

  lemma KeysKeepInv(s: Server, log: Log, data: Bytes)
    requires Inv(s, log) && ParseCSFrame(data).Some?
    ensures var m := ParseCSFrame(data).value;
      Inv(HandleFrame(s, data), log.(accepted := AddKeys(log.accepted, UserOf(m), m.keyInfo)))
  {
    hide ArchiveOk, KeysConserved, KeysFit, SessionsOk, ParseCSFrame, AddKeys;
    var m := ParseCSFrame(data).value;
    var z, l := HandleFrame(s, data), log.(accepted := AddKeys(log.accepted, UserOf(m), m.keyInfo));
    KeysKept(s, log, UserOf(m), m.keyInfo);
    AcceptedFit(s, data);
    SameArchive(s, z, log, l);
    SameSessions(s, z, log, l);
  }

  /** The queue and the readiness of the game are no part of the invariant. */
  lemma ControlKeepsInv(s: Server, log: Log, z: Server)
    requires Inv(s, log)
    requires z == s.(queue := z.queue, running := z.running, readyCount := z.readyCount)
    ensures Inv(z, log)
  {
    hide ArchiveOk, KeysConserved, KeysFit, SessionsOk;
    SameRest(s, z, log, log);
    SameSessions(s, z, log, log);
  }

  lemma MessageKeepsInv(s: Server, log: Log)
    requires Inv(s, log)
    ensures Inv(MessageProc(s), NextMessageLog(s, log))
  {
    hide Inv, ParseCSFrame, AddKeys, HandleLogin, HandleFrame;
    var z, l := MessageProc(s), NextMessageLog(s, log);
    if Served(s).Some? {
      var (from, request) := s.queue[0];
      match request
      case Login(parses) =>
        if parses && s.sessions[from] == 0 {
          LoginKeepsInv(s, log, from);
          ControlKeepsInv(HandleLogin(s, from, true), l, z);
        } else {
          NoLogin(s, from, parses);
          ControlKeepsInv(s, log, z);
        }
      case KeysPressed(data) =>
        if ParseCSFrame(data).Some? {
          KeysKeepInv(s, log, data);
          ControlKeepsInv(HandleFrame(s, data), l, z);
        } else {
          NoKeys(s, data);
          ControlKeepsInv(s, log, z);
        }
      case _ => ControlKeepsInv(s, log, z);
    } else {
      ControlKeepsInv(s, log, z);
    }
  }

  lemma NoLogin(s: Server, from: Socket, parses: bool)
    requires from in s.sessions && !(parses && s.sessions[from] == 0)
    ensures HandleLogin(s, from, parses) == s
  {
  }

  lemma NoKeys(s: Server, data: Bytes)
    requires ParseCSFrame(data) == None
    ensures HandleFrame(s, data) == s
  {
    hide ParseCSFrame;
  }

  lemma SameArchive(s: Server, z: Server, log: Log, l: Log)
    requires ArchiveOk(s, log) && z.archive == s.archive && l.frames == log.frames
    ensures ArchiveOk(z, l)
  {
  }

  lemma SameRest(s: Server, z: Server, log: Log, l: Log)
    requires ArchiveOk(s, log) && KeysConserved(s, log)
    requires z.archive == s.archive && z.pending == s.pending
    requires l.frames == log.frames && l.accepted == log.accepted
    ensures ArchiveOk(z, l) && KeysConserved(z, l)
  {
    hide Collected, KeysOf;
  }

  lemma ConnectKeepsInv(s: Server, log: Log, socket: Socket)
    requires Inv(s, log) && socket !in s.sessions
    ensures Inv(Next(s, Connect(socket)), NextLog(s, log, Connect(socket)))
  {
    hide ArchiveOk, KeysConserved, KeysFit, ChannelOk, Plain;
    var z, l := Next(s, Connect(socket)), NextLog(s, log, Connect(socket));
    SameRest(s, z, log, l);
    forall a | a in z.sessions && Plain(z, a) ensures ChannelOk(z, l, a) {
      if a == socket {
        NewChannel(z, l, socket);
      } else {
        PlainSame(s, z, a);
        ChannelKnown(s, log, a);
        ChannelSame(s, z, log, l, a);
      }
    }
  }

  lemma NewChannel(z: Server, l: Log, socket: Socket)
    requires socket in z.sessions && z.sessions[socket] == 0 && socket in z.sent && z.sent[socket] == []
    requires socket in l.joined && l.joined[socket] == |l.frames| && socket !in l.entered
    ensures ChannelOk(z, l, socket)
  {
    NoReplies(l.frames);
  }

  lemma DisconnectKeepsInv(s: Server, log: Log, socket: Socket)
    requires Inv(s, log) && socket in s.sessions
    ensures Inv(Next(s, Disconnect(socket)), log)
  {
    hide ArchiveOk, KeysConserved, KeysFit, ChannelOk, Plain;
    var z := Next(s, Disconnect(socket));
    SameRest(s, z, log, log);
    forall a | a in z.sessions && Plain(z, a) ensures ChannelOk(z, log, a) {
      PlainSame(s, z, a);
      ChannelKnown(s, log, a);
      ChannelSame(s, z, log, log, a);
    }
  }

  lemma StepKeepsInv(s: Server, log: Log, e: Event)
    requires Inv(s, log) && Enabled(s, e)
    ensures Inv(Next(s, e), NextLog(s, log, e))
  {
    hide Inv, MessageProc, NextMessageLog, FrameTurn;
    match e
    case Connect(socket) => ConnectKeepsInv(s, log, socket);
    case Disconnect(socket) => DisconnectKeepsInv(s, log, socket);
    case Push(from, request) => ControlKeepsInv(s, log, Next(s, e));
    case Tick(due) =>
      MessageKeepsInv(s, log);
      if due && MessageProc(s).running {
        TurnKeepsInv(MessageProc(s), NextMessageLog(s, log));
      }
  }

  lemma FreshInv(s: Server, log: Log)
    requires s == FRESH && log == NO_LOG
    ensures Inv(s, log)
  {
  }

  // ---------------------------------------------------------------- whole runs

  ghost predicate Begins(s: Server, log: Log) {
    s == FRESH && log == NO_LOG
  }

  ghost predicate Run(states: seq<Server>, logs: seq<Log>, events: seq<Event>) {
    && |states| == |logs| == |events| + 1 && Begins(states[0], logs[0])
    && forall i | 0 <= i < |events| ::
      && Enabled(states[i], events[i])
      && states[i + 1] == Next(states[i], events[i]) && logs[i + 1] == NextLog(states[i], logs[i], events[i])
  }

  lemma {:induction false} RunKeepsInv(states: seq<Server>, logs: seq<Log>, events: seq<Event>, n: nat)
    requires Run(states, logs, events) && n < |states|
    ensures n < |logs| && Inv(states[n], logs[n])
    decreases n
  {
    hide Inv, Next, NextLog, Enabled, Begins;
    if n == 0 {
      BeginsInv(states[0], logs[0]);
    } else {
      RunKeepsInv(states, logs, events, n - 1);
      StepKeepsInv(states[n - 1], logs[n - 1], events[n - 1]);
    }
  }

  lemma BeginsInv(s: Server, log: Log)
    requires Begins(s, log)
    ensures Inv(s, log)
  {
    FreshInv(s, log);
  }

  /** In every state of every run, the archive's ids are those below the number of turns and
      below 2^64, and under its id each of the last 2^64 frames is there unchanged. So up to
      2^64 turns the archive is exactly the history, and after that turn j + 2^64 replaces
      frame j. */
  lemma ArchiveIsHistory(states: seq<Server>, logs: seq<Log>, events: seq<Event>, n: nat)
    requires Run(states, logs, events) && n < |states|
    ensures var s, frames := states[n], logs[n].frames;
      && (forall i: nat :: i in s.archive <==> i < |frames| && i < TWO_TO_64)
      && (forall j | 0 <= j < |frames| && |frames| <= j + TWO_TO_64 ::
        j % TWO_TO_64 in s.archive && s.archive[j % TWO_TO_64] == frames[j])
      && (|frames| <= TWO_TO_64 ==> forall j | 0 <= j < |frames| :: j in s.archive && s.archive[j] == frames[j])
  {
    hide Run, IdsOk, KeysConserved, AllFit, SessionsOk;
    RunKeepsInv(states, logs, events, n);
    var s, frames := states[n], logs[n].frames;
    forall i: nat | i < |frames| && i < TWO_TO_64 ensures i in s.archive {
      LatestWith(i, |frames|);
    }
    forall j: nat | j < |frames| && |frames| <= TWO_TO_64 ensures j in s.archive && s.archive[j] == frames[j] {
      assert j % TWO_TO_64 == j;
    }
  }

  lemma LatestWith(i: nat, n: nat)
    requires i < n && i < TWO_TO_64
    ensures exists j :: 0 <= j < n && n <= j + TWO_TO_64 && j % TWO_TO_64 == i
  {
    var q := (n - 1 - i) / TWO_TO_64;
    var j := i + q * TWO_TO_64;
    assert n - 1 - i == q * TWO_TO_64 + (n - 1 - i) % TWO_TO_64;
    assert j % TWO_TO_64 == i by {
      assert j == j / TWO_TO_64 * TWO_TO_64 + j % TWO_TO_64;
      assert (j / TWO_TO_64 - q) * TWO_TO_64 == i - j % TWO_TO_64;
      assert j / TWO_TO_64 - q == 0;
    }
    assert 0 <= j < n && n <= j + TWO_TO_64;
  }

  /** Frames are only ever added, one turn at a time. */
  lemma {:induction false} FramesGrow(states: seq<Server>, logs: seq<Log>, events: seq<Event>, m: nat, n: nat)
    requires Run(states, logs, events) && m <= n < |states|
    ensures logs[m].frames <= logs[n].frames
    decreases n
  {
    hide Next, Enabled, Begins, MessageProc;
    if m < n {
      FramesGrow(states, logs, events, m, n - 1);
      assert logs[n] == NextLog(states[n - 1], logs[n - 1], events[n - 1]);
      LogGrows(states[n - 1], logs[n - 1], events[n - 1]);
    }
  }

  lemma LogGrows(s: Server, log: Log, e: Event)
    ensures log.frames <= NextLog(s, log, e).frames
  {
    hide MessageProc, ParseCSFrame;
  }

  lemma ArchiveWhole(s: Server, log: Log)
    requires ArchiveOk(s, log) && |log.frames| <= TWO_TO_64
    ensures forall i :: i in s.archive <==> 0 <= i < |log.frames|
    ensures forall i | i in s.archive :: s.archive[i] == log.frames[i]
  {
    forall j: nat | j < |log.frames| ensures j in s.archive && s.archive[j] == log.frames[j] {
      assert j % TWO_TO_64 == j;
    }
  }

  /** Up to 2^64 turns, an archived frame is never overwritten. */
  lemma ArchiveNeverOverwritten(states: seq<Server>, logs: seq<Log>, events: seq<Event>, m: nat, n: nat, id: nat)
    requires Run(states, logs, events) && m <= n < |states| && |logs[n].frames| <= TWO_TO_64
    requires id in states[m].archive
    ensures id in states[n].archive && states[n].archive[id] == states[m].archive[id]
  {
    hide Run, IdsOk, ArchiveOk, KeysConserved, AllFit, SessionsOk;
    FramesGrow(states, logs, events, m, n);
    RunKeepsInv(states, logs, events, m);
    RunKeepsInv(states, logs, events, n);
    ArchiveWhole(states[m], logs[m]);
    ArchiveWhole(states[n], logs[n]);
    assert states[m].archive[id] == logs[m].frames[id];
  }

  /** In every state of every run and for every user, the keys in the frames turned followed by
      the keys waiting for the next frame are all the keys accepted for the user, in the order
      they arrived: none is lost, repeated, reordered or given to another user. */
  lemma NoKeyLost(states: seq<Server>, logs: seq<Log>, events: seq<Event>, n: nat, uuid: nat)
    requires Run(states, logs, events) && n < |states|
    ensures Collected(logs[n].frames, uuid) + KeysOf(states[n].pending, uuid) == KeysOf(logs[n].accepted, uuid)
  {
    hide Run, IdsOk, ArchiveOk, AllFit, SessionsOk;
    RunKeepsInv(states, logs, events, n);
  }

  /** In every run, the ids of two sessions that logged in are those of their login numbers,
      which are never the same, modulo 2^32: the sessions share an id exactly when the numbers
      are congruent, and one has id 0 exactly when its number is a multiple of 2^32. Until 2^32
      logins, ids are therefore distinct and not 0. */
  lemma UserIdsDistinct(states: seq<Server>, logs: seq<Log>, events: seq<Event>, n: nat, a: Socket, b: Socket)
    requires Run(states, logs, events) && n < |states| && n < |logs|
    requires a in states[n].sessions && b in states[n].sessions && a != b
    requires a in logs[n].numbers && b in logs[n].numbers
    ensures var ids, numbers := states[n].sessions, logs[n].numbers;
      && numbers[a] != numbers[b]
      && (ids[a] == ids[b] <==> (numbers[a] - numbers[b]) % TWO_TO_32 == 0)
      && (ids[a] == 0 <==> numbers[a] % TWO_TO_32 == 0)
      && (logs[n].logins < TWO_TO_32 ==> ids[a] != 0 && ids[a] != ids[b])
  {
    hide Run, IdsOk, ArchiveOk, AllFit, KeysConserved, ChannelsOk;
    RunKeepsInv(states, logs, events, n);
    Congruent(logs[n].numbers[a], logs[n].numbers[b]);
  }

  lemma Congruent(a: nat, b: nat)
    ensures a % TWO_TO_32 == b % TWO_TO_32 <==> (a - b) % TWO_TO_32 == 0
  {
    var q, r := a / TWO_TO_32 - b / TWO_TO_32, a % TWO_TO_32 - b % TWO_TO_32;
    assert a - b == q * TWO_TO_32 + r;
    var k := (a - b) / TWO_TO_32;
    if (a - b) % TWO_TO_32 == 0 {
      assert r == (k - q) * TWO_TO_32;
    }
  }

  // ---------------------------------------------------------------- the user ids given out

  /** A tick that serves a first login of a session. */
  predicate LogsIn(s: Server, e: Event, from: Socket) {
    e.Tick? && from in s.sessions && s.sessions[from] == 0 && Served(s) == Some((from, Login(true)))
  }

  /** In every run, the n-th login gives id n modulo 2^32: 0, which stands for no login, exactly
      when n is a multiple of 2^32. A session given 0 logs in again when it next asks to. */
  lemma LoginGetsId(states: seq<Server>, logs: seq<Log>, events: seq<Event>, n: nat, from: Socket)
    requires Run(states, logs, events) && n < |events| && LogsIn(states[n], events[n], from)
    ensures logs[n + 1].logins == logs[n].logins + 1
    ensures from in states[n + 1].sessions && states[n + 1].sessions[from] == logs[n + 1].logins % TWO_TO_32
    ensures logs[n + 1].logins % TWO_TO_32 == 0 <==>
      forall due :: LogsIn(states[n + 1].(queue := [(from, Login(true))]), Tick(due), from)
  {
    hide Run, IdsOk, ArchiveOk, KeysConserved, AllFit, UsersOk, ChannelsOk, Listed, Delivered, WriteSCFrame,
      FrameMessage;
    StepsRight(states, logs, events, n);
    RunKeepsInv(states, logs, events, n);
    LoginCounted(logs[n].logins);
    var again := states[n + 1].(queue := [(from, Login(true))]);
    assert LogsIn(again, Tick(false), from) <==> states[n + 1].sessions[from] == 0;
  }

  lemma StepsRight(states: seq<Server>, logs: seq<Log>, events: seq<Event>, n: nat)
    requires Run(states, logs, events) && n < |events|
    ensures |states| == |logs| == |events| + 1
    ensures Enabled(states[n], events[n]) && states[n + 1] == Next(states[n], events[n])
    ensures logs[n + 1] == NextLog(states[n], logs[n], events[n])
  {
    hide Next, NextLog, Enabled, Begins;
  }

  lemma Extended(states: seq<Server>, logs: seq<Log>, events: seq<Event>, e: Event)
    requires Run(states, logs, events) && Enabled(states[|events|], e)
    ensures var s, log := states[|events|], logs[|events|];
      Run(states + [Next(s, e)], logs + [NextLog(s, log, e)], events + [e])
  {
    hide Next, NextLog, Enabled, Begins;
  }

  /** A run in which sockets 0, 1, ... connect and log in one after the other. */
  lemma {:induction false} RunWithLogins(count: nat)
    returns (states: seq<Server>, logs: seq<Log>, events: seq<Event>)
    ensures Run(states, logs, events) && |states| == |logs| == |events| + 1
    ensures var s := states[|events|];
      && s.queue == [] && logs[|events|].logins == count && s.uuidCounter == count % TWO_TO_32
      && (forall socket: nat :: socket in s.sessions <==> socket < count)
      && (count > 0 ==> s.sessions[count - 1] == count % TWO_TO_32)
  {
    hide Run;
    if count == 0 {
      states, logs, events := [FRESH], [NO_LOG], [];
      assert Run(states, logs, events) by { StartsRun(states, logs, events); }
    } else {
      states, logs, events := RunWithLogins(count - 1);
      states, logs, events := OneMoreLogin(states, logs, events, count - 1);
      LoginCounted(count - 1);
    }
  }

  lemma StartsRun(states: seq<Server>, logs: seq<Log>, events: seq<Event>)
    requires states == [FRESH] && logs == [NO_LOG] && events == []
    ensures Run(states, logs, events)
  {
  }

  lemma OneMore(states: seq<Server>, logs: seq<Log>, events: seq<Event>, e: Event)
    returns (ss: seq<Server>, ls: seq<Log>, es: seq<Event>)
    requires Run(states, logs, events) && |states| == |logs| == |events| + 1 && Enabled(states[|events|], e)
    ensures Run(ss, ls, es) && |ss| == |ls| == |es| + 1 && es == events + [e]
    ensures ss == states + [Next(states[|events|], e)]
    ensures ls == logs + [NextLog(states[|events|], logs[|events|], e)]
  {
    hide Run, Next, NextLog, Enabled;
    Extended(states, logs, events, e);
    ss, es := states + [Next(states[|events|], e)], events + [e];
    ls := logs + [NextLog(states[|events|], logs[|events|], e)];
  }

  function SentBefore(s: Server, id: nat, socket: Socket, to: Socket): seq<Reply> {
    if to == socket then [LoggedIn(id), FrameInit(s.curFrameId, s.nxtFrameId)] else SentTo(s.sent, to)
  }

  /** A new connection that logs in at once: the state and history after it. */
  ghost predicate LoggedInNow(s: Server, log: Log, z: Server, l: Log, socket: Socket) {
    var id := (s.uuidCounter + 1) % TWO_TO_32;
    && z == s.(sessions := s.sessions[socket := id], uuidCounter := id, sent := z.sent)
    && l == log.(logins := log.logins + 1, joined := log.joined[socket := |log.frames|],
      entered := log.entered[socket := |log.frames|], numbers := log.numbers[socket := log.logins + 1])
    && (forall to | to in z.sessions ::
      to in z.sent && z.sent[to] == SentBefore(s, id, socket, to) + [Sight(Listed(z.sessions))])
  }

  lemma LoginResult(s: Server, log: Log, from: Socket)
    requires from in s.sessions && s.sessions[from] == 0 && s.queue == [(from, Login(true))]
    ensures var z := Next(s, Tick(false)); z == HandleLogin(s, from, true).(queue := [])
    ensures NextLog(s, log, Tick(false)) == LoggedInTo(log, from)
  {
    hide Listed, Delivered, HandleLogin;
    assert MessageProc(s).queue == [];
  }

  lemma LoginSent(s: Server, from: Socket)
    requires from in s.sessions && s.sessions[from] == 0
    ensures var z := HandleLogin(s, from, true);
      forall to | to in z.sessions :: to in z.sent && z.sent[to] ==
        (if to == from then SentTo(s.sent, to) + [LoggedIn(z.uuidCounter), FrameInit(s.curFrameId, s.nxtFrameId)]
         else SentTo(s.sent, to)) + [Sight(Listed(z.sessions))]
  {
    hide Listed;
  }

  function Asking(s: Server, socket: Socket): Server {
    s.(sessions := s.sessions[socket := 0], sent := s.sent[socket := []], queue := [(socket, Login(true))])
  }

  function AskingLog(log: Log, socket: Socket): Log {
    log.(joined := log.joined[socket := |log.frames|], entered := log.entered - {socket},
      numbers := log.numbers - {socket})
  }

  lemma AsksNow(s: Server, log: Log, socket: Socket)
    requires s.queue == []
    ensures var a, la := Next(s, Connect(socket)), NextLog(s, log, Connect(socket));
      && Next(a, Push(socket, Login(true))) == Asking(s, socket)
      && NextLog(a, la, Push(socket, Login(true))) == AskingLog(log, socket)
  {
    hide MessageProc, NextMessageLog;
  }

  lemma LoginNow(s: Server, log: Log, socket: Socket)
    requires socket !in s.sessions && s.queue == []
    ensures var b, lb := Asking(s, socket), AskingLog(log, socket);
      LoggedInNow(s, log, Next(b, Tick(false)), NextLog(b, lb, Tick(false)), socket)
  {
    hide Next, NextLog, Listed, Delivered;
    var b := Asking(s, socket);
    LoginResult(b, AskingLog(log, socket), socket);
    LoginSent(b, socket);
  }

  lemma OneMoreLogin(states: seq<Server>, logs: seq<Log>, events: seq<Event>, socket: Socket)
    returns (ss: seq<Server>, ls: seq<Log>, es: seq<Event>)
    requires Run(states, logs, events) && |states| == |logs| == |events| + 1
    requires socket !in states[|events|].sessions && states[|events|].queue == []
    ensures Run(ss, ls, es) && |ss| == |ls| == |es| + 1
    ensures LoggedInNow(states[|events|], logs[|events|], ss[|es|], ls[|es|], socket)
  {
    hide Run, Next, NextLog, LoggedInNow;
    AsksNow(states[|events|], logs[|events|], socket);
    LoginNow(states[|events|], logs[|events|], socket);
    ss, ls, es := OneMore(states, logs, events, Connect(socket));
    ss, ls, es := OneMore(ss, ls, es, Push(socket, Login(true)));
    ss, ls, es := OneMore(ss, ls, es, Tick(false));
  }

  /** So there is a run that gives a session id 0. */
  lemma IdZeroGiven() returns (states: seq<Server>, logs: seq<Log>, events: seq<Event>, socket: Socket)
    ensures Run(states, logs, events) && |states| == |logs| == |events| + 1
    ensures socket in states[|events|].sessions && states[|events|].sessions[socket] == 0
    ensures logs[|events|].logins == TWO_TO_32
  {
    hide Run;
    socket := TWO_TO_32 - 1;
    states, logs, events := RunWithLogins(TWO_TO_32);
  }
}
