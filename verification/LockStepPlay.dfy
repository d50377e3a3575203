/** The lock-step server and its clients together. With a reliable ordered channel, what a client
    runs is a contiguous stretch of the server's frames, the same for all clients. */
module LockStepPlay {
  import opened Options
  import opened Wire
  import opened WireLaws
  import opened PlayerValues
  import opened PlayerRoundTrip
  import opened LockStepServer
  import opened LockStepRuns
  import opened LockStepClient
  import opened Numbers

  // ---------------------------------------------------------------- reading back a server frame

  lemma {:induction false} AscendingMeans(s: set<nat>)
    ensures forall x :: x in Ascending(s) <==> x in s
    ensures forall i, j | 0 <= i < j < |Ascending(s)| :: Ascending(s)[i] < Ascending(s)[j]
    decreases |s|
  {
    if s != {} {
      var rest := Ascending(s - {Least(s)});
      AscendingMeans(s - {Least(s)});
      assert forall x | x in rest :: Least(s) < x;
      var all := Ascending(s);
      assert all == [Least(s)] + rest;
      forall i, j | 0 <= i < j < |all| ensures all[i] < all[j] {
        assert all[j] == rest[j - 1] && rest[j - 1] in rest;
        assert i > 0 ==> all[i] == rest[i - 1];
      }
    }
  }

  function Picked(order: seq<nat>, keys: Keys): Keys {
    map uuid | uuid in order :: KeysOf(keys, uuid)
  }

  lemma {:induction false} PoolOfFrames(order: seq<nat>, keys: Keys)
    requires forall i, j | 0 <= i < j < |order| :: order[i] < order[j]
    ensures PoolOf(UserFramesAt(order, keys)) == Some(Picked(order, keys))
    decreases |order|
  {
    hide KeysOf;
    var users := UserFramesAt(order, keys);
    if order != [] {
      var n := |order| - 1;
      var front, last := order[..n], order[n];
      assert users[..n] == UserFramesAt(front, keys);
      PoolOfFrames(front, keys);
      PickedSnoc(front, last, keys);
      assert order == front + [last];
      assert last !in front;
      assert users[n] == UserFrame(Some(last), KeysOf(keys, last), []);
    }
  }

  lemma PickedSnoc(front: seq<nat>, last: nat, keys: Keys)
    ensures Picked(front + [last], keys) == Picked(front, keys)[last := KeysOf(keys, last)]
  {
    hide KeysOf;
    assert forall x :: x in front + [last] <==> x in front || x == last;
  }

  lemma {:induction false} NestedFits(users: seq<UserFrame>, u: UserFrame)
    requires u in users
    ensures |WriteUserFrame(u)| <= |WriteUserFrames(users)|
  {
    if u != users[0] {
      NestedFits(users[1..], u);
    }
  }

  /** The room in a message body. */
  const DATA_SIZE: nat := 131072

  ghost predicate Fits(frames: seq<Keys>, i: nat)
    requires i < |frames|
  {
    |FrameBytes(frames, i)| <= DATA_SIZE
  }

  lemma FrameOk(id: nat, next: nat, keys: Keys)
    requires id < TWO_TO_64 && next < TWO_TO_64 && KeysFit(keys)
    requires |WriteSCFrame(FrameMessage(id, next, keys))| <= DATA_SIZE
    ensures SCFrameOk(FrameMessage(id, next, keys))
  {
    hide WriteUserFrame, UserFrameOk;
    AscendingMeans(keys.Keys);
    hide Ascending;
    var users := FrameMessage(id, next, keys).users;
    forall u | u in users ensures UserFrameOk(u, RECURSION_LIMIT - 1) && |WriteUserFrame(u)| < TWO_TO_31 {
      NestedFits(users, u);
      var i :| 0 <= i < |users| && users[i] == u;
      assert Ascending(keys.Keys)[i] in keys.Keys;
      UserOkWith(u, Ascending(keys.Keys)[i], keys);
    }
  }

  lemma UserOkWith(u: UserFrame, uuid: nat, keys: Keys)
    requires KeysFit(keys) && uuid in keys && u == UserFrame(Some(uuid), KeysOf(keys, uuid), [])
    ensures UserFrameOk(u, RECURSION_LIMIT - 1)
  {
  }

  /** The client reads back exactly the ids and the keys the server put in the frame. */
  lemma FrameReadBack(frames: seq<Keys>, i: nat)
    requires i < |frames| && KeysFit(frames[i]) && Fits(frames, i)
    ensures var m := ParseSCFrame(FrameBytes(frames, i));
      && m.Some? && m.value.frameId == Some(i % TWO_TO_64) && m.value.nextFrameId == Some((i + 1) % TWO_TO_64)
      && PoolOf(m.value.users) == Some(frames[i])
  {
    hide WriteSCFrame, ParseSCFrame, SCFrameOk, KeysFit;
    var keys := frames[i];
    FrameOk(i % TWO_TO_64, (i + 1) % TWO_TO_64, keys);
    SCFrameRoundTrip(FrameMessage(i % TWO_TO_64, (i + 1) % TWO_TO_64, keys));
    AscendingMeans(keys.Keys);
    PoolOfFrames(Ascending(keys.Keys), keys);
    assert Picked(Ascending(keys.Keys), keys) == keys;
  }

  // ---------------------------------------------------------------- what a client runs

  /** How many replies, sight messages apart, came since the object of one's own was made. */
  function Since(inputs: seq<Input>): nat {
    if inputs == [] then 0
    else
      var front, last := inputs[..|inputs| - 1], inputs[|inputs| - 1];
      if Own(After(front)).Some? && last.Receive? && !last.reply.Sight? then Since(front) + 1 else Since(front)
  }

  /** How many of those had come, frame-init first, when the object was started. */
  function StartedAfter(inputs: seq<Input>): Option<nat> {
    if inputs == [] then None
    else
      var front, last := inputs[..|inputs| - 1], inputs[|inputs| - 1];
      if StartedAfter(front) == None && last.Start? && Own(After(front)).Some? then Some(Since(front))
      else StartedAfter(front)
  }

  /** The first frame delivered to a client that logged in after `t` frames and was started
      after `d` replies more. */
  function FirstHeard(t: nat, d: nat): nat {
    if d == 0 then t else t + d - 1
  }

  /** Whether that frame is the one waited for. The frame-init reply, if it was heard, announced
      frame t - 1, or 0 when t is 0; if not, frame 0 is waited for. */
  predicate Awaited(t: nat, d: nat) {
    if d == 0 then t == 0 else FirstHeard(t, d) % TWO_TO_64 == 0
  }

  /** The first frame run. */
  function FirstRun(t: nat, d: nat): nat {
    if Awaited(t, d) then FirstHeard(t, d) else FirstHeard(t, d) + 1
  }

  /** The frame id waited for before any frame is heard. */
  function IdAtFirst(t: nat, d: nat): nat {
    if d == 0 && t > 0 then (t - 1) % TWO_TO_64 else 0
  }

  function Stretch(frames: seq<Keys>, first: nat, upTo: nat): seq<Keys>
    requires upTo <= |frames|
  {
    if first <= upTo then frames[first..upTo] else []
  }

  /** The object of one's own after `k` of the replies of its channel, sight messages apart,
      when it was started after `d` of those that follow the login reply. */
  ghost predicate Progress(c: Option<Client>, frames: seq<Keys>, joined: nat, t: nat, k: nat, d: Option<nat>)
    requires joined <= t <= |frames|
  {
    var before := t - joined;
    && (k <= before <==> c == None)
    && (c == None ==> d == None)
    && (c.Some? ==>
      && (c.value.started <==> d.Some?)
      && (d.Some? ==> d.value <= k - before - 1)
      && (k - before - 1 == 0 || d == None || (d.value > 0 && d.value == k - before - 1) ==>
        c.value.ran == [] && c.value.curFrameId == 0))
    && (k >= before + 2 && d.Some? ==>
      var upTo := t + (k - before - 2);
      && upTo <= |frames|
      && c.value.curFrameId == (if FirstHeard(t, d.value) < upTo then upTo % TWO_TO_64 else IdAtFirst(t, d.value))
      && c.value.ran == Stretch(frames, FirstRun(t, d.value), upTo))
  }

  ghost function Channel(frames: seq<Keys>, joined: nat, t: nat, uuid: nat): seq<Reply>
    requires joined <= t <= |frames|
  {
    FrameReplies(frames, joined, t) + Welcome(uuid, t) + FrameReplies(frames, t, |frames|)
  }

  /** Key presses and sight messages. */
  lemma AsideKeepsProgress(c: Option<Client>, z: Option<Client>, frames: seq<Keys>, joined: nat, t: nat, k: nat,
      d: Option<nat>, input: Input)
    requires joined <= t <= |frames| && Progress(c, frames, joined, t, k, d)
    requires OwnFollows(c, z, input) && (input.Press? || (input.Receive? && input.reply.Sight?))
    ensures Progress(z, frames, joined, t, k, d)
  {
    hide Stretch;
  }

  /** Being started, again or for the first time. */
  lemma StartKeepsProgress(c: Option<Client>, z: Option<Client>, frames: seq<Keys>, joined: nat, t: nat, k: nat,
      d: Option<nat>)
    requires joined <= t <= |frames| && k <= |frames| - joined + 2 && Progress(c, frames, joined, t, k, d)
    requires OwnFollows(c, z, Start)
    ensures Progress(z, frames, joined, t, k,
      if d == None && c.Some? && k > t - joined then Some(k - (t - joined) - 1) else d)
  {
    if d == None && c.Some? && k >= t - joined + 2 {
      var upTo := t + (k - (t - joined) - 2);
      assert FirstHeard(t, k - (t - joined) - 1) == upTo;
      assert frames[upTo..upTo] == [];
    }
  }

  lemma ReplyAt(frames: seq<Keys>, joined: nat, t: nat, uuid: nat, k: nat)
    requires joined <= t <= |frames| && k < |Channel(frames, joined, t, uuid)|
    ensures var before := t - joined;
      Channel(frames, joined, t, uuid)[k] ==
        if k < before then Frame(FrameBytes(frames, joined + k))
        else if k == before then LoggedIn(uuid)
        else if k == before + 1 then FrameInit(if t == 0 then 0 else (t - 1) % TWO_TO_64, t % TWO_TO_64)
        else Frame(FrameBytes(frames, t + (k - before - 2)))
    ensures k >= t - joined + 2 ==> t + (k - (t - joined) - 2) < |frames|
  {
    hide FrameBytes;
  }

  /** Receiving the next reply of the channel. */
  lemma ReceiveKeepsProgress(c: Option<Client>, z: Option<Client>, frames: seq<Keys>, joined: nat, t: nat, uuid: nat,
      k: nat, d: Option<nat>)
    requires joined <= t <= |frames| && k < |Channel(frames, joined, t, uuid)|
    requires forall i | 0 <= i < |frames| :: KeysFit(frames[i]) && Fits(frames, i)
    requires Progress(c, frames, joined, t, k, d)
    requires OwnFollows(c, z, Receive(Channel(frames, joined, t, uuid)[k]))
    ensures Progress(z, frames, joined, t, k + 1, d)
  {
    hide Channel, FrameBytes, ParseSCFrame, PoolOf, KeysFit, Fits, KeyMessage;
    ReplyAt(frames, joined, t, uuid, k);
    var before := t - joined;
    if k >= before + 2 {
      hide Progress, OwnFollows;
      var i := t + (k - before - 2);
      FrameReadBack(frames, i);
      FrameKeepsProgress(c, z, frames, joined, t, k, d, FrameBytes(frames, i));
    } else if k == before + 1 && d.Some? {
      assert frames[t..t] == [];
    }
  }

  /** A frame of the channel, read back. */
  lemma FrameKeepsProgress(c: Option<Client>, z: Option<Client>, frames: seq<Keys>, joined: nat, t: nat, k: nat,
      d: Option<nat>, data: Bytes)
    requires joined <= t <= |frames| && t - joined + 2 <= k && joined + k - 2 < |frames|
    requires Progress(c, frames, joined, t, k, d) && OwnFollows(c, z, Receive(Frame(data)))
    requires var i, m := joined + k - 2, ParseSCFrame(data);
      && m.Some? && m.value.frameId == Some(i % TWO_TO_64) && m.value.nextFrameId == Some((i + 1) % TWO_TO_64)
      && PoolOf(m.value.users) == Some(frames[i])
    ensures Progress(z, frames, joined, t, k + 1, d)
  {
    hide ParseSCFrame, PoolOf, KeyMessage, Stretch;
    if d.Some? {
      if d.value == 0 && k == t - joined + 2 && t > 0 {
        ModuloApart(t - 1, t);
      }
      StretchGrows(frames, FirstRun(t, d.value), joined + k - 2);
    }
  }

  lemma StretchGrows(frames: seq<Keys>, first: nat, i: nat)
    requires i < |frames|
    ensures Stretch(frames, first, i + 1) == if first <= i then Stretch(frames, first, i) + [frames[i]] else []
    ensures first > i ==> Stretch(frames, first, i) == []
  {
    if first == i + 1 {
      assert frames[i + 1..i + 1] == [];
    }
  }

  lemma {:induction false} InputsMakeProgress(inputs: seq<Input>, frames: seq<Keys>, joined: nat, t: nat, uuid: nat)
    requires joined <= t <= |frames|
    requires forall i | 0 <= i < |frames| :: KeysFit(frames[i]) && Fits(frames, i)
    requires Core(Received(inputs)) <= Channel(frames, joined, t, uuid)
    ensures Progress(Own(After(inputs)), frames, joined, t, |Core(Received(inputs))|, StartedAfter(inputs))
    ensures Own(After(inputs)).Some? <==> |Core(Received(inputs))| > t - joined
    ensures Since(inputs) == if Own(After(inputs)).Some? then |Core(Received(inputs))| - (t - joined) - 1 else 0
    decreases |inputs|
  {
    hide Channel, KeysFit, Fits, Progress, React, Core, Own, OwnFollows, SceneOk, AllFollow;
    if inputs == [] {
      NoProgress(frames, joined, t);
    } else {
      var front, last := inputs[..|inputs| - 1], inputs[|inputs| - 1];
      var c, z, k, d := Own(After(front)), Own(After(inputs)), |Core(Received(front))|, StartedAfter(front);
      ReceivedOneMore(front, last);
      assert front + [last] == inputs;
      InputsMakeProgress(front, frames, joined, t, uuid);
      AfterOk(front);
      ObjectsFollow(After(front), last);
      ChannelLength(frames, joined, t, uuid);
      match last {
        case Start => StartKeepsProgress(c, z, frames, joined, t, k, d);
        case Press(_) => AsideKeepsProgress(c, z, frames, joined, t, k, d, last);
        case Receive(reply) =>
          if reply.Sight? {
            AsideKeepsProgress(c, z, frames, joined, t, k, d, last);
          } else {
            assert reply == Channel(frames, joined, t, uuid)[k];
            ReceiveKeepsProgress(c, z, frames, joined, t, uuid, k, d);
          }
      }
      ProgressMade(z, frames, joined, t, |Core(Received(inputs))|, StartedAfter(inputs));
    }
  }

  lemma ChannelLength(frames: seq<Keys>, joined: nat, t: nat, uuid: nat)
    requires joined <= t <= |frames|
    ensures |Channel(frames, joined, t, uuid)| == |frames| - joined + 2
  {
    hide FrameBytes;
  }

  lemma ProgressMade(c: Option<Client>, frames: seq<Keys>, joined: nat, t: nat, k: nat, d: Option<nat>)
    requires joined <= t <= |frames| && Progress(c, frames, joined, t, k, d)
    ensures c.Some? <==> k > t - joined
  {
  }

  lemma ReceivedOneMore(inputs: seq<Input>, last: Input)
    ensures Core(Received(inputs + [last])) == Core(Received(inputs)) +
      if last.Receive? && !last.reply.Sight? then [last.reply] else []
  {
    hide Core;
    assert (inputs + [last])[..|inputs|] == inputs;
    if last.Receive? {
      CoreSnoc(Received(inputs), last.reply);
    } else {
      assert Received(inputs + [last]) == Received(inputs);
    }
  }

  lemma NoProgress(frames: seq<Keys>, joined: nat, t: nat)
    requires joined <= t <= |frames|
    ensures Progress(Own(NOTHING), frames, joined, t, |Core([])|, None) && Own(NOTHING) == None && Core([]) == []
  {
  }

  lemma {:induction false} CorePrefix(some: seq<Reply>, all: seq<Reply>)
    requires some <= all
    ensures Core(some) <= Core(all)
    decreases |all|
  {
    if |some| == |all| {
      assert some == all;
    } else {
      CorePrefix(some, all[..|all| - 1]);
    }
  }

  // ---------------------------------------------------------------- server and clients together

  /** The frames run by the object of one's own. */
  function Ran(inputs: seq<Input>): seq<Keys> {
    if Own(After(inputs)).Some? then Own(After(inputs)).value.ran else []
  }

  /** The number of the first frame a client that logged in after `t` frames runs, if it was
      started. */
  function FirstFrame(inputs: seq<Input>, t: nat): nat {
    match StartedAfter(inputs)
    case None => t
    case Some(d) => FirstRun(t, d)
  }

  /** The stretch of the server's frames that a client, at some point of reading its channel,
      has run. */
  ghost predicate RanStretch(inputs: seq<Input>, frames: seq<Keys>, t: nat, upTo: nat) {
    && t <= upTo <= |frames|
    && Ran(inputs) == if StartedAfter(inputs) == None then [] else Stretch(frames, FirstFrame(inputs, t), upTo)
  }

  lemma ProgressRan(inputs: seq<Input>, frames: seq<Keys>, joined: nat, t: nat) returns (upTo: nat)
    requires joined <= t <= |frames| && |Core(Received(inputs))| <= |frames| - joined + 2
    requires Progress(Own(After(inputs)), frames, joined, t, |Core(Received(inputs))|, StartedAfter(inputs))
    ensures RanStretch(inputs, frames, t, upTo)
    ensures |Core(Received(inputs))| == |frames| - joined + 2 ==> upTo == |frames| && Own(After(inputs)).Some?
  {
    hide After, Received, Core, Own, StartedAfter;
    var before := t - joined;
    var k := |Core(Received(inputs))|;
    upTo := if k <= before + 2 then t else t + (k - before - 2);
    assert frames[t..t] == [];
  }

  /** A client that logged in, was not given id 0, and has received some first part of what was
      sent to it, with any keys pressed in between. */
  ghost predicate Reads(s: Server, log: Log, socket: Socket, inputs: seq<Input>) {
    && socket in s.sessions && socket in log.entered && Plain(s, socket)
    && socket in s.sent && Received(inputs) <= s.sent[socket]
  }

  ghost predicate AllFramesFit(frames: seq<Keys>) {
    forall i | 0 <= i < |frames| :: Fits(frames, i)
  }

  /** In every run, a client that logged in after `t` frames has run nothing before it was
      started, and then a contiguous stretch of the server's frames. With f the first frame
      delivered since it was started, the stretch starts with f when f is the frame waited for
      and with f + 1 otherwise; once the client has received everything, the stretch reaches the
      last frame. A client started before its frame-init reply waits for f exactly when t is 0;
      one started later waits for frame 0, so for f only when that is a multiple of 2^64. */
  lemma ClientRunsStretch(states: seq<Server>, logs: seq<Log>, events: seq<Event>, n: nat, socket: Socket,
      inputs: seq<Input>) returns (upTo: nat)
    requires Run(states, logs, events) && n < |states| && n < |logs|
    requires Reads(states[n], logs[n], socket, inputs) && AllFramesFit(logs[n].frames)
    ensures RanStretch(inputs, logs[n].frames, logs[n].entered[socket], upTo)
    ensures Received(inputs) == states[n].sent[socket] ==> upTo == |logs[n].frames| && Own(After(inputs)).Some?
  {
    hide Run, IdsOk, ArchiveOk, KeysConserved, KeysFit, Fits, Progress, Received, After, UsersOk, RanStretch,
      FrameBytes, Plain, Core, Own;
    RunKeepsInv(states, logs, events, n);
    var log, t, uuid := logs[n], logs[n].entered[socket], states[n].sessions[socket];
    assert ChannelOk(states[n], log, socket);
    var joined := log.joined[socket];
    assert Core(states[n].sent[socket]) == Channel(log.frames, joined, t, uuid);
    assert |Core(states[n].sent[socket])| == |log.frames| - joined + 2;
    CorePrefix(Received(inputs), states[n].sent[socket]);
    InputsMakeProgress(inputs, log.frames, joined, t, uuid);
    upTo := ProgressRan(inputs, log.frames, joined, t);
  }

  /** The place among the frames run of the server's frame number i. */
  function PlaceOf(inputs: seq<Input>, t: nat, i: nat): int {
    i - FirstFrame(inputs, t)
  }

  /** In every run, any two clients agree: where both ran a frame as number i of the server's,
      both ran that frame. */
  lemma ClientsAgree(states: seq<Server>, logs: seq<Log>, events: seq<Event>, n: nat,
      a: Socket, readA: seq<Input>, b: Socket, readB: seq<Input>, i: nat)
    requires Run(states, logs, events) && n < |states| && n < |logs| && AllFramesFit(logs[n].frames)
    requires Reads(states[n], logs[n], a, readA) && Reads(states[n], logs[n], b, readB)
    requires 0 <= PlaceOf(readA, logs[n].entered[a], i) < |Ran(readA)|
    requires 0 <= PlaceOf(readB, logs[n].entered[b], i) < |Ran(readB)|
    ensures i < |logs[n].frames|
    ensures Ran(readA)[PlaceOf(readA, logs[n].entered[a], i)] == logs[n].frames[i]
    ensures Ran(readB)[PlaceOf(readB, logs[n].entered[b], i)] == logs[n].frames[i]
  {
    hide Run, Plain, AllFramesFit, Ran, RanStretch, FirstFrame;
    var upToA := ClientRunsStretch(states, logs, events, n, a, readA);
    var upToB := ClientRunsStretch(states, logs, events, n, b, readB);
    RanAt(readA, logs[n].frames, logs[n].entered[a], upToA, i);
    RanAt(readB, logs[n].frames, logs[n].entered[b], upToB, i);
  }

  lemma RanAt(inputs: seq<Input>, frames: seq<Keys>, t: nat, upTo: nat, i: nat)
    requires RanStretch(inputs, frames, t, upTo) && 0 <= PlaceOf(inputs, t, i) < |Ran(inputs)|
    ensures i < |frames| && Ran(inputs)[PlaceOf(inputs, t, i)] == frames[i]
  {
    hide Ran, FirstFrame, StartedAfter;
  }

  /** In every run, when one frame was delivered since a client was started and it has received
      everything, it has run that frame exactly when it was the one waited for. */
  lemma FirstFrameMissed(states: seq<Server>, logs: seq<Log>, events: seq<Event>, n: nat, socket: Socket,
      inputs: seq<Input>, d: nat)
    requires Run(states, logs, events) && n < |states| && n < |logs| && AllFramesFit(logs[n].frames)
    requires Reads(states[n], logs[n], socket, inputs) && Received(inputs) == states[n].sent[socket]
    requires StartedAfter(inputs) == Some(d) && |logs[n].frames| == FirstHeard(logs[n].entered[socket], d) + 1
    ensures Own(After(inputs)).Some?
    ensures var t := logs[n].entered[socket];
      Ran(inputs) == if Awaited(t, d) then [logs[n].frames[FirstHeard(t, d)]] else []
  {
    hide Run, Plain, AllFramesFit, Ran, Own, After, StartedAfter, Received, Awaited, FirstHeard;
    var _ := ClientRunsStretch(states, logs, events, n, socket, inputs);
    var frames, f := logs[n].frames, FirstHeard(logs[n].entered[socket], d);
    assert frames[f..f + 1] == [frames[f]] && frames[f + 1..f + 1] == [];
  }

  // ---------------------------------------------------------------- whose keys the server credits

  /** What every connection was told about ids. */
  ghost predicate TellsRight(s: Server, log: Log, socket: Socket)
    requires socket in s.sessions
  {
    var replies := SentTo(s.sent, socket);
    if socket in log.entered then HasLogin(replies) && ToldOf(replies, s.sessions[socket]) else !HasLogin(replies)
  }

  ghost predicate AllTold(s: Server, log: Log) {
    forall socket | socket in s.sessions && Plain(s, socket) :: TellsRight(s, log, socket)
  }

  lemma HasLoginSnoc(replies: seq<Reply>, last: Reply)
    ensures HasLogin(replies + [last]) <==> HasLogin(replies) || last.LoggedIn?
  {
    assert forall i | 0 <= i < |replies| :: (replies + [last])[i] == replies[i];
    assert (replies + [last])[|replies|] == last;
  }

  lemma ToldSnoc(replies: seq<Reply>, last: Reply, uuid: nat)
    requires if last.LoggedIn? then last.uuid == uuid && !HasLogin(replies) else ToldOf(replies, uuid)
    requires last.Sight? ==> uuid in last.ids || !HasLogin(replies)
    ensures ToldOf(replies + [last], uuid)
  {
  }

  /** A reply to all that is no login reply, and names everybody if it is a list of ids. */
  lemma TellAll(s: Server, log: Log, z: Server, socket: Socket, reply: Reply)
    requires socket in s.sessions && TellsRight(s, log, socket) && !reply.LoggedIn?
    requires reply.Sight? ==> s.sessions[socket] in reply.ids
    requires socket in z.sessions && z.sessions[socket] == s.sessions[socket]
    requires SentTo(z.sent, socket) == SentTo(s.sent, socket) + [reply]
    ensures TellsRight(z, log, socket)
  {
    hide HasLogin, ToldOf;
    HasLoginSnoc(SentTo(s.sent, socket), reply);
    if socket in log.entered {
      ToldSnoc(SentTo(s.sent, socket), reply, s.sessions[socket]);
    }
  }

  lemma TellsSame(s: Server, log: Log, z: Server, l: Log, socket: Socket)
    requires socket in s.sessions && TellsRight(s, log, socket)
    requires socket in z.sessions && z.sessions[socket] == s.sessions[socket]
    requires SentTo(z.sent, socket) == SentTo(s.sent, socket) && (socket in l.entered <==> socket in log.entered)
    ensures TellsRight(z, l, socket)
  {
  }

  lemma ListedNames(sessions: map<Socket, nat>, socket: Socket)
    requires socket in sessions
    ensures sessions[socket] in Listed(sessions)
  {
    AscendingMeans(sessions.Keys);
    var i :| 0 <= i < |Ascending(sessions.Keys)| && Ascending(sessions.Keys)[i] == socket;
    assert Listed(sessions)[i] == sessions[socket];
  }

  lemma LoginTells(s: Server, log: Log, from: Socket, socket: Socket)
    requires from in s.sessions && s.sessions[from] == 0 && socket in s.sessions
    requires TellsRight(s, log, socket) && (socket == from ==> from !in log.entered)
    ensures TellsRight(HandleLogin(s, from, true), LoggedInTo(log, from), socket)
  {
    hide Listed, Delivered, HasLogin, ToldOf, TellsRight, Core;
    var z, l := HandleLogin(s, from, true), LoggedInTo(log, from);
    var uuid := (s.uuidCounter + 1) % TWO_TO_32;
    var told := Send(s.(uuidCounter := uuid, sessions := s.sessions[from := uuid]), from,
      [LoggedIn(uuid), FrameInit(s.curFrameId, s.nxtFrameId)]);
    Heard(told, socket, Sight(Listed(told.sessions)));
    ListedNames(told.sessions, socket);
    if socket == from {
      Welcomed(s, log, told, l, from, uuid);
    } else {
      TellsSame(s, log, told, l, socket);
    }
    TellAll(told, l, z, socket, Sight(Listed(told.sessions)));
  }

  lemma Welcomed(s: Server, log: Log, told: Server, l: Log, from: Socket, uuid: nat)
    requires from in s.sessions && TellsRight(s, log, from) && from !in log.entered && from in l.entered
    requires from in told.sessions && told.sessions[from] == uuid
    requires SentTo(told.sent, from) == SentTo(s.sent, from) + [LoggedIn(uuid), FrameInit(s.curFrameId, s.nxtFrameId)]
    ensures TellsRight(told, l, from)
  {
    hide HasLogin, ToldOf;
    var before, first, second := SentTo(s.sent, from), LoggedIn(uuid), FrameInit(s.curFrameId, s.nxtFrameId);
    assert before + [first, second] == (before + [first]) + [second];
    HasLoginSnoc(before, first);
    HasLoginSnoc(before + [first], second);
    ToldSnoc(before, first, uuid);
    ToldSnoc(before + [first], second, uuid);
  }

  lemma MessageTells(s: Server, log: Log)
    requires Inv(s, log) && AllTold(s, log)
    ensures AllTold(MessageProc(s), NextMessageLog(s, log))
  {
    hide Inv, AllTold, MessageProc, NextMessageLog;
    if Served(s).Some? && Served(s).value.1 == Login(true) && s.sessions[Served(s).value.0] == 0 {
      var from := Served(s).value.0;
      LoginServed(s, log, from);
      LoginKeepsTold(s, log, from);
      SameTells(HandleLogin(s, from, true), MessageProc(s), LoggedInTo(log, from));
    } else {
      NothingTold(s, log);
      SameTells(s, MessageProc(s), log);
      SameEntered(MessageProc(s), log, NextMessageLog(s, log));
    }
  }

  lemma LoginServed(s: Server, log: Log, from: Socket)
    requires Served(s) == Some((from, Login(true))) && s.sessions[from] == 0
    ensures MessageProc(s) == HandleLogin(s, from, true).(queue := s.queue[1..])
    ensures NextMessageLog(s, log) == LoggedInTo(log, from)
  {
    hide HandleLogin;
  }

  /** Messages other than a first login say nothing to anybody. */
  lemma NothingTold(s: Server, log: Log)
    requires !(Served(s).Some? && Served(s).value.1 == Login(true) && s.sessions[Served(s).value.0] == 0)
    ensures MessageProc(s).sent == s.sent && MessageProc(s).sessions == s.sessions
    ensures NextMessageLog(s, log).entered == log.entered
  {
    hide ParseCSFrame, AddKeys, Listed, Delivered, SentTo;
  }

  lemma SameEntered(s: Server, log: Log, l: Log)
    requires AllTold(s, log) && l.entered == log.entered
    ensures AllTold(s, l)
  {
    hide ToldOf, HasLogin;
  }

  lemma LoginKeepsTold(s: Server, log: Log, from: Socket)
    requires Inv(s, log) && AllTold(s, log) && from in s.sessions && s.sessions[from] == 0
    ensures AllTold(HandleLogin(s, from, true), LoggedInTo(log, from))
  {
    hide Inv, Listed, Delivered, TellsRight, Plain;
    var z := HandleLogin(s, from, true);
    forall socket | socket in z.sessions && Plain(z, socket) ensures TellsRight(z, LoggedInTo(log, from), socket) {
      LoginTellsPlain(s, log, from, socket);
    }
  }

  lemma PlainBeforeLogin(s: Server, from: Socket, socket: Socket)
    requires from in s.sessions && s.sessions[from] == 0 && socket in s.sessions
    requires Plain(HandleLogin(s, from, true), socket)
    ensures Plain(s, socket)
  {
    hide Listed, Delivered, Core;
    var uuid := (s.uuidCounter + 1) % TWO_TO_32;
    var told := Send(s.(uuidCounter := uuid, sessions := s.sessions[from := uuid]), from,
      [LoggedIn(uuid), FrameInit(s.curFrameId, s.nxtFrameId)]);
    Heard(told, socket, Sight(Listed(told.sessions)));
    var now := SentTo(told.sent, socket);
    assert forall r | r in SentTo(s.sent, socket) :: r in now;
  }

  lemma LoginTellsPlain(s: Server, log: Log, from: Socket, socket: Socket)
    requires Inv(s, log) && AllTold(s, log) && from in s.sessions && s.sessions[from] == 0 && socket in s.sessions
    requires Plain(HandleLogin(s, from, true), socket)
    ensures TellsRight(HandleLogin(s, from, true), LoggedInTo(log, from), socket)
  {
    hide IdsOk, ArchiveOk, KeysConserved, AllFit, UsersOk, TellsRight, Plain, HandleLogin, Core, FrameReplies;
    PlainBeforeLogin(s, from, socket);
    assert ChannelOk(s, log, socket);
    LoginTells(s, log, from, socket);
  }

  lemma TurnTells(s: Server, log: Log)
    requires AllTold(s, log)
    ensures AllTold(FrameTurn(s), log.(frames := log.frames + [s.pending]))
  {
    hide Plain, TellsRight, WriteSCFrame, FrameMessage, Delivered, Core;
    var z, l := FrameTurn(s), log.(frames := log.frames + [s.pending]);
    var reply := Frame(WriteSCFrame(FrameMessage(s.nxtFrameId, (s.nxtFrameId + 1) % TWO_TO_64, s.pending)));
    forall socket | socket in z.sessions && Plain(z, socket) ensures TellsRight(z, l, socket) {
      PlainTurned(s, socket);
      Heard(s, socket, reply);
      TellAll(s, log, z, socket, reply);
      TellsSame(z, log, z, l, socket);
    }
  }

  lemma ConnectTells(s: Server, log: Log, socket: Socket)
    requires AllTold(s, log) && socket !in s.sessions
    ensures AllTold(Next(s, Connect(socket)), NextLog(s, log, Connect(socket)))
  {
    hide Plain, TellsRight;
    var z, l := Next(s, Connect(socket)), NextLog(s, log, Connect(socket));
    forall a | a in z.sessions && Plain(z, a) ensures TellsRight(z, l, a) {
      if a == socket {
        NothingToldYet(z, l, socket);
      } else {
        PlainSame(s, z, a);
        TellsSame(s, log, z, l, a);
      }
    }
  }

  lemma NothingToldYet(z: Server, l: Log, socket: Socket)
    requires socket in z.sessions && SentTo(z.sent, socket) == [] && socket !in l.entered
    ensures TellsRight(z, l, socket)
  {
  }

  lemma SameTells(s: Server, z: Server, log: Log)
    requires AllTold(s, log) && z.sent == s.sent
    requires forall a | a in z.sessions :: a in s.sessions && z.sessions[a] == s.sessions[a]
    ensures AllTold(z, log)
  {
    hide Plain, TellsRight;
    forall a | a in z.sessions && Plain(z, a) ensures TellsRight(z, log, a) {
      PlainSame(s, z, a);
      TellsSame(s, log, z, log, a);
    }
  }

  lemma StepKeepsTold(s: Server, log: Log, e: Event)
    requires Inv(s, log) && AllTold(s, log) && Enabled(s, e)
    ensures AllTold(Next(s, e), NextLog(s, log, e))
  {
    hide Inv, AllTold, MessageProc, NextMessageLog, FrameTurn;
    match e
    case Connect(socket) => ConnectTells(s, log, socket);
    case Disconnect(socket) => SameTells(s, Next(s, e), log);
    case Push(from, request) => SameTells(s, Next(s, e), log);
    case Tick(due) =>
      MessageTells(s, log);
      if due && MessageProc(s).running {
        TurnTells(MessageProc(s), NextMessageLog(s, log));
      }
  }

  lemma {:induction false} RunTells(states: seq<Server>, logs: seq<Log>, events: seq<Event>, n: nat)
    requires Run(states, logs, events) && n < |states|
    ensures n < |logs| && AllTold(states[n], logs[n])
    decreases n
  {
    hide Inv, Next, NextLog, Enabled, Begins, AllTold;
    if n == 0 {
      BeginsTold(states[0], logs[0]);
    } else {
      RunTells(states, logs, events, n - 1);
      RunKeepsInv(states, logs, events, n - 1);
      StepKeepsTold(states[n - 1], logs[n - 1], events[n - 1]);
    }
  }

  lemma BeginsTold(s: Server, log: Log)
    requires Begins(s, log)
    ensures AllTold(s, log)
  {
  }

  lemma ToldPrefix(some: seq<Reply>, all: seq<Reply>, uuid: nat)
    requires some <= all && ToldOf(all, uuid)
    ensures ToldOf(some, uuid)
  {
    assert forall i | 0 <= i < |some| :: some[i] == all[i];
  }

  /** In every run, the id a logged-in client's keys go under is the one the lists of ids it got
      since login give it. It is its login id while there was none, and for good when the first
      starts with another id; but while every list starts with its login id, it is the last id
      of the latest, so its login id exactly when that is the last listed. */
  lemma CreditedName(states: seq<Server>, logs: seq<Log>, events: seq<Event>, n: nat, socket: Socket,
      inputs: seq<Input>)
    requires Run(states, logs, events) && n < |states| && n < |logs|
    requires Reads(states[n], logs[n], socket, inputs)
    ensures NameOf(After(inputs)) == NameFrom(Received(inputs))
    ensures Own(After(inputs)).Some? <==> HasLogin(Received(inputs))
    ensures Own(After(inputs)).Some? ==>
      var id, uuid, lists := Own(After(inputs)).value.uuid, states[n].sessions[socket], Lists(Received(inputs));
      && (lists == [] || First(lists[0]) != uuid ==> id == uuid)
      && (lists != [] && (forall ids | ids in lists :: First(ids) == uuid) ==> id == Last(lists[|lists| - 1]))
  {
    hide Run, Plain, After, Received, ToldOf, HasLogin, NameFrom;
    RunTells(states, logs, events, n);
    var uuid := states[n].sessions[socket];
    assert TellsRight(states[n], logs[n], socket);
    ToldPrefix(Received(inputs), states[n].sent[socket], uuid);
    NameByLists(Received(inputs), uuid);
    OwnIsNamed(inputs);
  }

  lemma LoginsTold(replies: seq<Reply>, uuid: nat)
    requires ToldOf(replies, uuid) && HasLogin(replies)
    ensures Logins(replies) == 1
  {
    var i :| 0 <= i < |replies| && replies[i].LoggedIn?;
    LoginsUpTo(replies, i, |replies|);
    assert replies[..|replies|] == replies;
  }

  lemma {:induction false} LoginsUpTo(replies: seq<Reply>, i: nat, n: nat)
    requires i < |replies| && n <= |replies| && forall j | 0 <= j < |replies| :: replies[j].LoggedIn? <==> j == i
    ensures Logins(replies[..n]) == if i < n then 1 else 0
    decreases n
  {
    if n > 0 {
      LoginsUpTo(replies, i, n - 1);
      assert replies[..n][..n - 1] == replies[..n - 1];
    }
  }

  /** In every run, a client has the object of its login alone exactly when every list of ids it
      got, before or after its login, started with an id named to it before: its own, or one of
      an earlier list. Then, once its objects are started, a key pressed is held once; otherwise
      it is held, and later sent, by every further object as well. */
  lemma OneObjectIff(states: seq<Server>, logs: seq<Log>, events: seq<Event>, n: nat, socket: Socket,
      inputs: seq<Input>, key: nat)
    requires Run(states, logs, events) && n < |states| && n < |logs|
    requires Reads(states[n], logs[n], socket, inputs) && HasLogin(Received(inputs))
    ensures |After(inputs).objects| == 1 <==> NothingNew(Received(inputs))
    ensures |Holders(inputs + [Start], key)| == |After(inputs).objects|
    ensures |Holders(inputs + [Start], key)| == 1 <==> NothingNew(Received(inputs))
  {
    hide Run, Plain, After, Received, ToldOf, HasLogin, Logins, NothingNew, Holders;
    RunTells(states, logs, events, n);
    var uuid := states[n].sessions[socket];
    assert TellsRight(states[n], logs[n], socket);
    ToldPrefix(Received(inputs), states[n].sent[socket], uuid);
    LoginsTold(Received(inputs), uuid);
    OnlyLoginsIff(Received(inputs));
    ObjectsMade(inputs);
    PressHeld(inputs + [Start], key);
    assert (inputs + [Start])[..|inputs|] == inputs;
  }

  // ---------------------------------------------------------------- two runs

  /** A client that reads replies and presses no keys. */
  function Reading(replies: seq<Reply>): seq<Input> {
    seq(|replies|, i requires 0 <= i < |replies| => Receive(replies[i]))
  }

  lemma {:induction false} ReadingReceives(replies: seq<Reply>)
    ensures Received(Reading(replies)) == replies
    decreases |replies|
  {
    if replies != [] {
      var front := replies[..|replies| - 1];
      ReadingReceives(front);
      assert Reading(replies)[..|replies| - 1] == Reading(front);
    }
  }

  lemma OneSession(sessions: map<Socket, nat>, id: nat)
    requires sessions == map[0 := id]
    ensures Listed(sessions) == [id] && |sessions| == 1
  {
    assert sessions.Keys == {0};
    assert Least({0}) == 0;
    assert {0} - {0} == {};
    assert Ascending({0}) == [0];
  }

  lemma TwoSessions(sessions: map<Socket, nat>, a: nat, b: nat)
    requires sessions == map[0 := a, 1 := b]
    ensures Listed(sessions) == [a, b]
  {
    assert sessions.Keys == {0, 1};
    assert Least({0, 1}) == 0 && Least({1}) == 1;
    assert {0, 1} - {0} == {1} && {1} - {1} == {};
    assert Ascending({1}) == [1];
    assert Ascending({0, 1}) == [0, 1];
  }

  lemma FirstIn(z: Server, l: Log)
    requires LoggedInNow(FRESH, NO_LOG, z, l, 0)
    ensures z == FRESH.(sessions := map[0 := 1], uuidCounter := 1, sent := z.sent)
    ensures l.frames == [] && l.entered == map[0 := 0]
    ensures 0 in z.sent && z.sent[0] == [LoggedIn(1), FrameInit(0, 0), Sight([1])]
  {
    hide Listed;
    OneSession(map[0 := 1], 1);
    assert [LoggedIn(1), FrameInit(0, 0)] + [Sight([1])] == [LoggedIn(1), FrameInit(0, 0), Sight([1])];
  }

  lemma SecondIn(s: Server, log: Log, z: Server, l: Log)
    requires LoggedInNow(s, log, z, l, 1) && s.sessions == map[0 := 1] && s.uuidCounter == 1
    ensures z.sessions == map[0 := 1, 1 := 2] && l.entered == log.entered[1 := |log.frames|]
    ensures 0 in z.sent && z.sent[0] == SentTo(s.sent, 0) + [Sight([1, 2])]
    ensures 1 in z.sent && z.sent[1] == [LoggedIn(2), FrameInit(s.curFrameId, s.nxtFrameId), Sight([1, 2])]
  {
    hide Listed;
    TwoSessions(map[0 := 1, 1 := 2], 1, 2);
    assert s.sessions[1 := 2] == map[0 := 1, 1 := 2];
    assert [LoggedIn(2), FrameInit(s.curFrameId, s.nxtFrameId)] + [Sight([1, 2])] ==
      [LoggedIn(2), FrameInit(s.curFrameId, s.nxtFrameId), Sight([1, 2])];
  }

  /** A run in which sockets 0 and 1 connect and log in one after the other. */
  lemma TwoLogins() returns (states: seq<Server>, logs: seq<Log>, events: seq<Event>)
    ensures Run(states, logs, events) && |states| == |logs| == |events| + 1
    ensures var s, log := states[|events|], logs[|events|];
      && s.sessions == map[0 := 1, 1 := 2] && log.entered == map[0 := 0, 1 := 0]
      && 0 in s.sent && s.sent[0] == [LoggedIn(1), FrameInit(0, 0), Sight([1]), Sight([1, 2])]
      && 1 in s.sent && s.sent[1] == [LoggedIn(2), FrameInit(0, 0), Sight([1, 2])]
  {
    hide Run, LoggedInNow;
    assert Run([FRESH], [NO_LOG], []) by { StartsRun([FRESH], [NO_LOG], []); }
    states, logs, events := OneMoreLogin([FRESH], [NO_LOG], [], 0);
    var s, log := states[|events|], logs[|events|];
    FirstIn(s, log);
    states, logs, events := OneMoreLogin(states, logs, events, 1);
    SecondIn(s, log, states[|events|], logs[|events|]);
  }

  lemma ListsSnoc(replies: seq<Reply>, last: Reply)
    ensures Lists(replies + [last]) == Lists(replies) + if last.Sight? && HasLogin(replies) then [last.ids] else []
  {
    assert (replies + [last])[..|replies|] == replies;
  }

  lemma ListsOfFirst(replies: seq<Reply>)
    requires replies == [LoggedIn(1), FrameInit(0, 0), Sight([1]), Sight([1, 2])]
    ensures HasLogin(replies) && Lists(replies) == [[1], [1, 2]]
  {
    hide Lists;
    var two := [LoggedIn(1), FrameInit(0, 0)];
    assert two[0].LoggedIn? && replies[0].LoggedIn? && (two + [Sight([1])])[0].LoggedIn?;
    NoLists([]);
    ListsSnoc([], LoggedIn(1));
    ListsSnoc([LoggedIn(1)], FrameInit(0, 0));
    ListsSnoc(two, Sight([1]));
    ListsSnoc(two + [Sight([1])], Sight([1, 2]));
    assert [] + [LoggedIn(1)] == [LoggedIn(1)] && [LoggedIn(1)] + [FrameInit(0, 0)] == two;
    assert two + [Sight([1])] + [Sight([1, 2])] == replies;
  }

  /** In that run, socket 0 was given id 1, but once its client has read what it was sent, it
      goes under id 2, the other's: the keys it sends count for that user. */
  lemma FirstClientTakesSecondId()
    returns (states: seq<Server>, logs: seq<Log>, events: seq<Event>, inputs: seq<Input>)
    ensures Run(states, logs, events) && |states| == |events| + 1
    ensures var s := states[|events|]; s.sessions == map[0 := 1, 1 := 2] && Received(inputs) == SentTo(s.sent, 0)
    ensures Own(After(inputs)).Some?
    ensures var s, c := states[|events|], Own(After(inputs)).value;
      forall keys: seq<nat> | (forall k | k in keys :: k < TWO_TO_32) ::
        HandleFrame(s, KeyMessage(c.(keys := keys))).pending == AddKeys(s.pending, 2, keys)
  {
    hide Run, KeyMessage, HandleFrame, AddKeys, After, Received, Own, Lists, HasLogin;
    states, logs, events := TwoLogins();
    var s := states[|events|];
    inputs := Reading(s.sent[0]);
    ReadingReceives(s.sent[0]);
    ListsOfFirst(s.sent[0]);
    CreditedName(states, logs, events, |events|, 0, inputs);
    var c := Own(After(inputs)).value;
    assert c.uuid == 2;
    assert forall i | i in inputs :: InputFits(i);
    AfterFits(inputs);
    OwnFits(After(inputs));
    forall keys: seq<nat> | forall k | k in keys :: k < TWO_TO_32
      ensures HandleFrame(s, KeyMessage(c.(keys := keys))).pending == AddKeys(s.pending, 2, keys)
    {
      SentKeysArrive(c.(keys := keys), s);
    }
  }

  /** The client of socket 1 ends up with two objects under its id, so that a key pressed once
      they are started is held twice and will be sent twice. */
  lemma SecondClientDoubled(key: nat)
    returns (states: seq<Server>, logs: seq<Log>, events: seq<Event>, inputs: seq<Input>)
    ensures Run(states, logs, events) && |states| == |events| + 1
    ensures var s := states[|events|]; s.sessions == map[0 := 1, 1 := 2] && Received(inputs) == SentTo(s.sent, 1)
    ensures var c := NewClient(2).(started := true, keys := [key]);
      After(inputs + [Press(key)]).objects == [c, c]
  {
    hide Run, Received;
    states, logs, events := TwoLogins();
    var sent := states[|events|].sent[1];
    inputs := Reading(sent) + [Start];
    ReadingReceives(sent);
    ReceivedNot(Reading(sent), Start);
    SecondScene(Reading(sent), key);
  }

  lemma ReceivedNot(inputs: seq<Input>, last: Input)
    requires !last.Receive?
    ensures Received(inputs + [last]) == Received(inputs)
  {
    assert (inputs + [last])[..|inputs|] == inputs;
  }

  lemma SecondScene(inputs: seq<Input>, key: nat)
    requires inputs == [Receive(LoggedIn(2)), Receive(FrameInit(0, 0)), Receive(Sight([1, 2]))]
    ensures var c := NewClient(2).(started := true, keys := [key]);
      After(inputs + [Start] + [Press(key)]).objects == [c, c]
  {
    hide After, OnFrame, OnSight, Renamed, Registered;
    var login, init, sight := Receive(LoggedIn(2)), Receive(FrameInit(0, 0)), Receive(Sight([1, 2]));
    AfterNothing();
    AfterSnoc([], login);
    AfterSnoc([login], init);
    AfterSnoc([login, init], sight);
    AfterSnoc(inputs, Start);
    AfterSnoc(inputs + [Start], Press(key));
    assert [] + [login] == [login] && [login] + [init] == [login, init] && [login, init] + [sight] == inputs;
    var scene := Scene([NewClient(2)], map[2 := 0], Some(0));
    assert After([login]) == scene;
    assert Stepped(scene.objects, init) == scene.objects;
    SecondSight(scene);
    BothPressed(key);
  }

  lemma BothPressed(key: nat)
    ensures var both, c := [NewClient(2), NewClient(2)], NewClient(2).(started := true, keys := [key]);
      Stepped(Stepped(both, Start), Press(key)) == [c, c]
  {
    assert NewClient(2).keys + [key] == [key];
  }

  lemma SecondSight(scene: Scene)
    requires scene == Scene([NewClient(2)], map[2 := 0], Some(0))
    ensures OnSight(scene, [1, 2], 2).objects == [NewClient(2), NewClient(2)]
  {
    hide OnSight, Registered;
    SightIsFirst(scene, [1, 2], 2);
    assert Renamed([NewClient(2), NewClient(0)], 1, [1, 2]) == [NewClient(2), NewClient(2)];
  }

  lemma AfterNothing()
    ensures After([]) == NOTHING
  {
  }

  // ---------------------------------------------------------------- runs that miss frames

  /** A client that is started once it has read the first `n` replies. */
  function StartingAfter(replies: seq<Reply>, n: nat): seq<Input>
    requires n <= |replies|
  {
    Reading(replies[..n]) + [Start] + Reading(replies[n..])
  }

  lemma {:induction false} ReceivedConcat(a: seq<Input>, b: seq<Input>)
    ensures Received(a + b) == Received(a) + Received(b)
    decreases |b|
  {
    if b == [] {
      assert a + b == a;
    } else {
      assert (a + b)[..|a + b| - 1] == a + b[..|b| - 1];
      ReceivedConcat(a, b[..|b| - 1]);
    }
  }

  lemma {:induction false} StartedStays(a: seq<Input>, b: seq<Input>)
    requires StartedAfter(a).Some?
    ensures StartedAfter(a + b) == StartedAfter(a)
    decreases |b|
  {
    hide After, Own, Since;
    if b == [] {
      assert a + b == a;
    } else {
      assert (a + b)[..|a + b| - 1] == a + b[..|b| - 1];
      StartedStays(a, b[..|b| - 1]);
    }
  }

  /** A client that reads its login reply first has its object from then on. */
  lemma {:induction false} SinceLogin(replies: seq<Reply>)
    requires replies != [] && replies[0].LoggedIn?
    ensures Own(After(Reading(replies))).Some? && StartedAfter(Reading(replies)) == None
    ensures Since(Reading(replies)) == |Core(replies)| - 1
    decreases |replies|
  {
    hide React, SceneOk, AllFollow, OnSight;
    var front, last := replies[..|replies| - 1], replies[|replies| - 1];
    assert Reading(replies)[..|replies| - 1] == Reading(front);
    AfterOk(Reading(front));
    ObjectsFollow(After(Reading(front)), Receive(last));
    if front == [] {
      AfterNothing();
      assert Core(replies) == [last];
    } else {
      SinceLogin(front);
    }
  }

  lemma StartingMeans(replies: seq<Reply>, n: nat)
    requires 0 < n <= |replies| && replies[0].LoggedIn?
    ensures Received(StartingAfter(replies, n)) == replies
    ensures StartedAfter(StartingAfter(replies, n)) == Some(|Core(replies[..n])| - 1)
  {
    hide After, Own, Core, Since;
    var a, b := Reading(replies[..n]), Reading(replies[n..]);
    SinceLogin(replies[..n]);
    assert (a + [Start])[..|a|] == a;
    StartedStays(a + [Start], b);
    ReceivedConcat(a + [Start], b);
    ReceivedNot(a, Start);
    ReadingReceives(replies[..n]);
    ReadingReceives(replies[n..]);
    assert replies[..n] + replies[n..] == replies;
  }

  /** The ready message of the only session starts the game, and the first frame is turned. */
  lemma ReadyTurn(s: Server, log: Log)
    requires s.sessions == map[0 := 1] && s.queue == [(0, Ready(true))] && s.readyCount == 0
    requires s.pending == map[] && log.frames == [] && 0 in s.sent
    ensures var z, l := Next(s, Tick(true)), NextLog(s, log, Tick(true));
      && z.sessions == s.sessions && z.queue == [] && z.running && z.pending == map[] && z.uuidCounter == s.uuidCounter
      && l.frames == [map[]] && l.entered == log.entered
      && 0 in z.sent && exists data :: z.sent[0] == s.sent[0] + [Frame(data)]
  {
    hide Delivered, WriteSCFrame, FrameMessage, Core, Plain;
    OneSession(s.sessions, 1);
    var after := s.(queue := [], readyCount := 1, running := true);
    assert MessageProc(s) == after;
    Heard(after, 0, Frame(WriteSCFrame(FrameMessage(s.nxtFrameId, (s.nxtFrameId + 1) % TWO_TO_64, s.pending))));
    assert [] + [s.pending] == [map[]];
  }

  /** A later tick turns the second, and every session is sent it. */
  lemma SecondTurn(s: Server, log: Log, socket: Socket)
    requires s.queue == [] && s.running && s.pending == map[] && log.frames == [map[]]
    requires socket in s.sessions && socket in s.sent
    ensures var z, l := Next(s, Tick(true)), NextLog(s, log, Tick(true));
      && z.sessions == s.sessions && l.frames == [map[], map[]] && l.entered == log.entered
      && socket in z.sent && exists data :: z.sent[socket] == s.sent[socket] + [Frame(data)]
  {
    hide Delivered, WriteSCFrame, FrameMessage, Core, Plain;
    var reply := Frame(WriteSCFrame(FrameMessage(s.nxtFrameId, (s.nxtFrameId + 1) % TWO_TO_64, s.pending)));
    Heard(s, socket, reply);
    assert MessageProc(s) == s;
    assert Next(s, Tick(true)).sent[socket] == s.sent[socket] + [reply];
    assert [map[]] + [s.pending] == [map[], map[]];
  }

  lemma NoKeysFrameFits(frames: seq<Keys>, i: nat)
    requires i < |frames| <= 100 && frames[i] == map[]
    ensures Fits(frames, i)
  {
    var m := FrameMessage(i % TWO_TO_64, (i + 1) % TWO_TO_64, map[]);
    assert m.users == [] by { assert Ascending({}) == []; }
    VarintLength64(i);
    VarintLength64(i + 1);
    assert EncodeUnknowns([]) == [];
    assert |WriteSCFrame(m)| <= 22;
  }

  /** Socket 0 logs in, is ready and is sent the first frame. */
  lemma FirstTurned() returns (states: seq<Server>, logs: seq<Log>, events: seq<Event>)
    ensures Run(states, logs, events) && |states| == |logs| == |events| + 1
    ensures var s, log := states[|events|], logs[|events|];
      && s.sessions == map[0 := 1] && s.queue == [] && s.running && s.pending == map[] && s.uuidCounter == 1
      && log.frames == [map[]] && log.entered == map[0 := 0]
      && 0 in s.sent && exists data :: s.sent[0] == [LoggedIn(1), FrameInit(0, 0), Sight([1]), Frame(data)]
  {
    hide Run, Next, NextLog, LoggedInNow;
    assert Run([FRESH], [NO_LOG], []) by { StartsRun([FRESH], [NO_LOG], []); }
    states, logs, events := OneMoreLogin([FRESH], [NO_LOG], [], 0);
    var s, log := states[|events|], logs[|events|];
    FirstIn(s, log);
    states, logs, events := OneMore(states, logs, events, Push(0, Ready(true)));
    PushedReady(s, log);
    s, log := states[|events|], logs[|events|];
    states, logs, events := OneMore(states, logs, events, Tick(true));
    ReadyTurn(s, log);
    var data :| states[|events|].sent[0] == s.sent[0] + [Frame(data)];
    assert states[|events|].sent[0] == [LoggedIn(1), FrameInit(0, 0), Sight([1]), Frame(data)];
  }

  /** A run in which a client logs in after one turn, is started at once, gets the frame turned
      next and does not run it. */
  lemma MissesAFrame() returns (states: seq<Server>, logs: seq<Log>, events: seq<Event>, inputs: seq<Input>)
    ensures Run(states, logs, events) && |states| == |logs| == |events| + 1
    ensures |logs[|events|].frames| == 2 && 1 in logs[|events|].entered && logs[|events|].entered[1] == 1
    ensures Received(inputs) == SentTo(states[|events|].sent, 1) && StartedAfter(inputs) == Some(0)
    ensures exists data :: Frame(data) in Received(inputs)
    ensures Own(After(inputs)).Some? && Own(After(inputs)).value.ran == []
  {
    hide Run, Next, NextLog, LoggedInNow, Received, After, Own, Fits, StartedAfter;
    states, logs, events := FirstTurned();
    var s, log := states[|events|], logs[|events|];
    states, logs, events := OneMoreLogin(states, logs, events, 1);
    SecondIn(s, log, states[|events|], logs[|events|]);
    LoginLeaves(s, log, states[|events|], logs[|events|], 1);
    s, log := states[|events|], logs[|events|];
    states, logs, events := OneMore(states, logs, events, Tick(true));
    SecondTurn(s, log, 1);
    log := logs[|events|];
    var sent := states[|events|].sent[1];
    inputs := StartingAfter(sent, 1);
    assert sent[0] == LoggedIn(2);
    StartingMeans(sent, 1);
    OneCore(sent);
    NoKeysFrameFits(log.frames, 0);
    NoKeysFrameFits(log.frames, 1);
    FirstFrameMissed(states, logs, events, |events|, 1, inputs, 0);
  }

  lemma OneCore(replies: seq<Reply>)
    requires replies != [] && replies[0].LoggedIn?
    ensures |Core(replies[..1])| == 1
  {
    assert replies[..1] == [replies[0]] && [replies[0]][..0] == [];
    assert Core([]) == [];
  }

  /** A run in which a client logs in before the first turn, but is started only after the first
      frame was delivered: it runs neither that frame nor the next. */
  lemma StartsLate() returns (states: seq<Server>, logs: seq<Log>, events: seq<Event>, inputs: seq<Input>)
    ensures Run(states, logs, events) && |states| == |logs| == |events| + 1
    ensures |logs[|events|].frames| == 2 && 0 in logs[|events|].entered && logs[|events|].entered[0] == 0
    ensures Received(inputs) == SentTo(states[|events|].sent, 0) && StartedAfter(inputs) == Some(2)
    ensures Own(After(inputs)).Some? && Own(After(inputs)).value.ran == []
  {
    hide Run, Next, NextLog, LoggedInNow, Received, After, Own, Fits, StartedAfter;
    states, logs, events := FirstTurned();
    var s, log := states[|events|], logs[|events|];
    states, logs, events := OneMore(states, logs, events, Tick(true));
    SecondTurn(s, log, 0);
    log := logs[|events|];
    var sent := states[|events|].sent[0];
    inputs := StartingAfter(sent, 4);
    assert sent[..4] == s.sent[0] && sent[0] == LoggedIn(1);
    StartingMeans(sent, 4);
    ThreeCore(sent[..4]);
    NoKeysFrameFits(log.frames, 0);
    NoKeysFrameFits(log.frames, 1);
    FirstFrameMissed(states, logs, events, |events|, 0, inputs, 2);
  }

  lemma ThreeCore(replies: seq<Reply>)
    requires |replies| == 4 && !replies[0].Sight? && !replies[1].Sight? && replies[2].Sight? && !replies[3].Sight?
    ensures |Core(replies)| == 3
  {
    hide Core;
    CoreSnoc([], replies[0]);
    CoreSnoc([replies[0]], replies[1]);
    CoreSnoc([replies[0], replies[1]], replies[2]);
    CoreSnoc([replies[0], replies[1], replies[2]], replies[3]);
    NoCore();
    assert [] + [replies[0]] == [replies[0]] && [replies[0]] + [replies[1]] == [replies[0], replies[1]];
    assert [replies[0], replies[1]] + [replies[2]] == [replies[0], replies[1], replies[2]];
    assert [replies[0], replies[1], replies[2]] + [replies[3]] == replies;
  }

  lemma NoCore()
    ensures Core([]) == []
  {
  }

  lemma PushedReady(s: Server, log: Log)
    requires s.queue == []
    ensures Next(s, Push(0, Ready(true))) == s.(queue := [(0, Ready(true))])
    ensures NextLog(s, log, Push(0, Ready(true))) == log
  {
  }

  lemma LoginLeaves(s: Server, log: Log, z: Server, l: Log, socket: Socket)
    requires LoggedInNow(s, log, z, l, socket)
    ensures z.queue == s.queue && z.running == s.running && z.pending == s.pending && l.frames == log.frames
  {
    hide Listed;
  }
}
