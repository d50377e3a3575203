/** The lock-step client: its player objects run a frame only when its id is the one they wait
    for, and send the keys pressed since they last did, under the id they hold by then. */
module LockStepClient {
  import opened Options
  import opened Wire
  import opened PlayerValues
  import opened PlayerRoundTrip
  import opened PlayerReparse
  import opened LockStepServer
  import opened Numbers

  /** A player object. Until it is `started` it listens to nothing; `ran` is the frames run and
      `outbox` the messages sent, both from the start. */
  datatype Client = Client(
    uuid: nat, curFrameId: nat, nxtFrameId: nat, keys: seq<nat>, ran: seq<Keys>, outbox: seq<Bytes>, started: bool)

  function OrZero(v: Option<nat>): nat {
    if v.Some? then v.value else 0
  }

  /** The dictionary of a frame's users; adding the same user twice is an error. */
  function PoolOf(users: seq<UserFrame>): Option<Keys> {
    if users == [] then Some(map[])
    else
      var last := users[|users| - 1];
      match PoolOf(users[..|users| - 1])
      case None => None
      case Some(pool) => if OrZero(last.uuid) in pool then None else Some(pool[OrZero(last.uuid) := last.keyInfo])
  }

  function KeyMessage(c: Client): Bytes {
    WriteCSFrame(CSFrame(Some(c.uuid), Some(c.curFrameId), c.keys, []))
  }

  function RunIfAwaited(c: Client, id: nat, pool: Keys): Client {
    if c.curFrameId == id then c.(outbox := c.outbox + [KeyMessage(c)], keys := [], ran := c.ran + [pool]) else c
  }

  /** The frame waited for next is set whether or not this one was run. */
  function OnFrame(c: Client, data: Bytes): Client {
    match ParseSCFrame(data)
    case None => c
    case Some(m) =>
      match PoolOf(m.users)
      case None => c
      case Some(pool) => RunIfAwaited(c, OrZero(m.frameId), pool).(curFrameId := OrZero(m.nextFrameId))
  }

  function OnFrameInit(c: Client, cur: nat, nxt: nat): Client {
    c.(curFrameId := cur, nxtFrameId := nxt)
  }

  /** `Start` is the moment the engine starts the objects made since the last one. */
  datatype Input = Start | Press(key: nat) | Receive(reply: Reply)

  /** What a player object itself listens to, once it is started. */
  function Step(c: Client, input: Input): Client {
    match input
    case Start => c.(started := true)
    case Receive(FrameInit(cur, nxt)) => if c.started then OnFrameInit(c, cur, nxt) else c
    case Receive(Frame(data)) => if c.started then OnFrame(c, data) else c
    case Press(key) => if c.started then c.(keys := c.keys + [key]) else c
    case _ => c
  }

  // ---------------------------------------------------------------- all player objects

  /** The player objects made so far, the one registered under each id, and the one the first
      login reply made. */
  datatype Scene = Scene(objects: seq<Client>, byId: map<nat, nat>, own: Option<nat>)

  const NOTHING: Scene := Scene([], map[], None)

  function NewClient(uuid: nat): Client {
    Client(uuid, 0, 0, [], [], [], false)
  }

  /** A login reply always makes a new object. */
  function OnLogin(scene: Scene, uuid: nat): Scene {
    var k := |scene.objects|;
    Scene(scene.objects + [NewClient(uuid)], scene.byId[uuid := k], if scene.own == None then Some(k) else scene.own)
  }

  function Registered(byId: map<nat, nat>, ids: seq<nat>, k: nat): map<nat, nat> {
    if ids == [] then byId else Registered(byId, ids[..|ids| - 1], k)[ids[|ids| - 1] := k]
  }

  function Renamed(objects: seq<Client>, k: nat, ids: seq<nat>): seq<Client> {
    if ids == [] || k >= |objects| then objects else objects[k := objects[k].(uuid := ids[|ids| - 1])]
  }

  /** One object takes each listed id in turn, so it ends with the last, and is registered
      under all of them. */
  function ShowAs(scene: Scene, k: nat, ids: seq<nat>): Scene {
    scene.(objects := Renamed(scene.objects, k, ids), byId := Registered(scene.byId, ids, k))
  }

  /** One listed id: the object registered under it, or else a new one, is shown the whole list. */
  function Show(scene: Scene, id: nat, ids: seq<nat>): Scene {
    if id in scene.byId then ShowAs(scene, scene.byId[id], ids)
    else ShowAs(scene.(objects := scene.objects + [NewClient(0)]), |scene.objects|, ids)
  }

  /** The first `n` listed ids of a sight message. */
  function OnSight(scene: Scene, ids: seq<nat>, n: nat): Scene
    requires n <= |ids|
  {
    if n == 0 then scene else Show(OnSight(scene, ids, n - 1), ids[n - 1], ids)
  }

  function Stepped(objects: seq<Client>, input: Input): seq<Client> {
    seq(|objects|, i requires 0 <= i < |objects| => Step(objects[i], input))
  }

  function React(scene: Scene, input: Input): Scene {
    match input
    case Receive(LoggedIn(uuid)) => OnLogin(scene, uuid)
    case Receive(Sight(ids)) => OnSight(scene, ids, |ids|)
    case _ => scene.(objects := Stepped(scene.objects, input))
  }

  function After(inputs: seq<Input>): Scene {
    if inputs == [] then NOTHING else React(After(inputs[..|inputs| - 1]), inputs[|inputs| - 1])
  }

  function Own(scene: Scene): Option<Client> {
    if scene.own.Some? && scene.own.value < |scene.objects| then Some(scene.objects[scene.own.value]) else None
  }

  function Received(inputs: seq<Input>): seq<Reply> {
    if inputs == [] then []
    else
      var last := inputs[|inputs| - 1];
      Received(inputs[..|inputs| - 1]) + if last.Receive? then [last.reply] else []
  }

  // ---------------------------------------------------------------- the code

  class Player {
    var uuid: nat
    var curFrameId: nat
    var nxtFrameId: nat
    var curFrameInfo: seq<nat>
    var ran: seq<Keys>
    var outbox: seq<Bytes>
    var started: bool

    function Value(): Client
      reads this
    {
      Client(uuid, curFrameId, nxtFrameId, curFrameInfo, ran, outbox, started)
    }

    constructor (uuid: nat)
      ensures Value() == NewClient(uuid)
    {
      this.uuid, curFrameId, nxtFrameId, curFrameInfo, ran, outbox, started := uuid, 0, 0, [], [], [], false;
    }

    /** Adds the listeners. */
    method Begin()
      modifies this`started
      ensures Value() == Step(old(Value()), Start)
    {
      started := true;
    }

    method InitFrame(cur: nat, nxt: nat)
      modifies this
      ensures Value() == OnFrameInit(old(Value()), cur, nxt)
    {
      curFrameId, nxtFrameId := cur, nxt;
    }

    method SetInfo(uuid: nat)
      modifies this`uuid
      ensures Value() == old(Value()).(uuid := uuid)
    {
      this.uuid := uuid;
    }

    method PushKeyInfo(key: nat)
      modifies this
      ensures Value() == old(Value()).(keys := old(curFrameInfo) + [key])
    {
      curFrameInfo := curFrameInfo + [key];
    }

    method SendKeyInfo()
      modifies this
      ensures Value() == old(Value()).(outbox := old(outbox) + [KeyMessage(old(Value()))], keys := [])
    {
      var keyInfo := [];
      var i := 0;
      while i < |curFrameInfo|
        invariant i <= |curFrameInfo| && keyInfo == curFrameInfo[..i]
      {
        keyInfo := keyInfo + [curFrameInfo[i]];
        i := i + 1;
      }
      assert keyInfo == curFrameInfo;
      outbox := outbox + [WriteCSFrame(CSFrame(Some(uuid), Some(curFrameId), keyInfo, []))];
      curFrameInfo := [];
    }

    method RunFrame(id: nat, pool: Keys)
      modifies this
      ensures Value() == RunIfAwaited(old(Value()), id, pool)
    {
      if curFrameId == id {
        SendKeyInfo();
        ran := ran + [pool];
      }
    }

    method FrameArrived(data: Bytes)
      modifies this
      ensures Value() == OnFrame(old(Value()), data)
    {
      var parsed := ParseSCFrame(data);
      if parsed == None {
        return;
      }
      var users, pool, i := parsed.value.users, map[], 0;
      while i < |users|
        invariant i <= |users| && PoolOf(users[..i]) == Some(pool)
      {
        var user := users[i];
        assert users[..i + 1][..i] == users[..i];
        if OrZero(user.uuid) in pool {
          DuplicateUser(users, i);
          return;
        }
        pool := pool[OrZero(user.uuid) := user.keyInfo];
        i := i + 1;
      }
      assert users[..i] == users;
      RunFrame(OrZero(parsed.value.frameId), pool);
      curFrameId := OrZero(parsed.value.nextFrameId);
    }
  }

  /** The message handlers of the scene and the manager of its players. A player is known here
      by its place among all players made. */
  class Main {
    var players: seq<Player>
    var allPlayer: map<nat, nat>
    var own: Option<nat>

    ghost predicate Valid()
      reads this
    {
      && (forall i, j | 0 <= i < j < |players| :: players[i] != players[j])
      && (forall id | id in allPlayer :: allPlayer[id] < |players|)
    }

    function Values(): seq<Client>
      reads this, players
    {
      seq(|players|, i requires 0 <= i < |players| reads this, players => players[i].Value())
    }

    function Value(): Scene
      reads this, players
    {
      Scene(Values(), allPlayer, own)
    }

    constructor ()
      ensures Valid() && Value() == NOTHING
    {
      players, allPlayer, own := [], map[], None;
    }

    method AddOne(id: nat, k: nat)
      requires Valid() && k < |players|
      modifies this`allPlayer
      ensures Valid() && allPlayer == old(allPlayer)[id := k]
    {
      allPlayer := allPlayer[id := k];
    }

    method Instantiate(uuid: nat) returns (k: nat)
      requires Valid()
      modifies this`players
      ensures Valid() && k == |old(players)|
      ensures |players| == k + 1 && players[..k] == old(players) && fresh(players[k])
      ensures players[k].Value() == NewClient(uuid)
    {
      k := |players|;
      var player := new Player(uuid);
      players := players + [player];
    }

    method LoginArrived(uuid: nat)
      requires Valid()
      modifies this
      ensures Valid() && Value() == OnLogin(old(Value()), uuid)
      ensures old(players) <= players && forall j | |old(players)| <= j < |players| :: fresh(players[j])
    {
      var k := Instantiate(uuid);
      AddOne(uuid, k);
      if own == None {
        own := Some(k);
      }
    }

    method ShowPlayer(k: nat, ids: seq<nat>)
      requires Valid() && k < |players|
      modifies this`allPlayer, players[k]
      ensures Valid() && Value() == ShowAs(old(Value()), k, ids)
    {
      hide Registered;
      assert allPlayer == Registered(allPlayer, [], k) by { RegisteredNone(allPlayer, k); }
      for i := 0 to |ids|
        invariant Valid()
        invariant allPlayer == Registered(old(allPlayer), ids[..i], k)
        invariant players[k].Value() ==
          old(players[k].Value()).(uuid := if i == 0 then old(players[k].uuid) else ids[i - 1])
      {
        players[k].SetInfo(ids[i]);
        RegisteredMore(old(allPlayer), ids, i, k);
        AddOne(ids[i], k);
      }
      assert ids[..|ids|] == ids;
    }

    method SightArrived(ids: seq<nat>)
      requires Valid()
      modifies this`players, this`allPlayer, players
      ensures Valid() && Value() == OnSight(old(Value()), ids, |ids|)
      ensures old(players) <= players && forall j | |old(players)| <= j < |players| :: fresh(players[j])
    {
      hide ShowAs;
      for i := 0 to |ids|
        invariant Valid() && Value() == OnSight(old(Value()), ids, i)
        invariant old(players) <= players && forall j | |old(players)| <= j < |players| :: fresh(players[j])
      {
        ghost var before := Value();
        var k;
        if ids[i] in allPlayer {
          k := allPlayer[ids[i]];
        } else {
          k := Instantiate(0);
          assert Values() == before.objects + [NewClient(0)];
        }
        ShowPlayer(k, ids);
        assert Value() == Show(before, ids[i], ids);
      }
    }

    /** Every object that was started listens to key presses, frame-init and frame messages. */
    method Deliver(input: Input)
      requires Valid() && !(input.Receive? && (input.reply.LoggedIn? || input.reply.Sight?))
      modifies players
      ensures Valid() && Value() == React(old(Value()), input)
    {
      hide OnFrame;
      for i := 0 to |players|
        invariant forall j | 0 <= j < i :: players[j].Value() == Step(old(players[j].Value()), input)
        invariant forall j | i <= j < |players| :: players[j].Value() == old(players[j].Value())
      {
        if input.Start? {
          players[i].Begin();
        } else if players[i].started {
          match input
          case Press(key) => players[i].PushKeyInfo(key);
          case Receive(FrameInit(cur, nxt)) => players[i].InitFrame(cur, nxt);
          case Receive(Frame(data)) => players[i].FrameArrived(data);
        }
      }
    }
  }

  lemma RegisteredNone(byId: map<nat, nat>, k: nat)
    ensures Registered(byId, [], k) == byId
  {
  }

  lemma RegisteredMore(byId: map<nat, nat>, ids: seq<nat>, i: nat, k: nat)
    requires i < |ids|
    ensures Registered(byId, ids[..i + 1], k) == Registered(byId, ids[..i], k)[ids[i] := k]
  {
    assert ids[..i + 1][..i] == ids[..i];
  }

  /** A user that appears twice makes the whole frame fail. */
  lemma {:induction false} DuplicateUser(users: seq<UserFrame>, i: nat)
    requires i < |users| && PoolOf(users[..i + 1]) == None
    ensures PoolOf(users) == None
    decreases |users|
  {
    if i + 1 == |users| {
      assert users[..i + 1] == users;
    } else {
      assert users[..|users| - 1][..i + 1] == users[..i + 1];
      DuplicateUser(users[..|users| - 1], i);
    }
  }

  // ---------------------------------------------------------------- one's own object

  function IdSet(ids: seq<nat>): set<nat> {
    set id | id in ids
  }

  /** Registered places are places of objects. */
  predicate SceneOk(scene: Scene) {
    && (scene.own.Some? ==> scene.own.value < |scene.objects|)
    && forall id | id in scene.byId :: scene.byId[id] < |scene.objects|
  }

  /** How an input may change an object: a sight message at most changes its id. */
  predicate Follows(c: Client, z: Client, input: Input) {
    match input
    case Receive(Sight(ids)) => z == c || (z.uuid in ids && z == c.(uuid := z.uuid))
    case _ => z == Step(c, input)
  }

  /** Objects stay where they are; new ones have done nothing yet. */
  predicate AllFollow(objects: seq<Client>, after: seq<Client>, input: Input) {
    && |objects| <= |after|
    && (forall i | 0 <= i < |objects| :: Follows(objects[i], after[i], input))
    && (forall i | |objects| <= i < |after| :: after[i] == NewClient(after[i].uuid) && IdIn(after[i].uuid, input))
  }

  predicate IdIn(uuid: nat, input: Input) {
    input.Receive? &&
    match input.reply
    case LoggedIn(id) => uuid == id
    case Sight(ids) => uuid in ids
    case _ => false
  }

  /** The object of one's own, made by the first login reply. */
  predicate OwnFollows(c: Option<Client>, z: Option<Client>, input: Input) {
    if c.Some? then z.Some? && Follows(c.value, z.value, input)
    else z == if input.Receive? && input.reply.LoggedIn? then Some(NewClient(input.reply.uuid)) else None
  }

  lemma {:induction false} RegisteredMeans(byId: map<nat, nat>, ids: seq<nat>, k: nat)
    ensures forall id :: id in Registered(byId, ids, k) <==> id in byId || id in ids
    ensures forall id | id in Registered(byId, ids, k) ::
      Registered(byId, ids, k)[id] == if id in ids then k else byId[id]
  {
    if ids != [] {
      RegisteredMeans(byId, ids[..|ids| - 1], k);
      assert ids == ids[..|ids| - 1] + [ids[|ids| - 1]];
    }
  }

  /** Only the first listed id counts: its object, new if there was none, is registered under
      every listed id by the time the others are looked up. */
  lemma {:induction false} SightIsFirst(scene: Scene, ids: seq<nat>, n: nat)
    requires SceneOk(scene) && 0 < n <= |ids|
    ensures OnSight(scene, ids, n) == Show(scene, ids[0], ids) && SceneOk(Show(scene, ids[0], ids))
    decreases n
  {
    hide Show;
    var z := Show(scene, ids[0], ids);
    ShownTwice(scene, ids[0], ids, ids[n - 1]);
    assert OnSight(scene, ids, 0) == scene;
    if n > 1 {
      SightIsFirst(scene, ids, n - 1);
    }
  }

  lemma ShownTwice(scene: Scene, first: nat, ids: seq<nat>, id: nat)
    requires SceneOk(scene) && id in ids
    ensures var z := Show(scene, first, ids); SceneOk(z) && Show(z, id, ids) == z
  {
    hide Registered;
    var z := Show(scene, first, ids);
    var k := if first in scene.byId then scene.byId[first] else |scene.objects|;
    RegisteredMeans(scene.byId, ids, k);
    RegisteredMeans(z.byId, ids, k);
    assert Registered(z.byId, ids, k) == z.byId;
    assert Renamed(z.objects, k, ids) == z.objects;
  }

  lemma ObjectsFollow(scene: Scene, input: Input)
    requires SceneOk(scene)
    ensures SceneOk(React(scene, input)) && AllFollow(scene.objects, React(scene, input).objects, input)
    ensures OwnFollows(Own(scene), Own(React(scene, input)), input)
  {
    hide OnFrame, Show, Registered;
    match input
    case Receive(Sight(ids)) =>
      if ids != [] {
        SightIsFirst(scene, ids, |ids|);
        ObjectsShown(scene, ids[0], ids);
      }
    case _ =>
  }

  lemma ObjectsShown(scene: Scene, id: nat, ids: seq<nat>)
    requires SceneOk(scene) && ids != []
    ensures AllFollow(scene.objects, Show(scene, id, ids).objects, Receive(Sight(ids)))
    ensures OwnFollows(Own(scene), Own(Show(scene, id, ids)), Receive(Sight(ids)))
  {
    hide Registered;
  }

  lemma {:induction false} AfterOk(inputs: seq<Input>)
    ensures SceneOk(After(inputs))
    decreases |inputs|
  {
    hide React;
    if inputs != [] {
      AfterOk(inputs[..|inputs| - 1]);
      ObjectsFollow(After(inputs[..|inputs| - 1]), inputs[|inputs| - 1]);
    }
  }

  // ---------------------------------------------------------------- how many objects there are

  /** Every id a reply gave or listed. */
  function Named(replies: seq<Reply>): set<nat> {
    if replies == [] then {}
    else
      var before := Named(replies[..|replies| - 1]);
      match replies[|replies| - 1]
      case LoggedIn(uuid) => before + {uuid}
      case Sight(ids) => before + IdSet(ids)
      case _ => before
  }

  /** Whether a reply, after some others, makes an object: every login reply does, and a list of
      ids does when the first was never named before. */
  predicate Makes(before: seq<Reply>, reply: Reply) {
    match reply
    case LoggedIn(_) => true
    case Sight(ids) => ids != [] && ids[0] !in Named(before)
    case _ => false
  }

  function Made(replies: seq<Reply>): nat {
    if replies == [] then 0
    else
      var before, last := replies[..|replies| - 1], replies[|replies| - 1];
      Made(before) + if Makes(before, last) then 1 else 0
  }

  lemma SightMakes(scene: Scene, ids: seq<nat>)
    requires SceneOk(scene)
    ensures var z := OnSight(scene, ids, |ids|);
      && z.byId.Keys == scene.byId.Keys + IdSet(ids)
      && |z.objects| == |scene.objects| + if ids != [] && ids[0] !in scene.byId then 1 else 0
  {
    hide Registered;
    if ids != [] {
      SightIsFirst(scene, ids, |ids|);
      RegisteredMeans(scene.byId, ids, if ids[0] in scene.byId then scene.byId[ids[0]] else |scene.objects|);
    }
  }

  /** Whatever arrives and whatever is pressed, the objects are as many as the replies received
      made, and the ids registered are those they named. */
  lemma {:induction false} ObjectsMade(inputs: seq<Input>)
    ensures |After(inputs).objects| == Made(Received(inputs)) && After(inputs).byId.Keys == Named(Received(inputs))
    decreases |inputs|
  {
    hide OnSight, Step;
    if inputs != [] {
      var front, last := inputs[..|inputs| - 1], inputs[|inputs| - 1];
      ObjectsMade(front);
      AfterOk(front);
      match last
      case Receive(reply) =>
        assert Received(inputs)[..|Received(front)|] == Received(front);
        if reply.Sight? {
          SightMakes(After(front), reply.ids);
        }
      case _ => assert Received(inputs) == Received(front);
    }
  }

  /** The objects that are started: as many as there were at the last start. */
  function Awake(inputs: seq<Input>): nat {
    if inputs == [] then 0
    else
      var front, last := inputs[..|inputs| - 1], inputs[|inputs| - 1];
      if last.Start? then Made(Received(front)) else Awake(front)
  }

  /** The first objects made are the started ones. */
  ghost predicate FirstAreStarted(objects: seq<Client>, n: nat) {
    n <= |objects| && forall i | 0 <= i < |objects| :: objects[i].started <==> i < n
  }

  lemma StepStarts(objects: seq<Client>, after: seq<Client>, input: Input, n: nat)
    requires AllFollow(objects, after, input) && FirstAreStarted(objects, n)
    ensures FirstAreStarted(after, if input.Start? then |objects| else n)
  {
    hide OnFrame;
    forall i | 0 <= i < |objects| ensures after[i].started <==> i < (if input.Start? then |objects| else n) {
      assert Follows(objects[i], after[i], input);
      FollowedStarted(objects[i], after[i], input);
    }
  }

  lemma FollowedStarted(c: Client, z: Client, input: Input)
    requires Follows(c, z, input)
    ensures z.started == (c.started || input.Start?)
  {
    hide ParseSCFrame, PoolOf, KeyMessage;
  }

  lemma {:induction false} AwakeAreStarted(inputs: seq<Input>)
    ensures FirstAreStarted(After(inputs).objects, Awake(inputs))
    decreases |inputs|
  {
    hide React, AllFollow, SceneOk, FirstAreStarted, Received, Made;
    if inputs == [] {
      assert FirstAreStarted([], 0) by { NoneStarted(); }
    } else {
      var front, last := inputs[..|inputs| - 1], inputs[|inputs| - 1];
      AwakeAreStarted(front);
      AfterOk(front);
      ObjectsFollow(After(front), last);
      ObjectsMade(front);
      StepStarts(After(front).objects, After(inputs).objects, last, Awake(front));
    }
  }

  lemma NoneStarted()
    ensures FirstAreStarted([], 0)
  {
  }

  function NumbersBelow(n: nat): (numbers: set<nat>)
    ensures |numbers| == n && forall i :: i in numbers <==> 0 <= i < n
  {
    if n == 0 then {} else NumbersBelow(n - 1) + {n - 1}
  }

  /** The objects whose keys a press changes. */
  ghost function Holders(inputs: seq<Input>, key: nat): set<nat> {
    var before, after := After(inputs).objects, After(inputs + [Press(key)]).objects;
    set i | 0 <= i < |before| && i < |after| && after[i] == before[i].(keys := before[i].keys + [key])
  }

  lemma AfterSnoc(inputs: seq<Input>, last: Input)
    ensures After(inputs + [last]) == React(After(inputs), last)
  {
    hide React;
    assert (inputs + [last])[..|inputs|] == inputs;
  }

  /** A press goes to exactly the objects started, whatever arrived before; so it is held once if
      and only if at the last start the replies received had made exactly one object. */
  lemma PressHeld(inputs: seq<Input>, key: nat)
    ensures var before, after := After(inputs).objects, After(inputs + [Press(key)]).objects;
      && |after| == |before| && Awake(inputs) <= |before|
      && forall i | Awake(inputs) <= i < |before| :: after[i] == before[i]
    ensures forall i :: i in Holders(inputs, key) <==> 0 <= i < Awake(inputs)
    ensures |Holders(inputs, key)| == Awake(inputs)
  {
    hide After;
    AfterSnoc(inputs, Press(key));
    AwakeAreStarted(inputs);
    var before, after := After(inputs).objects, After(inputs + [Press(key)]).objects;
    forall i | 0 <= i < |before|
      ensures after[i] == if i < Awake(inputs) then before[i].(keys := before[i].keys + [key]) else before[i]
      ensures before[i].keys + [key] != before[i].keys
    {
      assert |before[i].keys + [key]| == |before[i].keys| + 1;
    }
    assert Holders(inputs, key) == NumbersBelow(Awake(inputs));
  }

  /** Every list starts with an id named before it. */
  ghost predicate NothingNew(replies: seq<Reply>) {
    forall i | 0 <= i < |replies| && replies[i].Sight? && replies[i].ids != [] ::
      replies[i].ids[0] in Named(replies[..i])
  }

  function Logins(replies: seq<Reply>): nat {
    if replies == [] then 0 else Logins(replies[..|replies| - 1]) + if replies[|replies| - 1].LoggedIn? then 1 else 0
  }

  /** There is one object for every login reply and no other exactly when nothing was new. */
  lemma {:induction false} OnlyLoginsIff(replies: seq<Reply>)
    ensures Made(replies) >= Logins(replies)
    ensures Made(replies) == Logins(replies) <==> NothingNew(replies)
    decreases |replies|
  {
    hide Named;
    if replies != [] {
      var front, last := replies[..|replies| - 1], replies[|replies| - 1];
      OnlyLoginsIff(front);
      assert forall i | 0 <= i < |front| :: front[i] == replies[i] && front[..i] == replies[..i];
      if NothingNew(replies) {
        assert NothingNew(front);
      }
      if NothingNew(front) && !Makes(front, last) {
        assert NothingNew(replies);
      }
    }
  }

  // ---------------------------------------------------------------- whose keys they are

  /** The id an object goes under and the ids it is registered under. */
  datatype Name = Name(id: nat, registered: set<nat>)

  /** A list of ids that starts with a registered one is taken over, with the last for id;
      another takes away the ids it lists. */
  function Relisted(name: Name, ids: seq<nat>): Name {
    if ids == [] then name
    else if ids[0] in name.registered then Name(ids[|ids| - 1], name.registered + IdSet(ids))
    else Name(name.id, name.registered - IdSet(ids))
  }

  function NextName(name: Option<Name>, reply: Reply): Option<Name> {
    match reply
    case LoggedIn(uuid) =>
      Some(if name == None then Name(uuid, {uuid}) else Name(name.value.id, name.value.registered - {uuid}))
    case Sight(ids) => if name == None then None else Some(Relisted(name.value, ids))
    case _ => name
  }

  function NameFrom(replies: seq<Reply>): Option<Name> {
    if replies == [] then None else NextName(NameFrom(replies[..|replies| - 1]), replies[|replies| - 1])
  }

  function NameOf(scene: Scene): Option<Name> {
    if Own(scene) == None then None
    else Some(Name(Own(scene).value.uuid, set id | id in scene.byId && scene.byId[id] == scene.own.value))
  }

  lemma SightNames(scene: Scene, ids: seq<nat>)
    requires SceneOk(scene)
    ensures NameOf(OnSight(scene, ids, |ids|)) == NextName(NameOf(scene), Sight(ids))
  {
    hide Registered;
    if ids != [] {
      SightIsFirst(scene, ids, |ids|);
      var k := if ids[0] in scene.byId then scene.byId[ids[0]] else |scene.objects|;
      RegisteredMeans(scene.byId, ids, k);
      if Own(scene).Some? {
        var z, name := NameOf(Show(scene, ids[0], ids)).value, NameOf(scene).value;
        assert forall id :: id in z.registered <==> id in Relisted(name, ids).registered;
        assert z == Relisted(name, ids);
      }
    }
  }

  lemma LoginNames(scene: Scene, uuid: nat)
    requires SceneOk(scene)
    ensures NameOf(OnLogin(scene, uuid)) == NextName(NameOf(scene), LoggedIn(uuid))
  {
    var z, name := NameOf(OnLogin(scene, uuid)).value, NextName(NameOf(scene), LoggedIn(uuid)).value;
    assert forall id :: id in z.registered <==> id in name.registered;
    assert z == name;
  }

  lemma OtherNames(scene: Scene, input: Input)
    requires SceneOk(scene) && !(input.Receive? && (input.reply.LoggedIn? || input.reply.Sight?))
    ensures NameOf(React(scene, input)) == NameOf(scene)
  {
    hide OnFrame;
    ObjectsFollow(scene, input);
    if Own(scene).Some? && input.Receive? && input.reply.Frame? {
      FrameKeepsId(Own(scene).value, input.reply.data);
    }
  }

  lemma FrameKeepsId(c: Client, data: Bytes)
    ensures OnFrame(c, data).uuid == c.uuid
  {
    hide ParseSCFrame, PoolOf, KeyMessage;
  }

  /** Whatever arrives and whatever is pressed, the object of one's own goes under the id that
      the rule above gives it, which looks at the lists of ids received and at no objects. */
  lemma {:induction false} OwnIsNamed(inputs: seq<Input>)
    ensures NameOf(After(inputs)) == NameFrom(Received(inputs))
    decreases |inputs|
  {
    hide React, OnSight, OnLogin, NextName, NameOf, SceneOk;
    if inputs == [] {
      NothingNamed();
    } else {
      var front, last := inputs[..|inputs| - 1], inputs[|inputs| - 1];
      OwnIsNamed(front);
      AfterOk(front);
      match last
      case Receive(reply) =>
        assert Received(inputs)[..|Received(front)|] == Received(front);
        NextNamed(After(front), reply);
      case _ =>
        OtherNames(After(front), last);
        assert Received(inputs) == Received(front);
    }
  }

  lemma NothingNamed()
    ensures NameOf(NOTHING) == None
  {
  }

  lemma NextNamed(scene: Scene, reply: Reply)
    requires SceneOk(scene)
    ensures NameOf(React(scene, Receive(reply))) == NextName(NameOf(scene), reply)
  {
    hide OnSight, OnLogin, NameOf, SceneOk;
    match reply
    case Sight(ids) => SightNames(scene, ids);
    case LoggedIn(uuid) => LoginNames(scene, uuid);
    case _ => OtherNames(scene, Receive(reply));
  }

  /** One login reply at most, with this id, which every later list of ids names. */
  ghost predicate ToldOf(replies: seq<Reply>, uuid: nat) {
    forall i | 0 <= i < |replies| && replies[i].LoggedIn? ::
      && replies[i].uuid == uuid
      && forall j | i < j < |replies| :: !replies[j].LoggedIn? && (replies[j].Sight? ==> uuid in replies[j].ids)
  }

  ghost predicate HasLogin(replies: seq<Reply>) {
    exists i :: 0 <= i < |replies| && replies[i].LoggedIn?
  }

  /** The lists of ids received since login. */
  ghost function Lists(replies: seq<Reply>): seq<seq<nat>> {
    if replies == [] then []
    else
      var front, last := replies[..|replies| - 1], replies[|replies| - 1];
      Lists(front) + if last.Sight? && HasLogin(front) then [last.ids] else []
  }

  function First(ids: seq<nat>): nat {
    if ids == [] then 0 else ids[0]
  }

  function Last(ids: seq<nat>): nat {
    if ids == [] then 0 else ids[|ids| - 1]
  }

  /** The name of a client told its id, by the lists of ids it got since. */
  ghost predicate GoesBy(name: Name, lists: seq<seq<nat>>, uuid: nat) {
    && (lists == [] ==> name == Name(uuid, {uuid}))
    && (lists != [] && First(lists[0]) != uuid ==> name == Name(uuid, {}))
    && (lists != [] && (forall ids | ids in lists :: First(ids) == uuid) ==>
      uuid in name.registered && name.id == Last(lists[|lists| - 1]))
  }

  lemma OneMoreList(name: Name, lists: seq<seq<nat>>, uuid: nat, ids: seq<nat>)
    requires GoesBy(name, lists, uuid) && uuid in ids
    ensures GoesBy(Relisted(name, ids), lists + [ids], uuid)
  {
    assert ids in lists + [ids] && forall l | l in lists :: l in lists + [ids];
    if lists == [] && First(ids) != uuid {
      assert {uuid} - IdSet(ids) == {};
    }
  }

  /** A client told its id once keeps it for good when the first list it gets starts with
      another id. While every list starts with its own id, it goes under the last id of the
      latest list, so under its own exactly when that list also ends with it. */
  lemma {:induction false} NameByLists(replies: seq<Reply>, uuid: nat)
    requires ToldOf(replies, uuid)
    ensures NameFrom(replies).Some? <==> HasLogin(replies)
    ensures HasLogin(replies) ==> GoesBy(NameFrom(replies).value, Lists(replies), uuid)
    decreases |replies|
  {
    hide GoesBy, Relisted;
    if replies != [] {
      var front, last := replies[..|replies| - 1], replies[|replies| - 1];
      NameByLists(front, uuid);
      assert HasLogin(replies) <==> HasLogin(front) || last.LoggedIn?;
      if last.LoggedIn? {
        assert forall i | 0 <= i < |front| :: front[i] == replies[i] && !front[i].LoggedIn?;
        assert replies[|replies| - 1].uuid == uuid;
        NoLists(front);
        assert Lists(replies) == [];
        assert NameFrom(replies) == Some(Name(uuid, {uuid}));
        assert GoesBy(Name(uuid, {uuid}), [], uuid) by { NoListsYet(uuid); }
      } else if last.Sight? && HasLogin(front) {
        OneMoreList(NameFrom(front).value, Lists(front), uuid, last.ids);
      } else {
        assert Lists(replies) == Lists(front);
      }
    }
  }

  lemma NoListsYet(uuid: nat)
    ensures GoesBy(Name(uuid, {uuid}), [], uuid)
  {
  }

  lemma {:induction false} NoLists(replies: seq<Reply>)
    requires !HasLogin(replies)
    ensures Lists(replies) == []
    decreases |replies|
  {
    if replies != [] {
      var front := replies[..|replies| - 1];
      assert !HasLogin(front) by {
        assert forall i | 0 <= i < |front| :: front[i] == replies[i];
      }
      NoLists(front);
    }
  }

  // ---------------------------------------------------------------- keys from client to server

  /** What a client sends when it runs a frame reaches the server as its keys: all of them, in
      order, for the user whose id it then goes under. */
  lemma SentKeysArrive(c: Client, s: Server)
    requires c.uuid < TWO_TO_32 && c.curFrameId < TWO_TO_64 && forall k | k in c.keys :: k < TWO_TO_32
    ensures HandleFrame(s, KeyMessage(c)).pending == AddKeys(s.pending, c.uuid, c.keys)
  {
    hide WriteCSFrame, ParseCSFrame;
    CSFrameRoundTrip(CSFrame(Some(c.uuid), Some(c.curFrameId), c.keys, []));
  }

  /** The keys in the messages a client sent. */
  function KeysSent(outbox: seq<Bytes>): seq<nat> {
    if outbox == [] then []
    else
      var m := ParseCSFrame(outbox[|outbox| - 1]);
      KeysSent(outbox[..|outbox| - 1]) + if m.Some? then m.value.keyInfo else []
  }

  /** The keys pressed once the object made as number `i` was started. */
  function PressedFor(inputs: seq<Input>, i: nat): seq<nat> {
    if inputs == [] then []
    else
      var front, last := inputs[..|inputs| - 1], inputs[|inputs| - 1];
      PressedFor(front, i) + if last.Press? && i < Awake(front) then [last.key] else []
  }

  /** Inputs whose numbers fit the fields they are kept in. */
  predicate InputFits(input: Input) {
    match input
    case Start => true
    case Press(key) => key < TWO_TO_32
    case Receive(LoggedIn(uuid)) => uuid < TWO_TO_32
    case Receive(FrameInit(cur, nxt)) => cur < TWO_TO_64 && nxt < TWO_TO_64
    case Receive(Sight(ids)) => forall id | id in ids :: id < TWO_TO_32
    case Receive(Frame(_)) => true
  }

  ghost predicate ClientFits(c: Client) {
    c.uuid < TWO_TO_32 && c.curFrameId < TWO_TO_64 && forall k | k in c.keys :: k < TWO_TO_32
  }

  lemma StepFits(c: Client, z: Client, input: Input)
    requires ClientFits(c) && InputFits(input) && Follows(c, z, input)
    ensures ClientFits(z)
  {
    hide ParseSCFrame, PoolOf, KeyMessage;
    if input.Receive? && input.reply.Frame? && ParseSCFrame(input.reply.data).Some? {
      SCFrameIdsOk(input.reply.data);
    }
  }

  /** Keys sent, then keys held. */
  function KeysSoFar(c: Client): seq<nat> {
    KeysSent(c.outbox) + c.keys
  }

  lemma StepKeepsKeys(c: Client, z: Client, input: Input)
    requires ClientFits(c) && InputFits(input) && Follows(c, z, input)
    ensures KeysSoFar(z) == KeysSoFar(c) + if input.Press? && c.started then [input.key] else []
  {
    hide ParseSCFrame, PoolOf, KeysSent, KeyMessage, ParseCSFrame;
    match input
    case Press(key) =>
      assert KeysSent(c.outbox) + (c.keys + [key]) == KeysSent(c.outbox) + c.keys + [key];
    case _ =>
      SentNow(c);
      assert KeysSent(c.outbox) + c.keys + [] == KeysSent(c.outbox) + c.keys;
  }

  lemma SentNow(c: Client)
    requires ClientFits(c)
    ensures KeysSent(c.outbox + [KeyMessage(c)]) == KeysSent(c.outbox) + c.keys
  {
    hide WriteCSFrame, ParseCSFrame;
    CSFrameRoundTrip(CSFrame(Some(c.uuid), Some(c.curFrameId), c.keys, []));
    assert (c.outbox + [KeyMessage(c)])[..|c.outbox|] == c.outbox;
  }

  ghost predicate ObjectsFit(objects: seq<Client>) {
    forall i | 0 <= i < |objects| :: ClientFits(objects[i])
  }

  lemma AllStepFit(objects: seq<Client>, after: seq<Client>, input: Input)
    requires ObjectsFit(objects) && InputFits(input) && AllFollow(objects, after, input)
    ensures ObjectsFit(after)
  {
    hide Follows, ClientFits;
    forall i | 0 <= i < |after| ensures ClientFits(after[i]) {
      if i < |objects| {
        StepFits(objects[i], after[i], input);
      } else {
        NewFits(after[i].uuid, input);
      }
    }
  }

  lemma NewFits(uuid: nat, input: Input)
    requires InputFits(input) && IdIn(uuid, input)
    ensures ClientFits(NewClient(uuid))
  {
  }

  lemma {:induction false} AfterFits(inputs: seq<Input>)
    requires forall i | i in inputs :: InputFits(i)
    ensures ObjectsFit(After(inputs).objects)
    decreases |inputs|
  {
    hide React, ClientFits, InputFits, AllFollow, SceneOk;
    if inputs != [] {
      var front, last := inputs[..|inputs| - 1], inputs[|inputs| - 1];
      AfterFits(front);
      AfterOk(front);
      ObjectsFollow(After(front), last);
      AllStepFit(After(front).objects, After(inputs).objects, last);
    }
  }

  lemma OwnFits(scene: Scene)
    requires ObjectsFit(scene.objects)
    ensures Own(scene).Some? ==> ClientFits(Own(scene).value)
  {
  }

  lemma {:induction false} NonePressed(inputs: seq<Input>, i: nat)
    requires i >= |After(inputs).objects|
    ensures PressedFor(inputs, i) == []
    decreases |inputs|
  {
    hide React, AllFollow, SceneOk;
    if inputs != [] {
      var front := inputs[..|inputs| - 1];
      AfterOk(front);
      ObjectsFollow(After(front), inputs[|inputs| - 1]);
      GrowsOnly(After(front).objects, After(inputs).objects, inputs[|inputs| - 1]);
      AwakeAreStarted(front);
      NonePressed(front, i);
    }
  }

  lemma GrowsOnly(objects: seq<Client>, after: seq<Client>, input: Input)
    requires AllFollow(objects, after, input)
    ensures |objects| <= |after|
  {
  }

  /** For every object of a client: the keys it has sent, in the order of its messages, followed
      by those it still holds, are the keys pressed since it was started, in order. */
  lemma {:induction false} NoPressLost(inputs: seq<Input>, i: nat)
    requires (forall input | input in inputs :: InputFits(input)) && i < |After(inputs).objects|
    ensures KeysSoFar(After(inputs).objects[i]) == PressedFor(inputs, i)
    decreases |inputs|
  {
    hide React, ClientFits, InputFits, Follows, SceneOk, KeysSoFar;
    var front, last := inputs[..|inputs| - 1], inputs[|inputs| - 1];
    var before := After(front).objects;
    AfterOk(front);
    ObjectsFollow(After(front), last);
    AwakeAreStarted(front);
    if i < |before| {
      NoPressLost(front, i);
      AfterFits(front);
      StepKeepsKeys(before[i], After(inputs).objects[i], last);
    } else {
      NonePressed(front, i);
      NothingYet(After(inputs).objects[i].uuid);
    }
  }

  lemma NothingYet(uuid: nat)
    ensures KeysSoFar(NewClient(uuid)) == []
  {
  }
}
