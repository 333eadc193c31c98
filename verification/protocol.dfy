/** The server's state and the handlers that both servers (server/src/server-elysia.ts
    and server/src/server.ts) implement identically. Each socket handler is a pure
    transition from a state and the sender's socket id to a new state and the list of
    messages it emits, in emission order. The two servers hold different item records;
    `I` is that record and `idOf` reads its `id` field. */
module Protocol {
  import opened Wrappers
  import Random
  import Text

  /** A session: the record the server keeps per connected socket. `rotation` and
      `isReloading` are absent until the first movement report spreads them in. */
  datatype Player = Player(
    id: string,
    name: string,
    x: real,
    y: real,
    rotation: Option<real>,
    isReloading: Option<bool>,
    kills: nat,
    deaths: nat)

  /** `PlayerMovementData`, as the client sends it. */
  datatype Movement = Movement(x: real, y: real, rotation: real, isReloading: bool)

  /** `ShootData`. */
  datatype Shot = Shot(x: real, y: real, rotation: real, ammo: int)

  /** The events the server emits. */
  datatype Message<I> =
    | Init(players: map<string, Player>, itemsOnGround: seq<I>)
    | NewPlayer(player: Player)
    | PlayerMoved(player: Player)
    | PlayerShoot(shot: Shot, shooter: string)
    | PlayerReload(reloader: string)
    | PlayerReloadComplete(finisher: string)
    | PlayerDead(killerId: string, victim: Player, killerName: string)
    | PlayerPickupItem(itemId: int)
    | PlayerDisconnected(leaver: string)
    | RenameReply(success: bool, message: Option<string>)

  /** Who receives a message: the sender's socket (`socket.emit`), every other socket
      (`socket.broadcast.emit`), every socket (`io.emit`), or the acknowledgement
      callback of the request being handled. */
  datatype Target = ToSender | AllButSender | Everyone | Callback

  datatype Outbound<I> = Outbound(target: Target, message: Message<I>)

  /** The session registry and the ground-item pool. */
  datatype State<I> = State(players: map<string, Player>, itemsOnGround: seq<I>)

  datatype Transition<I> = Transition(state: State<I>, out: seq<Outbound<I>>)

  /** The sessions other than `id` are the same in both registries. */
  ghost predicate OthersUnchanged(before: map<string, Player>, after: map<string, Player>, id: string) {
    && after.Keys - {id} == before.Keys - {id}
    && forall k :: k in before && k != id ==> k in after && after[k] == before[k]
  }

  /** No two sessions carry the same name. */
  ghost predicate NamesDistinct(players: map<string, Player>) {
    forall a, b :: a in players && b in players && a != b ==> players[a].name != players[b].name
  }

  /** Whether some session already carries `name`. */
  predicate NameTaken(players: map<string, Player>, name: string) {
    exists id :: id in players && players[id].name == name
  }

  /** The placeholder name a fresh session receives. */
  function DefaultName(id: string): string {
    "Игрок " + id
  }

  /** `connection`: register a session keyed by the socket id at a random position,
      send the full snapshot to the new socket and announce it to the others. */
  function Connect<I>(s: State<I>, sender: string, spawn: Random.PointDraw): (r: Transition<I>)
    ensures r.state.players.Keys == s.players.Keys + {sender}
    ensures OthersUnchanged(s.players, r.state.players, sender)
    ensures var p := r.state.players[sender];
      && p.id == sender && p.name == DefaultName(sender) && p.kills == 0 && p.deaths == 0
      && 0.0 <= p.x <= 1280.0 && 0.0 <= p.y <= 720.0
      && p.rotation.None? && p.isReloading.None?
    ensures r.state.itemsOnGround == s.itemsOnGround
    ensures |r.out| == 2
    ensures r.out[0].target == ToSender && r.out[0].message.Init?
    ensures r.out[0].message.players.Keys == s.players.Keys + {sender}
    ensures r.out[0].message.players == r.state.players
    ensures r.out[0].message.itemsOnGround == s.itemsOnGround
    ensures r.out[1] == Outbound(AllButSender, NewPlayer(r.state.players[sender]))
  {
    var pos := Random.DefaultPosition(spawn);
    var newcomer := Player(sender, DefaultName(sender), pos.x as real, pos.y as real, None, None, 0, 0);
    var players := s.players[sender := newcomer];
    Transition(State(players, s.itemsOnGround),
      [Outbound(ToSender, Init(players, s.itemsOnGround)), Outbound(AllButSender, NewPlayer(newcomer))])
  }

  /** `playerMovement`: spread the reported movement over the sender's session and echo
      it to everyone else; a sender without a session is ignored. */
  function Move<I>(s: State<I>, sender: string, data: Movement): (r: Transition<I>)
    ensures sender !in s.players ==> r == Transition(s, [])
    ensures sender in s.players ==>
      && r.state.players.Keys == s.players.Keys
      && OthersUnchanged(s.players, r.state.players, sender)
      && r.state.itemsOnGround == s.itemsOnGround
      && var before, after := s.players[sender], r.state.players[sender];
      && after.id == before.id && after.name == before.name
      && after.kills == before.kills && after.deaths == before.deaths
      && after.x == data.x && after.y == data.y
      && after.rotation == Some(data.rotation) && after.isReloading == Some(data.isReloading)
      && r.out == [Outbound(AllButSender, PlayerMoved(after))]
  {
    if sender !in s.players then Transition(s, [])
    else
      var moved := s.players[sender].(x := data.x, y := data.y,
        rotation := Some(data.rotation), isReloading := Some(data.isReloading));
      Transition(s.(players := s.players[sender := moved]), [Outbound(AllButSender, PlayerMoved(moved))])
  }

  /** `playerShoot`, `playerReload` and `playerReloadComplete`: relayed to every socket,
      the sender included, without looking at or touching the state. */
  function Shoot<I>(s: State<I>, sender: string, data: Shot): (r: Transition<I>)
    ensures r.state == s && r.out == [Outbound(Everyone, PlayerShoot(data, sender))]
  {
    Transition(s, [Outbound(Everyone, PlayerShoot(data, sender))])
  }

  function Reload<I>(s: State<I>, sender: string): (r: Transition<I>)
    ensures r.state == s && r.out == [Outbound(Everyone, PlayerReload(sender))]
  {
    Transition(s, [Outbound(Everyone, PlayerReload(sender))])
  }

  function ReloadComplete<I>(s: State<I>, sender: string): (r: Transition<I>)
    ensures r.state == s && r.out == [Outbound(Everyone, PlayerReloadComplete(sender))]
  {
    Transition(s, [Outbound(Everyone, PlayerReloadComplete(sender))])
  }

  /** `playerDead`: the sender dies and respawns; the killer, read back after the
      sender's update, is credited a kill and the death is announced. */
  function Dead<I>(s: State<I>, sender: string, killerId: string, respawn: Random.PointDraw): (r: Transition<I>)
    ensures sender !in s.players ==> r == Transition(s, [])
    ensures sender in s.players ==>
      && r.state.players.Keys == s.players.Keys
      && r.state.itemsOnGround == s.itemsOnGround
      && (forall k :: k in s.players && k != sender && k != killerId ==> r.state.players[k] == s.players[k])
      && (var p, q := s.players[sender], r.state.players[sender];
          q == p.(deaths := p.deaths + 1, x := q.x, y := q.y,
                  kills := if killerId == sender then p.kills + 1 else p.kills)
          && 0.0 <= q.x <= 1280.0 && 0.0 <= q.y <= 720.0)
      && (killerId in s.players && killerId != sender ==>
            r.state.players[killerId] == s.players[killerId].(kills := s.players[killerId].kills + 1))
      && (killerId !in s.players ==> r.out == [])
      && (killerId in s.players ==>
            r.out == [Outbound(Everyone, PlayerDead(killerId, r.state.players[sender], s.players[killerId].name))])
  {
    if sender !in s.players then Transition(s, [])
    else
      var player := s.players[sender];
      var pos := Random.DefaultPosition(respawn);
      var players := s.players[sender := player.(deaths := player.deaths + 1, x := pos.x as real, y := pos.y as real)];
      if killerId !in players then Transition(State(players, s.itemsOnGround), [])
      else
        var killer := players[killerId];
        var players' := players[killerId := killer.(kills := killer.kills + 1)];
        Transition(State(players', s.itemsOnGround),
          [Outbound(Everyone, PlayerDead(killerId, players'[sender], killer.name))])
  }

  /** A session that kills itself is charged the death and credited the kill. */
  lemma SelfKill<I>(s: State<I>, sender: string, respawn: Random.PointDraw)
    requires sender in s.players
    ensures var p := Dead(s, sender, sender, respawn).state.players[sender];
      p.deaths == s.players[sender].deaths + 1 && p.kills == s.players[sender].kills + 1
    ensures Dead(s, sender, sender, respawn).out[0].message.victim.kills == s.players[sender].kills + 1
  {
  }

  /** Position of the first item whose id is `itemId` (`Array.prototype.find` followed
      by `indexOf` of the found element). */
  function FirstIndex<I>(items: seq<I>, itemId: int, idOf: I -> Option<int>): (r: Option<nat>)
    ensures r.Some? ==>
      && r.value < |items| && idOf(items[r.value]) == Some(itemId)
      && forall j :: 0 <= j < r.value ==> idOf(items[j]) != Some(itemId)
    ensures r.None? ==> forall j :: 0 <= j < |items| ==> idOf(items[j]) != Some(itemId)
  {
    if items == [] then None
    else if idOf(items[0]) == Some(itemId) then Some(0)
    else
      match FirstIndex(items[1..], itemId, idOf)
      case None => None
      case Some(k) => Some(k + 1)
  }

  /** `playerPickupItem`: take the first item with that id off the ground and tell every
      socket; an unknown id or a sender without a session changes nothing. */
  function Pickup<I>(s: State<I>, sender: string, itemId: int, idOf: I -> Option<int>): (r: Transition<I>)
    ensures r.state.players == s.players
    ensures (sender !in s.players || FirstIndex(s.itemsOnGround, itemId, idOf).None?) ==> r == Transition(s, [])
    ensures sender in s.players && FirstIndex(s.itemsOnGround, itemId, idOf).Some? ==>
      var k := FirstIndex(s.itemsOnGround, itemId, idOf).value;
      && r.state.itemsOnGround == s.itemsOnGround[..k] + s.itemsOnGround[k + 1..]
      && r.out == [Outbound(Everyone, PlayerPickupItem(itemId))]
  {
    if sender !in s.players then Transition(s, [])
    else match FirstIndex(s.itemsOnGround, itemId, idOf)
      case None => Transition(s, [])
      case Some(k) =>
        Transition(s.(itemsOnGround := s.itemsOnGround[..k] + s.itemsOnGround[k + 1..]),
          [Outbound(Everyone, PlayerPickupItem(itemId))])
  }

  /** How many items on the ground carry `itemId`. */
  function CountId<I>(items: seq<I>, itemId: int, idOf: I -> Option<int>): nat
  {
    if items == [] then 0
    else (if idOf(items[0]) == Some(itemId) then 1 else 0) + CountId(items[1..], itemId, idOf)
  }

  /** No two items on the ground carry the same id. */
  ghost predicate IdsDistinct<I>(items: seq<I>, idOf: I -> Option<int>) {
    forall i, j :: 0 <= i < j < |items| && idOf(items[i]).Some? ==> idOf(items[i]) != idOf(items[j])
  }

  lemma {:induction false} CountIdAppend<I>(a: seq<I>, b: seq<I>, itemId: int, idOf: I -> Option<int>)
    ensures CountId(a + b, itemId, idOf) == CountId(a, itemId, idOf) + CountId(b, itemId, idOf)
  {
    if a != [] {
      assert (a + b)[1..] == a[1..] + b;
      CountIdAppend(a[1..], b, itemId, idOf);
    } else {
      assert a + b == b;
    }
  }

  /** A successful pickup removes exactly one item: one fewer item with the picked id,
      as many as before with any other id, and the remaining items in their order. */
  lemma {:induction false} PickupRemovesExactlyOne<I>(s: State<I>, sender: string, itemId: int, idOf: I -> Option<int>, other: int)
    requires sender in s.players && FirstIndex(s.itemsOnGround, itemId, idOf).Some?
    ensures |Pickup(s, sender, itemId, idOf).state.itemsOnGround| == |s.itemsOnGround| - 1
    ensures CountId(Pickup(s, sender, itemId, idOf).state.itemsOnGround, itemId, idOf) + 1
         == CountId(s.itemsOnGround, itemId, idOf)
    ensures other != itemId ==>
      CountId(Pickup(s, sender, itemId, idOf).state.itemsOnGround, other, idOf) == CountId(s.itemsOnGround, other, idOf)
    ensures multiset(Pickup(s, sender, itemId, idOf).state.itemsOnGround) <= multiset(s.itemsOnGround)
  {
    var items := s.itemsOnGround;
    var k := FirstIndex(items, itemId, idOf).value;
    assert items == items[..k] + [items[k]] + items[k + 1..];
    CountIdAppend(items[..k] + [items[k]], items[k + 1..], itemId, idOf);
    CountIdAppend(items[..k], [items[k]], itemId, idOf);
    CountIdAppend(items[..k], items[k + 1..], itemId, idOf);
    CountIdAppend(items[..k] + [items[k]], items[k + 1..], other, idOf);
    CountIdAppend(items[..k], [items[k]], other, idOf);
    CountIdAppend(items[..k], items[k + 1..], other, idOf);
  }

  /** With distinct ids on the ground, a picked-up id is gone: a second pickup of it
      changes nothing and emits nothing, and the ids stay distinct. */
  lemma PickupTwice<I>(s: State<I>, sender: string, sender': string, itemId: int, idOf: I -> Option<int>)
    requires IdsDistinct(s.itemsOnGround, idOf)
    ensures IdsDistinct(Pickup(s, sender, itemId, idOf).state.itemsOnGround, idOf)
    ensures var first := Pickup(s, sender, itemId, idOf);
      first.out != [] ==> Pickup(first.state, sender', itemId, idOf) == Transition(first.state, [])
  {
    var items := s.itemsOnGround;
    var first := Pickup(s, sender, itemId, idOf);
    if first.out != [] {
      var k := FirstIndex(items, itemId, idOf).value;
      var rest := first.state.itemsOnGround;
      assert rest == items[..k] + items[k + 1..];
      forall j | 0 <= j < |rest| ensures idOf(rest[j]) != Some(itemId) {
        if j < k { assert rest[j] == items[j]; } else { assert rest[j] == items[j + 1]; }
      }
      forall i, j | 0 <= i < j < |rest| && idOf(rest[i]).Some? ensures idOf(rest[i]) != idOf(rest[j]) {
        var i' := if i < k then i else i + 1;
        var j' := if j < k then j else j + 1;
        assert rest[i] == items[i'] && rest[j] == items[j'];
      }
    }
  }

  /** `disconnect`: drop the sender's session and tell every other socket. The
      announcement goes out whether or not a session was registered. */
  function Disconnect<I>(s: State<I>, sender: string): (r: Transition<I>)
    ensures r.state.players.Keys == s.players.Keys - {sender}
    ensures OthersUnchanged(s.players, r.state.players, sender)
    ensures r.state.itemsOnGround == s.itemsOnGround
    ensures r.out == [Outbound(AllButSender, PlayerDisconnected(sender))]
  {
    Transition(s.(players := s.players - {sender}), [Outbound(AllButSender, PlayerDisconnected(sender))])
  }

  /** The events a socket delivers, with the draws their handlers make. */
  datatype Event =
    | OnConnect(spawn: Random.PointDraw)
    | OnMovement(data: Movement)
    | OnShoot(shot: Shot)
    | OnReload
    | OnReloadComplete
    | OnDead(killerId: string, respawn: Random.PointDraw)
    | OnRename(newName: string)
    | OnPickupItem(itemId: int)
    | OnDisconnect


  /** The events a client sends to the server, as the client code emits them. */
  datatype Request =
    | SendMovement(movement: Movement)
    | SendShoot(shot: Shot)
    | SendReload(startTime: real, endTime: real)
    | SendReloadComplete
    | SendDead(killerId: string)
    | SendPickup(itemId: int)
    | SendRename(newName: string)
}
