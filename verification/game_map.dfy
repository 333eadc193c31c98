/** The client's world registry (client/src/entities/GameMap.ts): three keyed registries,
    bullets by shooter id, players by session id and ground items by item id. Every
    player entity shares the player store's one inventory, so the registry carries it
    beside the players. Each registry's Phaser group destroys its members when the
    registry is cleared, and destroying a player entity empties that inventory; the
    group can also hold player entities that `add` displaced from the record, which
    `displaced` counts. */
module GameMaps {
  import opened Wrappers
  import Catalog
  import Inventories
  import Fighters
  import opened ObjectMaps

  /** A bullet in flight: its shooter and where and in which direction it was fired. */
  datatype Bullet = Bullet(ownerId: string, x: real, y: real, rotation: real)

  datatype GameMap = GameMap(
    bullets: ObjectMap<string, Bullet>,
    players: ObjectMap<string, Fighters.Fighter>,
    itemsOnGround: ObjectMap<int, Catalog.Item>,
    inventory: Inventories.Inventory,
    displaced: nat)

  /** No registry stores a key twice. */
  ghost predicate Valid(gm: GameMap) {
    ObjectMaps.Valid(gm.bullets) && ObjectMaps.Valid(gm.players) && ObjectMaps.Valid(gm.itemsOnGround)
  }

  /** The constructor: three empty registries. */
  function New(inventory: Inventories.Inventory): (gm: GameMap)
    ensures Valid(gm) && gm.inventory == inventory && gm.displaced == 0
    ensures Content(gm.bullets) == map[] && Content(gm.players) == map[] && Content(gm.itemsOnGround) == map[]
  {
    GameMap(Empty(), Empty(), Empty(), inventory, 0)
  }

  /** Whether the players' group holds any entity: a registered one or a displaced one. */
  predicate HasPlayerEntities(gm: GameMap) {
    gm.players.entries != [] || gm.displaced > 0
  }

  /** `clear()` (and `destroy()`, which only clears): every registry and group empties.
      `group.clear(true, true)` destroys every player entity in the group, and the first
      destruction empties the shared inventory; with no player entity it is kept. */
  function Clear(gm: GameMap): (r: GameMap)
    ensures Valid(r) && r.displaced == 0
    ensures Content(r.bullets) == map[] && Content(r.players) == map[] && Content(r.itemsOnGround) == map[]
    ensures Content(gm.players) != map[] ==> r.inventory == Inventories.New()
    ensures gm.displaced > 0 ==> r.inventory == Inventories.New()
    ensures Content(gm.players) == map[] && gm.displaced == 0 ==> r.inventory == gm.inventory
  {
    ContentKeys(gm.players);
    assert gm.players.entries != [] ==> gm.players.entries[0].0 in Keys(gm.players);
    GameMap(ObjectMaps.Clear(gm.bullets), ObjectMaps.Clear(gm.players), ObjectMaps.Clear(gm.itemsOnGround),
      if HasPlayerEntities(gm) then Inventories.Clear(gm.inventory) else gm.inventory, 0)
  }

  /** `spawnItem(item)`: the item is registered under its id, replacing an item already
      there. */
  function SpawnItem(gm: GameMap, item: Catalog.Item): (r: GameMap)
    ensures Content(r.itemsOnGround) == Content(gm.itemsOnGround)[item.id := item]
    ensures r.(itemsOnGround := gm.itemsOnGround) == gm
  {
    gm.(itemsOnGround := Add(gm.itemsOnGround, item.id, item))
  }

  /** `addPlayer(playerData)`: a new entity at the reported position, registered under the
      session id and returned. An entity already registered under that id leaves the
      record but stays in the group. */
  function AddPlayer(gm: GameMap, id: string, x: real, y: real): (r: (GameMap, Fighters.Fighter))
    ensures r.1 == Fighters.New(id, x, y, gm.inventory)
    ensures Content(r.0.players) == Content(gm.players)[id := r.1]
    ensures r.0.displaced == if id in Content(gm.players) then gm.displaced + 1 else gm.displaced
    ensures r.0.(players := gm.players, displaced := gm.displaced) == gm
  {
    var p := Fighters.New(id, x, y, gm.inventory);
    (gm.(players := Add(gm.players, id, p), displaced := if Get(gm.players, id).Some? then gm.displaced + 1 else gm.displaced), p)
  }

  /** `removePlayer(playerId)`: nothing for an unknown id; otherwise the entity is
      destroyed, which empties the shared inventory, and unregistered. */
  function RemovePlayer(gm: GameMap, id: string): (r: GameMap)
    ensures id !in Content(gm.players) ==> r == gm
    ensures id in Content(gm.players) ==>
      && Content(r.players) == Content(gm.players) - {id}
      && r.inventory == Inventories.New()
      && r.bullets == gm.bullets && r.itemsOnGround == gm.itemsOnGround && r.displaced == gm.displaced
  {
    match Get(gm.players, id)
    case None => gm
    case Some(p) =>
      var gone := Fighters.Destroy(p.(inventory := gm.inventory));
      gm.(players := Remove(gm.players, id).0, inventory := gone.inventory)
  }

  /** `updatePlayerPosition(data)`: a known player moves and turns; nothing else changes. */
  function UpdatePlayerPosition(gm: GameMap, id: string, x: real, y: real, rotation: real): (r: GameMap)
    ensures id !in Content(gm.players) ==> r == gm
    ensures id in Content(gm.players) ==>
      Content(r.players) == Content(gm.players)[id := Content(gm.players)[id].(x := x, y := y, rotation := rotation)]
    ensures r.(players := gm.players) == gm
  {
    match Get(gm.players, id)
    case None => gm
    case Some(p) => gm.(players := Add(gm.players, id, p.(x := x, y := y, rotation := rotation)))
  }

  /** `addBullet(data)`: the bullet is registered under its shooter's id, so a shooter's
      newer bullet replaces the older one in the registry. */
  function AddBullet(gm: GameMap, shooterId: string, x: real, y: real, rotation: real): (r: GameMap)
    ensures Content(r.bullets) == Content(gm.bullets)[shooterId := Bullet(shooterId, x, y, rotation)]
    ensures r.(bullets := gm.bullets) == gm
  {
    gm.(bullets := Add(gm.bullets, shooterId, Bullet(shooterId, x, y, rotation)))
  }

  /** `setPlayerReloading(playerId, reloading)`: a known player's reload text shows or
      hides. */
  function SetPlayerReloading(gm: GameMap, id: string, reloading: bool): (r: GameMap)
    ensures id !in Content(gm.players) ==> r == gm
    ensures id in Content(gm.players) ==>
      Content(r.players) == Content(gm.players)[id := Content(gm.players)[id].(reloadTextVisible := reloading)]
    ensures r.(players := gm.players) == gm
  {
    match Get(gm.players, id)
    case None => gm
    case Some(p) => gm.(players := Add(gm.players, id, p.(reloadTextVisible := reloading)))
  }

  /** `removeItem(itemId)`: nothing for an unknown id; otherwise the item is
      unregistered. */
  function RemoveItem(gm: GameMap, itemId: int): (r: GameMap)
    ensures Content(r.itemsOnGround) == Content(gm.itemsOnGround) - {itemId}
    ensures itemId !in Content(gm.itemsOnGround) ==> r == gm
    ensures r.(itemsOnGround := gm.itemsOnGround) == gm
  {
    match Get(gm.itemsOnGround, itemId)
    case None => gm
    case Some(_) => gm.(itemsOnGround := Remove(gm.itemsOnGround, itemId).0)
  }

  /** Removing a spawned item restores the ground as it was for every other id. */
  lemma SpawnThenRemove(gm: GameMap, item: Catalog.Item)
    ensures Content(RemoveItem(SpawnItem(gm, item), item.id).itemsOnGround) == Content(gm.itemsOnGround) - {item.id}
    ensures item.id !in Content(gm.itemsOnGround) ==>
      Content(RemoveItem(SpawnItem(gm, item), item.id).itemsOnGround) == Content(gm.itemsOnGround)
  {
  }

  /** Removing any player, the local one or a remote one, empties the inventory all
      entities share. */
  lemma RemovingAnyPlayerEmptiesInventory(gm: GameMap, id: string, x: real, y: real)
    ensures RemovePlayer(AddPlayer(gm, id, x, y).0, id).inventory.items == []
  {
  }

  /** The registry operations the network layer and the scene call. */
  datatype Op =
    | SpawnItemOp(item: Catalog.Item)
    | AddPlayerOp(id: string, x: real, y: real)
    | RemovePlayerOp(id: string)
    | UpdatePositionOp(id: string, x: real, y: real, rotation: real)
    | AddBulletOp(shooterId: string, x: real, y: real, rotation: real)
    | SetReloadingOp(id: string, reloading: bool)
    | RemoveItemOp(itemId: int)
    | ClearOp

  function Apply(gm: GameMap, op: Op): GameMap {
    match op
    case SpawnItemOp(item) => SpawnItem(gm, item)
    case AddPlayerOp(id, x, y) => AddPlayer(gm, id, x, y).0
    case RemovePlayerOp(id) => RemovePlayer(gm, id)
    case UpdatePositionOp(id, x, y, rotation) => UpdatePlayerPosition(gm, id, x, y, rotation)
    case AddBulletOp(shooterId, x, y, rotation) => AddBullet(gm, shooterId, x, y, rotation)
    case SetReloadingOp(id, reloading) => SetPlayerReloading(gm, id, reloading)
    case RemoveItemOp(itemId) => RemoveItem(gm, itemId)
    case ClearOp => Clear(gm)
  }

  function ApplyAll(gm: GameMap, ops: seq<Op>): GameMap
    decreases |ops|
  {
    if ops == [] then gm else ApplyAll(Apply(gm, ops[0]), ops[1..])
  }

  /** One operation keeps every registry free of duplicate keys. */
  lemma ApplyKeepsValid(gm: GameMap, op: Op)
    requires Valid(gm)
    ensures Valid(Apply(gm, op))
  {
    match op {
      case SpawnItemOp(item) => AddThenGet(gm.itemsOnGround, item.id, item, item.id);
      case AddPlayerOp(id, x, y) => AddThenGet(gm.players, id, AddPlayer(gm, id, x, y).1, id);
      case RemovePlayerOp(id) => RemoveThenGet(gm.players, id, id);
      case UpdatePositionOp(id, x, y, rotation) =>
        if id in Content(gm.players) {
          AddThenGet(gm.players, id, Content(gm.players)[id].(x := x, y := y, rotation := rotation), id);
        }
      case AddBulletOp(shooterId, x, y, rotation) =>
        AddThenGet(gm.bullets, shooterId, Bullet(shooterId, x, y, rotation), shooterId);
      case SetReloadingOp(id, reloading) =>
        if id in Content(gm.players) {
          AddThenGet(gm.players, id, Content(gm.players)[id].(reloadTextVisible := reloading), id);
        }
      case RemoveItemOp(itemId) => RemoveThenGet(gm.itemsOnGround, itemId, itemId);
      case ClearOp =>
    }
  }

  /** Any sequence of registry operations keeps every registry free of duplicate keys. */
  lemma {:induction false} ApplyAllKeepsValid(gm: GameMap, ops: seq<Op>)
    requires Valid(gm)
    ensures Valid(ApplyAll(gm, ops))
    decreases |ops|
  {
    if ops != [] {
      ApplyKeepsValid(gm, ops[0]);
      ApplyAllKeepsValid(Apply(gm, ops[0]), ops[1..]);
    }
  }
}
