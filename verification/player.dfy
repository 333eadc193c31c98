/** The player entity of the client (client/src/entities/Player.ts): movement, the
    ammunition machine, weapon slots, bullet hits, item pickups and respawn. The
    entity's `socket.id` is passed in as `socketId`; `health` is the game store's
    health value, which the entity reads and writes. */
module Fighters {
  import opened Wrappers
  import Catalog
  import Inventories
  import Combat
  import opened Protocol

  datatype Fighter = Fighter(
    id: string,
    x: real,
    y: real,
    rotation: real,
    speed: real,
    gun: Combat.Gun,
    activeWeapon: int,
    reloadTextVisible: bool,
    health: int,
    isDead: bool,
    inventory: Inventories.Inventory)

  /** A frame's outcome: the entity afterwards and what it sent to the server. */
  datatype Tick = Tick(fighter: Fighter, sent: seq<Request>)

  /** The constructor with its field initialisers: 10 of 10 rounds, 300 ms between shots,
      2000 ms reloads, weapon slot 0, full health. */
  function New(id: string, x: real, y: real, inventory: Inventories.Inventory): (f: Fighter)
    ensures f.id == id && f.x == x && f.y == y
    ensures f.gun.ammo == f.gun.maxAmmo == 10 && !f.gun.isReloading && f.gun.fireRate == 300.0
    ensures Combat.Sound(f.gun) && !f.isDead && f.health == 100
  {
    Fighter(id, x, y, 0.0, 1.8, Combat.Gun(10, 10, 0.0, 300.0, 2000.0, false), 0, false, 100, false, inventory)
  }

  /** Whether this entity is the one the local socket controls. */
  predicate IsLocal(f: Fighter, socketId: Option<string>) {
    socketId == Some(f.id)
  }

  /** `movement(input)`: move when an axis is non-zero, then always report the position. */
  function Movement(f: Fighter, input: Combat.Input): (t: Tick)
    ensures t.fighter.(x := f.x, y := f.y) == f
    ensures t.fighter.x == f.x + input.x * f.speed && t.fighter.y == f.y + input.y * f.speed
    ensures t.sent == [SendMovement(Protocol.Movement(t.fighter.x, t.fighter.y, f.rotation, f.gun.isReloading))]
  {
    var (x, y) := Combat.MoveBy(f.x, f.y, input, f.speed);
    Tick(f.(x := x, y := y), [SendMovement(Protocol.Movement(x, y, f.rotation, f.gun.isReloading))])
  }

  /** The socket has an id JavaScript counts as truthy: present and not the empty string. */
  predicate HasSocketId(socketId: Option<string>) {
    socketId.Some? && socketId.value != ""
  }

  /** `shooting(input, time)`, with `fire` and `startReload` inlined. Firing does nothing
      while the socket has no id, or an empty one. */
  function Shooting(f: Fighter, input: Combat.Input, time: real, socketId: Option<string>): (t: Tick)
    ensures f.gun.isReloading ==> t == Tick(f, [])
    ensures Combat.Decide(f.gun, input, time) == Combat.BeginReload ==>
      && t.fighter == f.(gun := Combat.StartReload(f.gun), reloadTextVisible := true)
      && t.sent == [SendReload(time, time + f.gun.reloadTime)]
    ensures Combat.Decide(f.gun, input, time) == Combat.Shoot && HasSocketId(socketId) ==>
      && t.fighter.gun.ammo == f.gun.ammo - 1 && t.fighter.gun.lastFired == time
      && t.fighter.(gun := f.gun) == f && t.fighter.gun.(ammo := f.gun.ammo, lastFired := f.gun.lastFired) == f.gun
      && t.sent == [SendShoot(Shot(f.x, f.y, f.rotation, f.gun.ammo - 1))]
    ensures Combat.Decide(f.gun, input, time) != Combat.BeginReload && !(Combat.Decide(f.gun, input, time) == Combat.Shoot && HasSocketId(socketId))
      ==> t == Tick(f, [])
  {
    match Combat.Decide(f.gun, input, time)
    case Hold => Tick(f, [])
    case BeginReload =>
      Tick(f.(gun := Combat.StartReload(f.gun), reloadTextVisible := true), [SendReload(time, time + f.gun.reloadTime)])
    case Shoot =>
      if !HasSocketId(socketId) then Tick(f, [])
      else
        var gun := Combat.Fire(f.gun, time);
        Tick(f.(gun := gun), [SendShoot(Shot(f.x, f.y, f.rotation, gun.ammo))])
  }

  /** The delayed call `startReload` schedules: refill, hide the text, report completion. */
  function ReloadComplete(f: Fighter): (t: Tick)
    ensures t.fighter.gun.ammo == f.gun.maxAmmo && !t.fighter.gun.isReloading && !t.fighter.reloadTextVisible
    ensures t.fighter.(gun := f.gun, reloadTextVisible := f.reloadTextVisible) == f
    ensures t.fighter.gun.(ammo := f.gun.ammo, isReloading := f.gun.isReloading) == f.gun
    ensures t.sent == [SendReloadComplete]
  {
    Tick(f.(gun := Combat.FinishReload(f.gun), reloadTextVisible := false), [SendReloadComplete])
  }

  /** `switchingWeapons(input)`: the slot keys are looked at in order, so the last held wins. */
  function SwitchingWeapons(f: Fighter, input: Combat.Input): (r: Fighter)
    ensures input.slot3 ==> r.activeWeapon == 2
    ensures !input.slot3 && input.slot2 ==> r.activeWeapon == 1
    ensures !input.slot3 && !input.slot2 && input.slot1 ==> r.activeWeapon == 0
    ensures !input.slot1 && !input.slot2 && !input.slot3 ==> r == f
    ensures r.(activeWeapon := f.activeWeapon) == f
  {
    var w := if input.slot1 then 0 else f.activeWeapon;
    var w := if input.slot2 then 1 else w;
    var w := if input.slot3 then 2 else w;
    f.(activeWeapon := w)
  }

  /** The outcome of a bullet overlap: the entity, what it sent, and whether the bullet
      was destroyed. */
  datatype Hit = Hit(fighter: Fighter, sent: seq<Request>, bulletDestroyed: bool)

  /** `onCollideWithBullet(bullet)`: the entity's own bullets pass through; others are
      destroyed, and on the local, living player they deal `damage`. A hit that would not
      leave health above zero kills: health stays as it was and the death is reported
      with the bullet's owner as killer. */
  function OnCollideWithBullet(f: Fighter, ownerId: string, damage: int, socketId: Option<string>): (h: Hit)
    ensures ownerId == f.id ==> h == Hit(f, [], false)
    ensures ownerId != f.id ==> h.bulletDestroyed
    ensures (ownerId == f.id || !IsLocal(f, socketId) || f.isDead) ==> h.fighter == f && h.sent == []
    ensures ownerId != f.id && IsLocal(f, socketId) && !f.isDead ==>
      if f.health - damage > 0 then h.fighter == f.(health := f.health - damage) && h.sent == []
      else h.fighter == f.(isDead := true) && h.sent == [SendDead(ownerId)]
  {
    if ownerId == f.id then Hit(f, [], false)
    else if !IsLocal(f, socketId) || f.isDead then Hit(f, [], true)
    else if f.health - damage > 0 then Hit(f.(health := f.health - damage), [], true)
    else Hit(f.(isDead := true), [SendDead(ownerId)], true)
  }

  /** A dead player reports its death once: every later hit sends nothing. */
  lemma DeathReportedOnce(f: Fighter, hits: seq<(string, int)>, socketId: Option<string>)
    requires f.isDead
    ensures forall i :: 0 <= i < |hits| ==> OnCollideWithBullet(f, hits[i].0, hits[i].1, socketId).sent == []
    ensures forall i :: 0 <= i < |hits| ==> OnCollideWithBullet(f, hits[i].0, hits[i].1, socketId).fighter == f
  {
  }

  /** `onCollideWithItem(groundItem)`: the local player holding the pickup key, with room
      in the inventory, reports the pickup and stores the item. */
  function OnCollideWithItem(f: Fighter, itemId: int, item: Catalog.Item, input: Combat.Input, socketId: Option<string>): (t: Tick)
    ensures IsLocal(f, socketId) && input.pickup && |f.inventory.items| < f.inventory.maxSize ==>
      && t.fighter == f.(inventory := f.inventory.(items := f.inventory.items + [item]))
      && t.sent == [SendPickup(itemId)]
    ensures !(IsLocal(f, socketId) && input.pickup && |f.inventory.items| < f.inventory.maxSize) ==> t == Tick(f, [])
  {
    if !IsLocal(f, socketId) || !input.pickup || |f.inventory.items| >= f.inventory.maxSize then Tick(f, [])
    else Tick(f.(inventory := f.inventory.(items := f.inventory.items + [item])), [SendPickup(itemId)])
  }

  /** Pickups never overfill the inventory. */
  lemma PickupWithinCapacity(f: Fighter, itemId: int, item: Catalog.Item, input: Combat.Input, socketId: Option<string>)
    requires |f.inventory.items| <= f.inventory.maxSize
    ensures var g := OnCollideWithItem(f, itemId, item, input, socketId).fighter;
      |g.inventory.items| <= g.inventory.maxSize && g.inventory.maxSize == f.inventory.maxSize
  {
  }

  /** `respawn(x, y)`: back at the given position, at full health and alive. */
  function Respawn(f: Fighter, x: real, y: real): (r: Fighter)
    ensures r.x == x && r.y == y && r.health == 100 && !r.isDead
    ensures r.(x := f.x, y := f.y, health := f.health, isDead := f.isDead) == f
  {
    f.(x := x, y := y, health := 100, isDead := false)
  }

  /** `destroy()`: the entity empties the inventory it shares with the player store. */
  function Destroy(f: Fighter): (r: Fighter)
    ensures r.inventory == Inventories.New()
    ensures r.(inventory := f.inventory) == f
  {
    f.(inventory := Inventories.Clear(f.inventory))
  }

  /** What can happen to the entity between two observations. */
  datatype Occurrence =
    | Frame(input: Combat.Input, time: real)
    | ReloadTimer
    | BulletHit(ownerId: string, damage: int)
    | ItemTouch(itemId: int, item: Catalog.Item, input: Combat.Input)
    | Respawned(x: real, y: real)

  /** The entity after one occurrence: a frame of the local player runs `update`
      (movement, shooting, weapon switching); remote players ignore input. */
  function Apply(f: Fighter, o: Occurrence, socketId: Option<string>): Fighter
  {
    match o
    case Frame(input, time) =>
      if !IsLocal(f, socketId) then f
      else SwitchingWeapons(Shooting(Movement(f, input).fighter, input, time, socketId).fighter, input)
    case ReloadTimer => ReloadComplete(f).fighter
    case BulletHit(ownerId, damage) => OnCollideWithBullet(f, ownerId, damage, socketId).fighter
    case ItemTouch(itemId, item, input) => OnCollideWithItem(f, itemId, item, input, socketId).fighter
    case Respawned(x, y) => Respawn(f, x, y)
  }

  function ApplyAll(f: Fighter, os: seq<Occurrence>, socketId: Option<string>): Fighter
    decreases |os|
  {
    if os == [] then f else ApplyAll(Apply(f, os[0], socketId), os[1..], socketId)
  }

  /** The entity's invariants: the magazine within [0, maxAmmo] and the inventory within
      its capacity. */
  ghost predicate Invariant(f: Fighter) {
    Combat.Sound(f.gun) && |f.inventory.items| <= f.inventory.maxSize
  }

  /** Starting from a fresh entity with a cleared inventory, no sequence of frames, timers,
      hits, pickups and respawns takes the ammunition out of [0, 10] or overfills the
      inventory. */
  lemma {:induction false} InvariantHolds(f: Fighter, os: seq<Occurrence>, socketId: Option<string>)
    requires Invariant(f) && f.gun.maxAmmo >= 0
    ensures Invariant(ApplyAll(f, os, socketId))
    ensures ApplyAll(f, os, socketId).gun.maxAmmo == f.gun.maxAmmo
    decreases |os|
  {
    if os != [] {
      var g := Apply(f, os[0], socketId);
      match os[0] {
        case Frame(input, time) =>
          if IsLocal(f, socketId) {
            var m := Movement(f, input).fighter;
            Combat.DecisionsKeepSound(m.gun, input, time);
          }
        case ItemTouch(itemId, item, input) => PickupWithinCapacity(f, itemId, item, input, socketId);
        case _ =>
      }
      assert Invariant(g) && g.gun.maxAmmo == f.gun.maxAmmo;
      InvariantHolds(g, os[1..], socketId);
    }
  }

  lemma NewSatisfiesInvariant(id: string, x: real, y: real)
    ensures Invariant(New(id, x, y, Inventories.New()))
  {
  }
}
