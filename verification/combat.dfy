/** The ammunition state machine shared by the player entity (client/src/entities/Player.ts)
    and the older player controller (client/src/player-controller.ts): both decide a tick's
    action the same way and differ only in their constants and in what firing checks. */
module Combat {

  /** `InputData`: the movement axes and the held keys of one frame. */
  datatype Input = Input(x: real, y: real, fire: bool, reload: bool, slot1: bool, slot2: bool, slot3: bool, pickup: bool)

  /** The weapon fields: `time`, `lastFired`, `fireRate` and `reloadTime` are milliseconds. */
  datatype Gun = Gun(ammo: int, maxAmmo: int, lastFired: real, fireRate: real, reloadTime: real, isReloading: bool)

  /** The magazine holds between none and `maxAmmo` rounds. */
  predicate Sound(g: Gun) {
    0 <= g.ammo <= g.maxAmmo
  }

  /** What `shooting(input, time)` does this tick. */
  datatype Action = Hold | BeginReload | Shoot

  /** `shooting`: nothing while reloading; a reload when asked for and the magazine is
      not full, which also suppresses firing; otherwise a shot when the fire key is held,
      a round is left and strictly more than `fireRate` has passed since the last shot. */
  function Decide(g: Gun, input: Input, time: real): (a: Action)
    ensures g.isReloading ==> a == Hold
    ensures a == BeginReload <==> !g.isReloading && input.reload && g.ammo < g.maxAmmo
    ensures a == Shoot <==>
      && !g.isReloading && !(input.reload && g.ammo < g.maxAmmo)
      && input.fire && g.ammo > 0 && time > g.lastFired + g.fireRate
  {
    if g.isReloading then Hold
    else if input.reload && g.ammo < g.maxAmmo then BeginReload
    else if input.fire && g.ammo > 0 && time > g.lastFired + g.fireRate then Shoot
    else Hold
  }

  /** `fire(time)` on the weapon: one round fewer, and the shot's time recorded. */
  function Fire(g: Gun, time: real): (r: Gun)
    ensures r.ammo == g.ammo - 1 && r.lastFired == time
    ensures r.(ammo := g.ammo, lastFired := g.lastFired) == g
  {
    g.(lastFired := time, ammo := g.ammo - 1)
  }

  /** `startReload`: the reloading flag goes up; the magazine refills only when the
      delayed completion runs. */
  function StartReload(g: Gun): (r: Gun)
    ensures r.isReloading && r.(isReloading := g.isReloading) == g
  {
    g.(isReloading := true)
  }

  /** The delayed completion of `startReload`: a full magazine and the flag down. */
  function FinishReload(g: Gun): (r: Gun)
    ensures r.ammo == r.maxAmmo == g.maxAmmo && !r.isReloading
    ensures r.lastFired == g.lastFired && r.fireRate == g.fireRate && r.reloadTime == g.reloadTime
  {
    g.(ammo := g.maxAmmo, isReloading := false)
  }

  /** A shot is only decided with a round in the magazine, so firing never leaves it
      negative, and no step overfills it. */
  lemma DecisionsKeepSound(g: Gun, input: Input, time: real)
    requires Sound(g)
    ensures Decide(g, input, time) == Shoot ==> Sound(Fire(g, time))
    ensures Sound(StartReload(g))
    ensures g.maxAmmo >= 0 ==> Sound(FinishReload(g))
  {
  }

  /** `movement(input)`: the position moves by input times speed, but only when an
      axis is non-zero. */
  function MoveBy(x: real, y: real, input: Input, speed: real): (p: (real, real))
    ensures input.x == 0.0 && input.y == 0.0 ==> p == (x, y)
    ensures p.0 - x == input.x * speed && p.1 - y == input.y * speed
  {
    if input.x != 0.0 || input.y != 0.0 then (x + input.x * speed, y + input.y * speed) else (x, y)
  }
}
