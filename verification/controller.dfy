/** The older keyboard controller (client/src/player-controller.ts): the same ammunition
    machine as the player entity with a faster walk (3 per frame), a slower trigger
    (500 ms between shots) and no check that the socket has an id before firing. The
    rectangle it drives and its bullet sprites, which only draw and expire after 1500 ms,
    are not part of this model. */
module Controllers {
  import Combat
  import opened Protocol

  datatype Controller = Controller(x: real, y: real, rotation: real, speed: real, gun: Combat.Gun, reloadTextVisible: bool)

  datatype Tick = Tick(controller: Controller, sent: seq<Request>)

  /** The field initialisers and the constructor's `setAmmo(10)`. */
  function New(x: real, y: real): (c: Controller)
    ensures c.x == x && c.y == y && c.speed == 3.0
    ensures c.gun.ammo == c.gun.maxAmmo == 10 && c.gun.fireRate == 500.0 && c.gun.reloadTime == 2000.0
    ensures !c.gun.isReloading && Combat.Sound(c.gun)
  {
    Controller(x, y, 0.0, 3.0, Combat.Gun(10, 10, 0.0, 500.0, 2000.0, false), false)
  }

  /** `movement(input)`: move by input times speed, then always report the position. */
  function Movement(c: Controller, input: Combat.Input): (t: Tick)
    ensures t.controller.(x := c.x, y := c.y) == c
    ensures t.controller.x == c.x + input.x * c.speed && t.controller.y == c.y + input.y * c.speed
    ensures t.sent == [SendMovement(Protocol.Movement(t.controller.x, t.controller.y, c.rotation, c.gun.isReloading))]
  {
    var (x, y) := Combat.MoveBy(c.x, c.y, input, c.speed);
    Tick(c.(x := x, y := y), [SendMovement(Protocol.Movement(x, y, c.rotation, c.gun.isReloading))])
  }

  /** `shooting(input, time)` with `fire` and `startReload` inlined: every decided shot
      is fired and reported. */
  function Shooting(c: Controller, input: Combat.Input, time: real): (t: Tick)
    ensures Combat.Decide(c.gun, input, time) == Combat.Hold ==> t == Tick(c, [])
    ensures Combat.Decide(c.gun, input, time) == Combat.BeginReload ==>
      && t.controller == c.(gun := Combat.StartReload(c.gun), reloadTextVisible := true)
      && t.sent == [SendReload(time, time + c.gun.reloadTime)]
    ensures Combat.Decide(c.gun, input, time) == Combat.Shoot ==>
      && t.controller == c.(gun := Combat.Fire(c.gun, time))
      && t.sent == [SendShoot(Shot(c.x, c.y, c.rotation, c.gun.ammo - 1))]
  {
    match Combat.Decide(c.gun, input, time)
    case Hold => Tick(c, [])
    case BeginReload =>
      Tick(c.(gun := Combat.StartReload(c.gun), reloadTextVisible := true), [SendReload(time, time + c.gun.reloadTime)])
    case Shoot =>
      var gun := Combat.Fire(c.gun, time);
      Tick(c.(gun := gun), [SendShoot(Shot(c.x, c.y, c.rotation, gun.ammo))])
  }

  /** The delayed completion of a reload. */
  function ReloadComplete(c: Controller): (t: Tick)
    ensures t.controller.gun.ammo == c.gun.maxAmmo && !t.controller.gun.isReloading && !t.controller.reloadTextVisible
    ensures t.controller.(gun := c.gun, reloadTextVisible := c.reloadTextVisible) == c
    ensures t.controller.gun.(ammo := c.gun.ammo, isReloading := c.gun.isReloading) == c.gun
    ensures t.sent == [SendReloadComplete]
  {
    Tick(c.(gun := Combat.FinishReload(c.gun), reloadTextVisible := false), [SendReloadComplete])
  }

  /** `update(input, pointer, time)` without the rotation towards the pointer: movement,
      then shooting; the reports of both, in that order. */
  function Update(c: Controller, input: Combat.Input, time: real): (t: Tick)
    ensures |t.sent| >= 1 && t.sent[0].SendMovement?
    ensures t.controller.gun.ammo < c.gun.ammo ==> t.controller.gun.ammo == c.gun.ammo - 1 && t.controller.gun.lastFired == time
  {
    var m := Movement(c, input);
    var s := Shooting(m.controller, input, time);
    Tick(s.controller, m.sent + s.sent)
  }

  /** The frames and timers the controller goes through. */
  datatype Occurrence = Frame(input: Combat.Input, time: real) | ReloadTimer

  function Run(c: Controller, os: seq<Occurrence>): Tick
    decreases |os|
  {
    if os == [] then Tick(c, [])
    else
      var t := match os[0]
        case Frame(input, time) => Update(c, input, time)
        case ReloadTimer => ReloadComplete(c);
      var rest := Run(t.controller, os[1..]);
      Tick(rest.controller, t.sent + rest.sent)
  }

  /** Count of the shot reports in a sequence of messages. */
  function Shots(sent: seq<Request>): nat {
    if sent == [] then 0 else (if sent[0].SendShoot? then 1 else 0) + Shots(sent[1..])
  }

  lemma {:induction false} ShotsAppend(a: seq<Request>, b: seq<Request>)
    ensures Shots(a + b) == Shots(a) + Shots(b)
    decreases |a|
  {
    if a == [] {
      assert a + b == b;
    } else {
      assert (a + b)[1..] == a[1..] + b;
      ShotsAppend(a[1..], b);
    }
  }

  /** The magazine stays within [0, maxAmmo] and no report of a shot is sent without a
      round spent: over any run without a reload completion, the rounds fired equal the
      rounds lost. */
  lemma {:induction false} ShotsSpendRounds(c: Controller, os: seq<Occurrence>)
    requires Combat.Sound(c.gun)
    requires forall i :: 0 <= i < |os| ==> os[i].Frame?
    ensures Combat.Sound(Run(c, os).controller.gun)
    ensures Run(c, os).controller.gun.maxAmmo == c.gun.maxAmmo
    ensures Shots(Run(c, os).sent) == c.gun.ammo - Run(c, os).controller.gun.ammo
    decreases |os|
  {
    if os != [] {
      var m := Movement(c, os[0].input);
      var s := Shooting(m.controller, os[0].input, os[0].time);
      var t := Update(c, os[0].input, os[0].time);
      Combat.DecisionsKeepSound(m.controller.gun, os[0].input, os[0].time);
      assert Shots(m.sent) == 0;
      assert Shots(s.sent) == c.gun.ammo - t.controller.gun.ammo by {
        match Combat.Decide(m.controller.gun, os[0].input, os[0].time) {
          case Hold =>
          case BeginReload =>
          case Shoot => assert Shots(s.sent) == 1 + Shots([]);
        }
      }
      ShotsAppend(m.sent, s.sent);
      ShotsSpendRounds(t.controller, os[1..]);
      ShotsAppend(t.sent, Run(t.controller, os[1..]).sent);
    }
  }
}
