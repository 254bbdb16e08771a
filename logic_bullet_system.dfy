/** `BulletSystem` and `BulletCollisionSystem`: firing bullets into a
    queue, moving the bullets on the grid each tick, and resolving what
    they run into. */
module LogicBulletSystem {
  import opened Wrappers
  import opened LogicDirections
  import opened LogicStun
  import opened LogicTanks
  import opened LogicHeal
  import opened LogicScore
  import opened LogicBullets
  import opened LogicGrid
  import opened LogicCollision
  import opened LogicDamage

  /** The speed and damage of a fired bullet; a double bullet deals
      twice the damage. */
  const BulletSpeed: real := 2.0
  const BulletDamage := 20
  const DoubleBulletDamage := 2 * BulletDamage
  /** What a healing bullet heals (STEREO builds). */
  const HealingAmount := 20
  /** How long a stun bullet stuns (STEREO builds). */
  const StunBulletTicks := 10

  /** The first bullet with the given id: the one `List.Remove` and
      `List.Contains` find, bullets comparing by id. */
  function IndexOfId(bs: seq<Bullet>, id: int): (r: Option<nat>)
    ensures r.Some? ==> r.value < |bs| && bs[r.value].id == id && forall k :: 0 <= k < r.value ==> bs[k].id != id
    ensures r.None? ==> forall k :: 0 <= k < |bs| ==> bs[k].id != id
  {
    if |bs| == 0 then None
    else if bs[0].id == id then Some(0)
    else match IndexOfId(bs[1..], id)
      case None => None
      case Some(k) => Some(k + 1)
  }

  /** `List.Remove`: the first bullet with the id goes; without one the
      list is unchanged. No bullet comes from elsewhere. */
  function Without(bs: seq<Bullet>, id: int): (r: seq<Bullet>)
    ensures IndexOfId(bs, id).Some? ==> |r| == |bs| - 1
    ensures IndexOfId(bs, id).None? ==> r == bs
    ensures forall n :: n in r ==> n in bs
  {
    if |bs| == 0 then []
    else if bs[0].id == id then bs[1..]
    else [bs[0]] + Without(bs[1..], id)
  }

  /** `Without` takes out exactly the first bullet with the id, and the
      others keep their order. */
  lemma {:induction false} WithoutFirst(bs: seq<Bullet>, id: int)
    requires IndexOfId(bs, id).Some?
    ensures var k := IndexOfId(bs, id).value; Without(bs, id) == bs[..k] + bs[k + 1..]
  {
    if bs[0].id != id {
      WithoutFirst(bs[1..], id);
      var k := IndexOfId(bs, id).value;
      assert bs[..k] + bs[k + 1..] == [bs[0]] + (bs[1..][..k - 1] + bs[1..][k..]);
    }
  }

  /** C#'s `n / 2`, which truncates toward zero. */
  function Halved(n: int): (r: int)
    ensures n >= 0 ==> 0 <= 2 * r <= n < 2 * r + 2
    ensures n < 0 ==> 2 * r - 2 < n <= 2 * r <= 0
  {
    if n >= 0 then n / 2 else -((-n) / 2)
  }

  /** What a stun bullet blocks, by the type of the shooter's tank. */
  function StunEffect(t: TankType): (b: Block)
    ensures |b| == 1 && b <= All
  {
    match t
    case Heavy => {Movement}
    case Light => {AbilityUse}
  }

  /** Bullets that deal damage. */
  predicate Harmful(b: Bullet) {
    b.kind == Basic || b.kind == Double
  }

  /** The bullet's shooter, as a frame. */
  function ShooterOf(b: Bullet): set<Player>
    reads b`shooter
  {
    if b.shooter == null then {} else {b.shooter}
  }

  /** The tank of a collision, as a frame. */
  function TankOf(c: Collision): set<Tank> {
    if c.TankHit? then {c.tank} else {}
  }

  class BulletCollisionSystem {
    const grid: Grid
    const damage: DamageSystem
    const heal: HealSystem
    const score: ScoreSystem
    const stun: StunSystem
    /** The bullets' shared id counter. */
    const ids: BulletIds

    constructor (grid: Grid, damage: DamageSystem, heal: HealSystem, score: ScoreSystem, stun: StunSystem,
                 ids: BulletIds)
      ensures this.grid == grid && this.damage == damage && this.heal == heal && this.score == score
      ensures this.stun == stun && this.ids == ids
    {
      this.grid := grid;
      this.damage := damage;
      this.heal := heal;
      this.score := score;
      this.stun := stun;
      this.ids := ids;
    }

    /** Bullets `a` and `b` have met: both leave the list; when exactly
        one of them is a double bullet, a fresh basic bullet with half its
        damage, at its cell and with its direction, speed and shooter, is
        appended, unless that bullet has no damage or no shooter, which
        throws. */
    twostate predicate Replaced(a: Bullet, new b: Bullet, o: Outcome)
      reads *
    {
      var rest := Without(Without(old(grid.bullets), a.id), b.id);
      var d := if a.kind == Double then a else b;
      if (a.kind == Double) == (b.kind == Double) then o == Pass && grid.bullets == rest
      else if d.damage.None? then o == Throw(InvalidOperation) && grid.bullets == rest
      else if d.shooter == null then o == Throw(NullReference) && grid.bullets == rest
      else
        o == Pass && |grid.bullets| == |rest| + 1 && grid.bullets[..|rest|] == rest &&
        var n := grid.bullets[|rest|];
        fresh(n) && n.kind == Basic && n.X() == d.X() && n.Y() == d.Y() && n.direction == d.direction &&
        n.speed == d.speed && n.damage == Some(Halved(d.damage.value)) && n.shooter == d.shooter
    }

    /** `ResolveBulletVsBullet`: both bullets go; when exactly one of them
        is a double bullet, a basic bullet with half its damage takes its
        place, cell, direction, speed and shooter. */
    method ResolveBulletVsBullet(a: Bullet, b: Bullet) returns (o: Outcome)
      modifies grid`bullets, ids
      ensures Replaced(a, b, o)
    {
      grid.bullets := Without(grid.bullets, a.id);
      grid.bullets := Without(grid.bullets, b.id);
      if (a.kind == Double) == (b.kind == Double) {
        return Pass;
      }
      var d := if a.kind == Double then a else b;
      if d.damage.None? {
        return Throw(InvalidOperation);
      }
      if d.shooter == null {
        return Throw(NullReference);
      }
      var n := new Bullet.Fired(ids, d.X(), d.Y(), d.direction, Basic, d.speed, Halved(d.damage.value), d.shooter);
      grid.bullets := grid.bullets + [n];
      return Pass;
    }

    /** The damage the hit asks for, as the damage system receives it. */
    function RequestFor(bullet: Bullet, tank: Tank): DamageRequest
      reads bullet`shooter
    {
      DamageRequest(tank.ownerId, if bullet.damage.Some? then bullet.damage.value else 0, IdOf(bullet.shooter))
    }

    /** What the damage system reports as dealt by the hit, given `n`
        earlier requests: nothing for bullets that do no damage. */
    function Dealt(bullet: Bullet, tank: Tank, n: nat): int
      reads bullet`shooter
    {
      if Harmful(bullet) && bullet.damage.Some? then damage.Reported(n, RequestFor(bullet, tank)) else 0
    }

    /** The effect of the hit by type: damage for basic and double
        bullets, and in STEREO builds healing for healing bullets and a
        stun, by the shooter's tank type, for stun bullets. */
    method ApplyHit(bullet: Bullet, tank: Tank) returns (o: Outcome, dealt: int)
      requires stun.Valid()
      modifies damage`requests, tank`health, stun
      ensures stun.Valid()
      ensures dealt == Dealt(bullet, tank, |old(damage.requests)|)
      ensures o.Throw? ==> dealt == 0
      ensures Harmful(bullet) && bullet.damage.None? ==> o == Throw(InvalidOperation)
      ensures damage.requests == if Harmful(bullet) && bullet.damage.Some? then old(damage.requests) + [RequestFor(bullet, tank)]
                                 else old(damage.requests)
      ensures bullet.kind == Healing && score.stereo && !old(tank.IsDead()) && old(tank.health).Some? ==>
        tank.health == Some(Clamp(old(tank.health).value + HealingAmount, 0, HealthMax))
      ensures !(bullet.kind == Healing && score.stereo && !old(tank.IsDead()) && old(tank.health).Some?) ==>
        tank.health == old(tank.health)
      ensures bullet.kind == Stun && score.stereo && (bullet.shooter == null || bullet.shooter.tank != null) ==>
        var effect := if bullet.shooter == null then {} else StunEffect(bullet.shooter.tank.tankType);
        stun.created == old(stun.created) + 1 &&
        stun.stunMap == old(stun.stunMap)[tank.ownerId := (if tank.ownerId in old(stun.stunMap) then old(stun.stunMap)[tank.ownerId] else map[])[Plain(old(stun.created), StunBulletTicks, effect) := StunBulletTicks]]
      ensures bullet.kind == Stun && score.stereo && bullet.shooter != null && bullet.shooter.tank == null ==>
        o == Throw(NullReference)
      ensures !(bullet.kind == Stun && score.stereo && (bullet.shooter == null || bullet.shooter.tank != null)) ==>
        stun.stunMap == old(stun.stunMap) && stun.created == old(stun.created)
    {
      o, dealt := Pass, 0;
      match bullet.kind {
        case Basic =>
          if bullet.damage.None? {
            return Throw(InvalidOperation), 0;
          }
          dealt := damage.ApplyDamage(tank, bullet.damage.value, bullet.shooter);
        case Double =>
          if bullet.damage.None? {
            return Throw(InvalidOperation), 0;
          }
          dealt := damage.ApplyDamage(tank, bullet.damage.value, bullet.shooter);
        case Healing =>
          if score.stereo {
            o := heal.Heal(tank, HealingAmount);
          }
        case Stun =>
          if score.stereo {
            var effect: Block := {};
            if bullet.shooter != null {
              if bullet.shooter.tank == null {
                return Throw(NullReference), 0;
              }
              effect := StunEffect(bullet.shooter.tank.tankType);
            }
            stun.ApplyStun(tank.ownerId, effect, StunBulletTicks);
          }
      }
    }

    /** The award for damage dealt: half of it, to a shooter there is,
        only when some damage was dealt. */
    method AwardShooter(shooter: Player?, dealt: int) returns (o: Outcome)
      modifies if shooter == null then {} else {shooter}`score
      modifies if shooter == null || shooter.team == null then {} else {shooter.team}`score
      ensures shooter != null && dealt > 0 && !score.stereo ==>
        o == Pass && shooter.score == old(shooter.score) + dealt / 2 &&
        (shooter.team != null ==> shooter.team.score == old(shooter.team.score))
      ensures shooter != null && dealt > 0 && score.stereo && shooter.team != null ==>
        o == Pass && shooter.team.score == old(shooter.team.score) + dealt / 2 && shooter.score == old(shooter.score)
      ensures shooter != null && dealt > 0 && score.stereo && shooter.team == null ==>
        o == Throw(NullReference) && shooter.score == old(shooter.score)
      ensures shooter != null && dealt <= 0 ==>
        o == Pass && shooter.score == old(shooter.score) &&
        (shooter.team != null ==> shooter.team.score == old(shooter.team.score))
    {
      o := Pass;
      if dealt > 0 && shooter != null {
        o := score.AwardPlayerScore(shooter, dealt / 2);
      }
    }

    /** `ResolveBulletVsTank`: the bullet goes, the hit takes effect, and
        the shooter is awarded half of any damage dealt. */
    method ResolveBulletVsTank(bullet: Bullet, tank: Tank) returns (o: Outcome)
      requires stun.Valid()
      modifies grid`bullets, damage`requests, tank`health, stun
      modifies ShooterOf(bullet)`score, TeamsOf(ShooterOf(bullet))`score
      ensures stun.Valid()
      ensures grid.bullets == Without(old(grid.bullets), bullet.id)
      ensures damage.requests == if Harmful(bullet) && bullet.damage.Some? then old(damage.requests) + [RequestFor(bullet, tank)]
                                 else old(damage.requests)
      ensures var dealt := Dealt(bullet, tank, |old(damage.requests)|);
        var s := bullet.shooter;
        (s != null && dealt > 0 && !score.stereo ==> s.score == old(s.score) + dealt / 2) &&
        (s != null && dealt > 0 && score.stereo && s.team != null ==> s.team.score == old(s.team.score) + dealt / 2) &&
        (s != null && dealt <= 0 ==> s.score == old(s.score) && (s.team != null ==> s.team.score == old(s.team.score)))
    {
      grid.bullets := Without(grid.bullets, bullet.id);
      var dealt;
      o, dealt := ApplyHit(bullet, tank);
      if o.Throw? {
        return;
      }
      assert bullet.shooter != null && bullet.shooter.team != null ==> bullet.shooter.team in TeamsOf(ShooterOf(bullet));
      o := AwardShooter(bullet.shooter, dealt);
    }

    /** What resolving collision `c` of `bullet` does: a bullet hit
        is `Replaced`: both bullets go and, when exactly one of them is a
        double bullet, a basic bullet with half its damage takes its
        place, a wall, border
        or tank hit removes the bullet, a laser hit changes nothing, and
        only a tank hit asks for damage, stuns or awards the shooter half
        of the damage dealt. */
    twostate predicate Resolved(bullet: Bullet, new c: Collision, o: Outcome)
      reads *
    {
      var s, team := old(bullet.shooter), old(if bullet.shooter == null then null else bullet.shooter.team);
      (c.BulletHit? ==> Replaced(bullet, c.other, o)) &&
      (c.LaserHit? ==> o == Pass && grid.bullets == old(grid.bullets)) &&
      (c.WallHit? || c.BorderHit? || c.TankHit? ==> grid.bullets == Without(old(grid.bullets), bullet.id)) &&
      (c.WallHit? || c.BorderHit? ==> o == Pass) &&
      (!c.TankHit? ==>
        damage.requests == old(damage.requests) && stun.stunMap == old(stun.stunMap) && stun.created == old(stun.created)) &&
      (!c.TankHit? && s != null ==> s.score == old(s.score)) &&
      (c.TankHit? ==>
        damage.requests == (if Harmful(bullet) && bullet.damage.Some? then old(damage.requests) + [RequestFor(bullet, c.tank)]
                            else old(damage.requests)) &&
        var dealt := Dealt(bullet, c.tank, |old(damage.requests)|);
        (s != null && dealt > 0 && !score.stereo ==> s.score == old(s.score) + dealt / 2) &&
        (s != null && dealt > 0 && score.stereo && team != null ==> team.score == old(team.score) + dealt / 2) &&
        (s != null && dealt <= 0 ==> s.score == old(s.score) && (team != null ==> team.score == old(team.score))))
    }

    /** `ResolveCollision`: bullet against bullet, bullet against tank,
        and a wall or the border removing the bullet; a laser collision is
        left alone. */
    method ResolveCollision(bullet: Bullet, c: Collision) returns (o: Outcome)
      requires stun.Valid()
      modifies grid`bullets, ids, damage`requests, TankOf(c)`health, stun
      modifies ShooterOf(bullet)`score, TeamsOf(ShooterOf(bullet))`score
      ensures stun.Valid()
      ensures Resolved(bullet, c, o)
      ensures IndexOfId(old(grid.bullets), bullet.id).Some? ==> |grid.bullets| <= |old(grid.bullets)|
      ensures forall n :: n in grid.bullets ==>
        n in old(grid.bullets) || (fresh(n) && c.BulletHit? && (n.shooter == bullet.shooter || n.shooter == c.other.shooter))
    {
      match c {
        case BulletHit(other) =>
          o := ResolveBulletVsBullet(bullet, other);
        case TankHit(tank) =>
          o := ResolveBulletVsTank(bullet, tank);
        case LaserHit =>
          o := Pass;
        case _ =>
          grid.bullets := Without(grid.bullets, bullet.id);
          o := Pass;
      }
    }
  }

  class BulletSystem {
    const grid: Grid
    const collisions: BulletCollisionSystem
    /** `queuedBullets`: fired this tick, joining the grid at the next
        update. */
    var queued: seq<Bullet>

    constructor (grid: Grid, collisions: BulletCollisionSystem)
      requires collisions.grid == grid
      ensures this.grid == grid && this.collisions == collisions && queued == []
    {
      this.grid := grid;
      this.collisions := collisions;
      queued := [];
    }

    /** The static `CalculateTrajectory`: the same cells as
        `Bullet.CalculateTrajectory`. */
    static method CalculateTrajectory(bullet: Bullet, startX: int, startY: int) returns (coords: seq<(int, int)>)
      ensures coords == Trajectory(startX, startY, bullet.X(), bullet.Y())
      ensures |coords| > 0 && coords[|coords| - 1] == (bullet.X(), bullet.Y())
    {
      coords := LineCells(startX, startY, bullet.X(), bullet.Y());
      if startX == bullet.X() && startY == bullet.Y() {
        TrajectoryInPlace(startX, startY);
      } else {
        TrajectoryEnds(startX, startY, bullet.X(), bullet.Y());
      }
    }

    /** `TryFireBullet`: nothing when the ability cannot be used;
        otherwise one basic bullet is queued one cell ahead of the tank
        along the turret, and the ability is used once. */
    method TryFireBullet(ability: BulletAbility) returns (b: Bullet?)
      requires ability.turret != null && ability.turret.tank != null
      requires collisions.grid == grid
      modifies this`queued, collisions.ids, ability`count, ability`timer
      ensures !old(ability.CanUse(collisions.stun)) ==>
        b == null && queued == old(queued) && collisions.ids.next == old(collisions.ids.next) &&
        ability.count == old(ability.count) && ability.timer == old(ability.timer)
      ensures old(ability.CanUse(collisions.stun)) ==>
        var turret := ability.turret;
        var (nx, ny) := Normal(turret.direction);
        b != null && fresh(b) && queued == old(queued) + [b] &&
        b.X() == turret.tank.x + nx && b.Y() == turret.tank.y + ny && b.direction == turret.direction &&
        b.kind == Basic && b.speed == BulletSpeed && b.damage == Some(BulletDamage) &&
        b.shooter == turret.tank.owner &&
        ability.count == old(ability.count) - 1 && ability.timer == Some(BulletRegenerationTicks)
    {
      if !ability.CanUse(collisions.stun) {
        return null;
      }
      var turret := ability.turret;
      var tank := turret.tank;
      var (nx, ny) := Normal(turret.direction);
      b := new Bullet.Fired(collisions.ids, tank.x + nx, tank.y + ny, turret.direction, Basic, BulletSpeed,
                            BulletDamage, tank.owner);
      queued := queued + [b];
      ability.Use();
    }

    /** `TryFireDoubleBullet`: nothing when the ability cannot be used;
        otherwise one double bullet of twice the damage is queued one cell
        ahead of the tank along the turret, and the ability is used once. */
    method TryFireDoubleBullet(ability: DoubleBulletAbility) returns (fired: bool)
      requires ability.turret != null && ability.turret.tank != null
      modifies this`queued, collisions.ids, ability`uses
      ensures fired == old(ability.usable)
      ensures !fired ==>
        queued == old(queued) && collisions.ids.next == old(collisions.ids.next) && ability.uses == old(ability.uses)
      ensures fired ==>
        var turret := ability.turret;
        var (nx, ny) := Normal(turret.direction);
        |queued| == |old(queued)| + 1 && queued[..|old(queued)|] == old(queued) &&
        var b := queued[|old(queued)|];
        fresh(b) && b.X() == turret.tank.x + nx && b.Y() == turret.tank.y + ny && b.direction == turret.direction &&
        b.kind == Double && b.speed == BulletSpeed && b.damage == Some(DoubleBulletDamage) &&
        b.shooter == turret.tank.owner && ability.uses == old(ability.uses) + 1
    {
      if !ability.usable {
        return false;
      }
      var turret := ability.turret;
      var tank := turret.tank;
      var (nx, ny) := Normal(turret.direction);
      var b := new Bullet.Fired(collisions.ids, tank.x + nx, tank.y + ny, turret.direction, Double, BulletSpeed,
                                DoubleBulletDamage, tank.owner);
      queued := queued + [b];
      ability.Use();
      return true;
    }

    /** One step of either loop: the cells go under the bullet's id. */
    static method Store(trs: seq<Entry>, b: Bullet, cells: seq<(int, int)>, ghost bs: seq<Bullet>) returns (r: seq<Entry>)
      requires NonEmptyCells(trs) && |cells| > 0
      ensures r == Put(trs, b, cells)
      ensures NonEmptyCells(r) && Lookup(r, b.id).Some?
      ensures forall id :: Lookup(trs, id).Some? ==> Lookup(r, id).Some?
      ensures KeysIn(trs, bs) && b in bs ==> KeysIn(r, bs)
    {
      forall id | true
        ensures Lookup(Put(trs, b, cells), id) == if id == b.id then Some(cells) else Lookup(trs, id)
      {
        PutLookup(trs, b, cells, id);
      }
      if KeysIn(trs, bs) && b in bs {
        PutKeys(trs, b, cells, bs);
      }
      r := Put(trs, b, cells);
    }

    /** One bullet of the first loop of `Update`: it moves, and its cells
        of this tick run from its old cell to its new one. */
    static method Advance(b: Bullet, deltaTime: real) returns (cells: seq<(int, int)>)
      modifies b`x, b`y
      ensures cells == Trajectory(old(b.X()), old(b.Y()), b.X(), b.Y()) && |cells| > 0
    {
      var prevX, prevY := b.X(), b.Y();
      b.UpdatePosition(deltaTime);
      cells := CalculateTrajectory(b, prevX, prevY);
    }

    /** The first loop of `Update`: every bullet moves and its cells of
        this tick are stored under its id. */
    method AdvanceBullets(deltaTime: real) returns (trs: seq<Entry>)
      modifies grid.bullets`x, grid.bullets`y
      ensures NonEmptyCells(trs) && KeysIn(trs, grid.bullets)
      ensures forall k :: 0 <= k < |grid.bullets| ==> Lookup(trs, grid.bullets[k].id).Some?
      ensures DistinctBulletIds(grid.bullets) ==>
        forall k :: 0 <= k < |grid.bullets| ==>
          Lookup(trs, grid.bullets[k].id) ==
            Some(Trajectory(old(grid.bullets[k].X()), old(grid.bullets[k].Y()), grid.bullets[k].X(), grid.bullets[k].Y()))
    {
      var bullets := grid.bullets;
      ghost var xs, ys := Columns(bullets), Rows(bullets);
      trs := [];
      for i := 0 to |bullets|
        invariant Advanced(trs, bullets, i)
        invariant DistinctBulletIds(bullets) ==> Traced(trs, bullets, xs, ys, i)
      {
        trs := AdvanceStep(trs, bullets, i, deltaTime, xs, ys);
      }
    }

    /** The loop body of `AdvanceBullets`: the `i`-th bullet moves and its
        cells are stored. */
    static method AdvanceStep(trs: seq<Entry>, bullets: seq<Bullet>, i: nat, deltaTime: real,
                              ghost xs: seq<int>, ghost ys: seq<int>) returns (r: seq<Entry>)
      requires i < |bullets| && Advanced(trs, bullets, i)
      requires DistinctBulletIds(bullets) ==> Traced(trs, bullets, xs, ys, i)
      modifies bullets`x, bullets`y
      ensures Advanced(r, bullets, i + 1)
      ensures DistinctBulletIds(bullets) ==> Traced(r, bullets, xs, ys, i + 1)
    {
      var b := bullets[i];
      var cells := Advance(b, deltaTime);
      r := Store(trs, b, cells, bullets);
      if DistinctBulletIds(bullets) {
        forall k | 0 <= k < |bullets| && k != i
          ensures bullets[k] != b && Lookup(r, bullets[k].id) == Lookup(trs, bullets[k].id)
        {
          PutLookup(trs, b, cells, bullets[k].id);
        }
        PutLookup(trs, b, cells, b.id);
      }
    }

    /** The queue-draining loop of `Update`: every queued bullet joins the
        grid in order, its cell its whole trajectory, and the queue ends
        empty. */
    method DrainQueue(trs: seq<Entry>, ghost bs: seq<Bullet>) returns (r: seq<Entry>)
      requires NonEmptyCells(trs) && KeysIn(trs, bs)
      modifies this`queued, grid`bullets
      ensures queued == [] && grid.bullets == old(grid.bullets) + old(queued)
      ensures NonEmptyCells(r) && KeysIn(r, bs + old(queued))
      ensures forall k :: 0 <= k < |old(queued)| ==> Lookup(r, old(queued)[k].id).Some?
      ensures forall id :: Lookup(trs, id).Some? ==> Lookup(r, id).Some?
    {
      ghost var q := queued;
      ghost var i := 0;
      KeysInGrows(trs, bs, q);
      r := trs;
      while |queued| > 0
        invariant Draining(trs, bs, q, old(grid.bullets), i, r)
        decreases |queued|
      {
        r := DrainStep(trs, bs, q, old(grid.bullets), i, r);
        i := i + 1;
      }
      assert q[..i] == q;
    }

    /** The state of `DrainQueue` after the first `i` of the queued bullets
        `q`: they have joined the grid's bullets `start`, and their cells
        are stored in `r` with those of `trs`. */
    ghost predicate Draining(trs: seq<Entry>, bs: seq<Bullet>, q: seq<Bullet>, start: seq<Bullet>, i: nat, r: seq<Entry>)
      reads this, grid
    {
      i <= |q| && queued == q[i..] && grid.bullets == start + q[..i] && Drained(trs, bs, q, i, r)
    }

    /** The loop body of `DrainQueue`: the first queued bullet joins the
        grid, its cell stored as its trajectory. */
    method DrainStep(ghost trs: seq<Entry>, ghost bs: seq<Bullet>, ghost q: seq<Bullet>, ghost start: seq<Bullet>,
                     ghost i: nat, r: seq<Entry>) returns (r': seq<Entry>)
      requires Draining(trs, bs, q, start, i, r) && |queued| > 0
      modifies this`queued, grid`bullets
      ensures Draining(trs, bs, q, start, i + 1, r') && |queued| == |old(queued)| - 1
    {
      var b := queued[0];
      assert b == q[i];
      r' := Put(r, b, [(b.X(), b.Y())]);
      DrainedStep(trs, bs, q, i, r, [(b.X(), b.Y())]);
      assert q[..i + 1] == q[..i] + [b];
      queued := queued[1..];
      grid.bullets := grid.bullets + [b];
    }

    /** One bullet of `ResolveBulletCollisions`: skipped when no longer on
        the grid, otherwise checked and its collision resolved. */
    method ResolveOne(b: Bullet, trs: seq<Entry>, ghost keys: seq<Bullet>, ghost players: set<Player>) returns (o: Outcome)
      requires grid.Valid() && NonEmptyCells(trs) && collisions.stun.Valid() && collisions.grid == grid
      requires ShootersIn(grid.bullets, players) && (b.shooter != null ==> b.shooter in players)
      requires KeysIn(trs, keys) && ShootersIn(keys, players)
      modifies grid`bullets, collisions.ids, collisions.damage`requests, grid.tanks`health
      modifies collisions.stun, players`score, TeamsOf(players)`score
      ensures grid.Valid() && collisions.stun.Valid() && ShootersIn(grid.bullets, players)
      ensures IndexOfId(old(grid.bullets), b.id).None? ==> o == Pass && grid.bullets == old(grid.bullets)
      ensures IndexOfId(old(grid.bullets), b.id).Some? ==>
        var c := old(CheckBulletCollision(b, grid, trs));
        (c.None? ==> o == Pass && grid.bullets == old(grid.bullets) && collisions.damage.requests == old(collisions.damage.requests)) &&
        (c.Some? ==> collisions.Resolved(b, c.value, o))
      ensures |grid.bullets| <= |old(grid.bullets)|
      ensures forall n :: n in grid.bullets ==> n in old(grid.bullets) || fresh(n)
    {
      o := Pass;
      if IndexOfId(grid.bullets, b.id).None? {
        return;
      }
      var c := CheckBulletCollision(b, grid, trs);
      if c.None? {
        return;
      }
      if c.value.BulletHit? {
        var m :| 0 <= m < |trs| && trs[m].bullet == c.value.other;
        assert trs[m].bullet in keys;
        ShooterOfMember(keys, players, c.value.other);
      }
      o := ResolveDetected(b, c.value, players);
    }

    /** A detected collision resolved, its bullets' shooters among
        `players`. */
    method ResolveDetected(b: Bullet, c: Collision, ghost players: set<Player>) returns (o: Outcome)
      requires grid.Valid() && collisions.stun.Valid() && collisions.grid == grid
      requires ShootersIn(grid.bullets, players) && (b.shooter != null ==> b.shooter in players)
      requires IndexOfId(grid.bullets, b.id).Some?
      requires c.TankHit? ==> c.tank in grid.tanks
      requires c.BulletHit? && c.other.shooter != null ==> c.other.shooter in players
      modifies grid`bullets, collisions.ids, collisions.damage`requests, grid.tanks`health
      modifies collisions.stun, players`score, TeamsOf(players)`score
      ensures grid.Valid() && collisions.stun.Valid() && ShootersIn(grid.bullets, players)
      ensures collisions.Resolved(b, c, o)
      ensures |grid.bullets| <= |old(grid.bullets)|
      ensures forall n :: n in grid.bullets ==> n in old(grid.bullets) || fresh(n)
    {
      ghost var before := grid.bullets;
      ghost var other: Player? := if c.BulletHit? then c.other.shooter else null;
      TeamsGrow(ShooterOf(b), players);
      o := collisions.ResolveCollision(b, c);
      ShootersKept(before, grid.bullets, players, b.shooter, other);
    }

    /** `ResolveBulletCollisions`: each bullet of the list as it stood,
        still on the grid, is checked against the trajectories and its
        collision resolved; an exception stops the loop. Resolution never
        adds bullets overall, and every bullet left is an old one or a
        new one made during resolution. */
    method ResolveBulletCollisions(trs: seq<Entry>, ghost keys: seq<Bullet>, ghost players: set<Player>) returns (o: Outcome)
      requires grid.Valid() && NonEmptyCells(trs) && collisions.stun.Valid() && collisions.grid == grid
      requires ShootersIn(grid.bullets, players) && KeysIn(trs, keys) && ShootersIn(keys, players)
      modifies grid`bullets, collisions.ids, collisions.damage`requests, grid.tanks`health
      modifies collisions.stun, players`score, TeamsOf(players)`score
      ensures grid.Valid() && collisions.stun.Valid() && ShootersIn(grid.bullets, players)
      ensures |grid.bullets| <= |old(grid.bullets)|
      ensures forall n :: n in grid.bullets ==> n in old(grid.bullets) || fresh(n)
    {
      var snapshot := grid.bullets;
      o := Pass;
      for i := 0 to |snapshot|
        invariant grid.Valid() && collisions.stun.Valid() && ShootersIn(grid.bullets, players)
        invariant |grid.bullets| <= |snapshot|
        invariant forall n :: n in grid.bullets ==> n in snapshot || fresh(n)
      {
        var b := snapshot[i];
        assert b.shooter != null ==> b.shooter in players by {
          ShooterOfMember(old(grid.bullets), players, b);
        }
        o := ResolveOne(b, trs, keys, players);
        if o.Throw? {
          return;
        }
      }
    }

    /** The first half of `Update`: the bullets move and their
        collisions are resolved. */
    method MoveAndResolve(deltaTime: real, ghost players: set<Player>) returns (o: Outcome, trs: seq<Entry>)
      requires grid.Valid() && collisions.stun.Valid() && collisions.grid == grid
      requires ShootersIn(grid.bullets, players)
      modifies grid.bullets`x, grid.bullets`y, grid`bullets, collisions.ids
      modifies collisions.damage`requests, grid.tanks`health, collisions.stun
      modifies players`score, TeamsOf(players)`score
      ensures grid.Valid() && collisions.stun.Valid() && ShootersIn(grid.bullets, players)
      ensures NonEmptyCells(trs) && KeysIn(trs, old(grid.bullets)) && ShootersIn(old(grid.bullets), players)
    {
      trs := AdvanceBullets(deltaTime);
      o := ResolveBulletCollisions(trs, grid.bullets, players);
    }

    /** The second half of `Update`: the queued bullets join the grid and
        collisions are resolved again; the queue ends empty. */
    method JoinAndResolve(trs: seq<Entry>, ghost keys: seq<Bullet>, ghost players: set<Player>) returns (o: Outcome)
      requires grid.Valid() && collisions.stun.Valid() && collisions.grid == grid
      requires NonEmptyCells(trs) && KeysIn(trs, keys) && ShootersIn(keys, players)
      requires ShootersIn(grid.bullets, players) && ShootersIn(queued, players)
      modifies this`queued, grid`bullets, collisions.ids
      modifies collisions.damage`requests, grid.tanks`health, collisions.stun
      modifies players`score, TeamsOf(players)`score
      ensures queued == []
      ensures grid.Valid() && collisions.stun.Valid()
    {
      ghost var queue, mid := queued, grid.bullets;
      var all := DrainQueue(trs, keys);
      ShootersAppend(mid, queue, players);
      ShootersAppend(keys, queue, players);
      o := ResolveBulletCollisions(all, keys + queue, players);
    }

    /** `Update`: the bullets move, collisions are resolved, the queued
        bullets join the grid with their own cell as their trajectory,
        and collisions are resolved again. An exception in the first
        resolution leaves the queue as it was; otherwise it ends empty. */
    method Update(deltaTime: real, ghost players: set<Player>) returns (o: Outcome)
      requires grid.Valid() && collisions.stun.Valid() && collisions.grid == grid
      requires ShootersIn(grid.bullets, players) && ShootersIn(queued, players)
      modifies grid.bullets`x, grid.bullets`y, this`queued, grid`bullets, collisions.ids
      modifies collisions.damage`requests, grid.tanks`health, collisions.stun
      modifies players`score, TeamsOf(players)`score
      ensures o.Throw? ==> queued == old(queued) || queued == []
      ensures o.Pass? ==> queued == []
      ensures grid.Valid() && collisions.stun.Valid()
    {
      var trs;
      ghost var keys := grid.bullets;
      o, trs := MoveAndResolve(deltaTime, players);
      if o.Throw? {
        return;
      }
      o := JoinAndResolve(trs, keys, players);
    }
  }

  /** Every shooter of the bullets is one of `players`. */
  predicate ShootersIn(bs: seq<Bullet>, players: set<Player>)
    reads bs`shooter
  {
    forall k :: 0 <= k < |bs| && bs[k].shooter != null ==> bs[k].shooter in players
  }

  lemma {:induction false} ShooterOfMember(bs: seq<Bullet>, players: set<Player>, b: Bullet)
    requires ShootersIn(bs, players) && b in bs
    ensures b.shooter != null ==> b.shooter in players
  {
  }

  lemma {:induction false} ShootersAppend(a: seq<Bullet>, b: seq<Bullet>, players: set<Player>)
    requires ShootersIn(a, players) && ShootersIn(b, players)
    ensures ShootersIn(a + b, players)
  {
    forall k | 0 <= k < |a + b| && (a + b)[k].shooter != null
      ensures (a + b)[k].shooter in players
    {
      if k >= |a| {
        assert (a + b)[k] == b[k - |a|];
      }
    }
  }

  /** Bullets drawn from shooting bullets, or with one of two given
      shooters, shoot for `players` when those do. */
  lemma {:induction false} ShootersKept(before: seq<Bullet>, after: seq<Bullet>, players: set<Player>, s1: Player?, s2: Player?)
    requires ShootersIn(before, players)
    requires s1 != null ==> s1 in players
    requires s2 != null ==> s2 in players
    requires forall n :: n in after ==> n in before || n.shooter == s1 || n.shooter == s2
    ensures ShootersIn(after, players)
  {
    forall k | 0 <= k < |after| && after[k].shooter != null
      ensures after[k].shooter in players
    {
      if after[k] in before {
        ShooterOfMember(before, players, after[k]);
      }
    }
  }

  /** The first `i` of the bullets `bs` have their cells stored in `trs`,
      whose keys are among `bs`. */
  predicate Advanced(trs: seq<Entry>, bs: seq<Bullet>, i: nat) {
    i <= |bs| && NonEmptyCells(trs) && KeysIn(trs, bs) &&
    forall k :: 0 <= k < i ==> Lookup(trs, bs[k].id).Some?
  }

  /** No two of the bullets share an id, so no two share a dictionary key. */
  predicate DistinctBulletIds(bs: seq<Bullet>) {
    forall i, j :: 0 <= i < j < |bs| ==> bs[i].id != bs[j].id
  }

  /** The cells of the bullets. */
  ghost function Columns(bs: seq<Bullet>): (r: seq<int>)
    reads set b | b in bs
    ensures |r| == |bs| && forall k :: 0 <= k < |bs| ==> r[k] == bs[k].X()
  {
    if bs == [] then [] else [bs[0].X()] + Columns(bs[1..])
  }

  ghost function Rows(bs: seq<Bullet>): (r: seq<int>)
    reads set b | b in bs
    ensures |r| == |bs| && forall k :: 0 <= k < |bs| ==> r[k] == bs[k].Y()
  {
    if bs == [] then [] else [bs[0].Y()] + Rows(bs[1..])
  }

  /** The first `i` bullets moved from the cells `xs`, `ys`, and the cells
      stored under each one's id run from that cell to its cell now; the
      bullets from `i` on are still on those cells. */
  ghost predicate Traced(trs: seq<Entry>, bs: seq<Bullet>, xs: seq<int>, ys: seq<int>, i: nat)
    reads set b | b in bs
  {
    |xs| == |bs| && |ys| == |bs| && i <= |bs| &&
    (forall k :: 0 <= k < i ==> Lookup(trs, bs[k].id) == Some(Trajectory(xs[k], ys[k], bs[k].X(), bs[k].Y()))) &&
    forall k :: i <= k < |bs| ==> bs[k].X() == xs[k] && bs[k].Y() == ys[k]
  }

  /** The entries after `i` bullets of the queue `q` joined the grid: each
      has cells and belongs to a bullet of `bs` or `q`, the first `i` queued
      bullets have one, and so has every bullet that had one in `trs`. */
  ghost predicate Drained(trs: seq<Entry>, bs: seq<Bullet>, q: seq<Bullet>, i: nat, r: seq<Entry>) {
    i <= |q| && NonEmptyCells(r) && KeysIn(r, bs + q) &&
    (forall k :: 0 <= k < i ==> Lookup(r, q[k].id).Some?) &&
    forall id :: Lookup(trs, id).Some? ==> Lookup(r, id).Some?
  }

  /** Storing the next queued bullet's cells drains one more bullet. */
  lemma {:induction false} DrainedStep(trs: seq<Entry>, bs: seq<Bullet>, q: seq<Bullet>, i: nat, r: seq<Entry>, cells: seq<(int, int)>)
    requires Drained(trs, bs, q, i, r) && i < |q| && |cells| > 0
    ensures Drained(trs, bs, q, i + 1, Put(r, q[i], cells))
  {
    var r' := Put(r, q[i], cells);
    forall id | true
      ensures Lookup(r', id) == if id == q[i].id then Some(cells) else Lookup(r, id)
    {
      PutLookup(r, q[i], cells, id);
    }
    assert q[i] in q;
    PutKeys(r, q[i], cells, bs + q);
  }

  predicate KeysIn(trs: seq<Entry>, bs: seq<Bullet>) {
    forall k :: 0 <= k < |trs| ==> trs[k].bullet in bs
  }

  lemma {:induction false} KeysInGrows(trs: seq<Entry>, bs: seq<Bullet>, more: seq<Bullet>)
    requires KeysIn(trs, bs)
    ensures KeysIn(trs, bs + more)
  {
    forall k | 0 <= k < |trs|
      ensures trs[k].bullet in bs + more
    {
      var j :| 0 <= j < |bs| && bs[j] == trs[k].bullet;
      assert (bs + more)[j] == bs[j];
    }
  }

  /** `Put` keys its entries by the bullets already there or the new one. */
  lemma {:induction false} PutKeys(trs: seq<Entry>, bullet: Bullet, cells: seq<(int, int)>, bs: seq<Bullet>)
    requires KeysIn(trs, bs) && bullet in bs
    ensures KeysIn(Put(trs, bullet, cells), bs)
  {
    if |trs| > 0 && trs[0].bullet.id != bullet.id {
      assert KeysIn(trs[1..], bs) by {
        forall k | 0 <= k < |trs| - 1
          ensures trs[1..][k].bullet in bs
        {
          assert trs[1..][k] == trs[k + 1];
        }
      }
      PutKeys(trs[1..], bullet, cells, bs);
      var r := Put(trs, bullet, cells);
      assert r[1..] == Put(trs[1..], bullet, cells);
      forall k | 0 <= k < |r|
        ensures r[k].bullet in bs
      {
        if k > 0 {
          assert r[k] == r[1..][k - 1];
        }
      }
    }
  }
}
