/** The server's players and what they own: `Player`, `Tank`, `Turret`,
    the STEREO `Team`, and the abilities a tank or its turret carries
    (`BulletAbility`, `RadarAbility`, `LaserAbility`, `MineAbility`,
    `StunBulletAbility`). They refer to one another, so they share one
    module. The build variant (the STEREO compilation symbol) is a
    constant of each object that depends on it. */
module LogicTanks {
  import opened Wrappers
  import opened LogicDirections
  import opened LogicRegeneration
  import opened LogicStun

  datatype SecondaryItemType = LaserItem | DoubleBulletItem | RadarItem | MineItem | UnknownItem

  datatype TankType = Heavy | Light

  /** `Tank.RegenerationTicks` and `Tank.HealthMax`. */
  const RegenerationTicks := 50
  const HealthMax := 100

  /** `Player.RegenTicks`. */
  const PlayerRegenTicks := 50

  /** `BulletAbility.MaxBullets` and its regeneration time. */
  const MaxBullets := 3
  const BulletRegenerationTicks := 10

  /** The STEREO regeneration times of the other abilities. */
  const RadarRegenerationTicks := 200
  const LaserRegenerationTicks := 400
  const MineRegenerationTicks := 80
  const StunBulletRegenerationTicks := 200

  /** The stun flag that blocks ability use. */
  const AbilityUseBlock: Block := {AbilityUse}

  // ---------------------------------------------------------------------
  // Player

  class Player {
    const id: string
    var score: int
    var kills: int
    var remainingTicksToRegen: Option<int>
    var tank: Tank?
    /** STEREO only: the player's team. */
    var team: Team?

    constructor (id: string)
      ensures this.id == id && score == 0 && kills == 0
      ensures remainingTicksToRegen.None? && tank == null && team == null
    {
      this.id := id;
      score := 0;
      kills := 0;
      remainingTicksToRegen := None;
      tank := null;
      team := null;
    }

    /** `Equals`: players are the same player when their ids are. */
    predicate Equals(other: Player?) {
      other != null && other.id == id
    }

    /** `IsDead`: no tank, or a dead one. */
    predicate IsDead()
      reads this, tank
    {
      tank == null || tank.IsDead()
    }

    /** The `Tank` setter: besides storing the tank it subscribes this
        player to the tank's `Died` event. */
    method SetTank(t: Tank)
      modifies this`tank, t`diedHandlers
      ensures tank == t && t.diedHandlers == old(t.diedHandlers) + [this]
    {
      tank := t;
      t.diedHandlers := t.diedHandlers + [this];
    }

    /** `UpdateRegenerationProgress`: while the tank is dead the countdown
        runs; when it runs out the tank is restored to full health. */
    method UpdateRegenerationProgress()
      requires tank != null
      modifies this`remainingTicksToRegen, tank`health
      ensures !old(tank.IsDead()) ==> remainingTicksToRegen == old(remainingTicksToRegen) && tank.health == old(tank.health)
      ensures old(tank.IsDead()) ==>
        remainingTicksToRegen == PlayerRegenStep(old(remainingTicksToRegen)).0 &&
        tank.health == if PlayerRegenStep(old(remainingTicksToRegen)).1 then Some(HealthMax) else old(tank.health)
    {
      if !tank.IsDead() {
        return;
      }
      if remainingTicksToRegen.Some? {
        remainingTicksToRegen := Some(remainingTicksToRegen.value - 1);
        if remainingTicksToRegen.value <= 0 {
          tank.health := Some(HealthMax);
          remainingTicksToRegen := None;
        }
      }
    }
  }

  /** One step of the player's countdown: the new count, and whether the
      tank is restored. */
  function PlayerRegenStep(ticks: Option<int>): (r: (Option<int>, bool))
    ensures r.0 == UpdateRegenerationProcess(ticks)
    ensures r.1 <==> ticks.Some? && r.0.None?
  {
    if ticks.None? then (None, false)
    else if ticks.value - 1 <= 0 then (None, true)
    else (Some(ticks.value - 1), false)
  }

  // ---------------------------------------------------------------------
  // Tank

  /** An ability with a countdown as a payload carries it. */
  datatype AbilitySnapshot = AbilitySnapshot(timer: Option<int>)

  /** A radar as a payload carries it: the active flag and the countdown. */
  datatype RadarSnapshot = RadarSnapshot(isActive: bool, timer: Option<int>)

  /** A turret as a payload carries it: its direction and the abilities the
      payload includes (none of them for a turret the reader may not
      inspect). */
  datatype TurretSnapshot = TurretSnapshot(direction: Direction, bullet: Option<Magazine>,
                                           laser: Option<AbilitySnapshot>, stunBullet: Option<AbilitySnapshot>)

  /** A tank as a game state payload carries it: its owner's id, type,
      cell, direction, health, previous cell, visibility, item, turret, and
      the radar and mine abilities the payload includes. */
  datatype TankSnapshot = TankSnapshot(ownerId: string, tankType: TankType, x: int, y: int, direction: Direction,
                                       health: Option<int>, previousX: Option<int>, previousY: Option<int>,
                                       visibilityGrid: Option<seq<seq<bool>>>, item: Option<SecondaryItemType>,
                                       turret: TurretSnapshot, radar: Option<RadarSnapshot>,
                                       mine: Option<AbilitySnapshot>)

  class Tank {
    var x: int
    var y: int
    var direction: Direction
    var health: Option<int>
    /** `RemainingRegenerationTicks`. */
    var timer: Option<int>
    var visibilityGrid: Option<seq<seq<bool>>>
    var owner: Player
    /** The turret, radar and mine are set while the tank is built and
        never replaced. */
    const turret: Turret?
    /** Non-STEREO only: the secondary item carried. */
    var item: Option<SecondaryItemType>
    const radar: RadarAbility?
    const mine: MineAbility?
    const ownerId: string
    var previousX: Option<int>
    var previousY: Option<int>
    /** STEREO only: the tank's type. */
    const tankType: TankType
    /** The players subscribed to the `Died` event. */
    var diedHandlers: seq<Player>

    constructor (x: int, y: int, direction: Direction, owner: Player, tankType: TankType)
      ensures this.x == x && this.y == y && this.direction == direction
      ensures this.owner == owner && ownerId == owner.id && this.tankType == tankType
      ensures health == Some(HealthMax) && timer.None? && !IsDead()
      ensures visibilityGrid.None? && turret == null && item.None? && radar == null && mine == null
      ensures previousX.None? && previousY.None? && diedHandlers == []
    {
      this.x := x;
      this.y := y;
      this.direction := direction;
      this.owner := owner;
      ownerId := owner.id;
      this.tankType := tankType;
      health := Some(HealthMax);
      timer := None;
      visibilityGrid := None;
      turret := null;
      item := None;
      radar := null;
      mine := null;
      previousX := None;
      previousY := None;
      diedHandlers := [];
    }

    /** A tank rebuilt from a payload snapshot and owned by `owner`: the
        snapshot's owner id, type, cell, direction, health, previous cell,
        visibility and item, a new turret holding the snapshot's turret
        state, and a new radar and mine where the snapshot has them; no
        regeneration countdown. Neither the turret nor the abilities point
        back at the tank yet. */
    constructor Snapshot(s: TankSnapshot, owner: Player, stereo: bool)
      ensures ownerId == s.ownerId && tankType == s.tankType && this.owner == owner
      ensures x == s.x && y == s.y && direction == s.direction && health == s.health
      ensures previousX == s.previousX && previousY == s.previousY && visibilityGrid == s.visibilityGrid
      ensures item == s.item && timer.None? && diedHandlers == []
      ensures turret != null && fresh(turret) && turret.tank == null && turret.Mirrors(s.turret)
      ensures radar != null <==> s.radar.Some?
      ensures radar != null ==> fresh(radar) && radar.isActive == s.radar.value.isActive && radar.timer == s.radar.value.timer
      ensures mine != null <==> s.mine.Some?
      ensures mine != null ==> fresh(mine) && mine.timer == s.mine.value.timer
      ensures forall x :: x in Parts() ==> x == null || fresh(x)
    {
      x := s.x;
      y := s.y;
      direction := s.direction;
      this.owner := owner;
      ownerId := s.ownerId;
      tankType := s.tankType;
      health := s.health;
      timer := None;
      visibilityGrid := s.visibilityGrid;
      var built := BuildTurret(s.turret, stereo);
      turret := built;
      item := s.item;
      var r: RadarAbility? := null;
      if s.radar.Some? {
        r := new RadarAbility(stereo, null);
        r.isActive, r.timer := s.radar.value.isActive, s.radar.value.timer;
      }
      radar := r;
      var m: MineAbility? := null;
      if s.mine.Some? {
        m := new MineAbility(stereo, null);
        m.timer := s.mine.value.timer;
      }
      mine := m;
      previousX := s.previousX;
      previousY := s.previousY;
      diedHandlers := [];
    }

    /** `Equals`: tanks are the same tank when their owners' ids are. */
    predicate Equals(other: Tank?) {
      other != null && other.ownerId == ownerId
    }

    /** `IsDead`: health at or below zero; a null health is not dead. */
    predicate IsDead()
      reads this
    {
      health.Some? && health.value <= 0
    }

    /** The `RemainingRegenerationTicks` initialiser. */
    method InitTimer(value: Option<int>) returns (o: Outcome)
      modifies this`timer
      ensures o == CheckTimer(value)
      ensures timer == if o.Pass? then value else old(timer)
    {
      o := CheckTimer(value);
      if o.Pass? {
        timer := value;
      }
    }

    /** `RegenerateTick`: a dead tank's countdown runs, and the tank is
        restored to full health when it runs out; a live tank is left
        alone. */
    method RegenerateTick()
      modifies this`timer, this`health
      ensures !old(IsDead()) ==> timer == old(timer) && health == old(health)
      ensures old(IsDead()) ==> timer == UpdateRegenerationProcess(old(timer))
      ensures old(IsDead()) ==> health == if timer.None? then Some(HealthMax) else old(health)
    {
      if !IsDead() {
        return;
      }
      timer := UpdateRegenerationProcess(timer);
      if timer.None? {
        health := Some(HealthMax);
      }
    }

    /** `RegenerateFull`: a dead tank is restored at once. */
    method RegenerateFull()
      modifies this`timer, this`health
      ensures !old(IsDead()) ==> timer == old(timer) && health == old(health)
      ensures old(IsDead()) ==> timer.None? && health == Some(HealthMax) && !IsDead()
    {
      if !IsDead() {
        return;
      }
      timer := None;
      health := Some(HealthMax);
    }

    /** `SetPosition`: the old cell becomes the previous one. */
    method SetPosition(nx: int, ny: int)
      modifies this`x, this`y, this`previousX, this`previousY
      ensures x == nx && y == ny && previousX == Some(old(x)) && previousY == Some(old(y))
    {
      previousX := Some(x);
      previousY := Some(y);
      x := nx;
      y := ny;
    }

    /** `OnDied`: the countdown starts at `RegenerationTicks`, and every
        subscribed player starts its own countdown. */
    method OnDied()
      modifies this`timer, diedHandlers`remainingTicksToRegen
      ensures timer == Some(RegenerationTicks)
      ensures forall p :: p in diedHandlers ==> p.remainingTicksToRegen == Some(PlayerRegenTicks)
    {
      timer := Some(RegenerationTicks);
      for i := 0 to |diedHandlers|
        invariant timer == Some(RegenerationTicks)
        invariant forall k :: 0 <= k < i ==> diedHandlers[k].remainingTicksToRegen == Some(PlayerRegenTicks)
      {
        diedHandlers[i].remainingTicksToRegen := Some(PlayerRegenTicks);
      }
    }

    /** `UpdateFrom` finds what it dereferences: a turret whose abilities
        the snapshot's turret has, and (non-STEREO) the snapshot's radar
        and mine where this tank has them. */
    predicate Fits(s: TankSnapshot, stereo: bool) {
      turret != null && turret.Fits(s.turret) &&
      (!stereo ==> (radar != null ==> s.radar.Some?) && (mine != null ==> s.mine.Some?))
    }

    /** The radar and mine the tank has took the snapshot's state (a mine
        only its STEREO countdown). */
    predicate TookAbilities(s: TankSnapshot)
      reads radar, mine
    {
      (radar != null ==> s.radar.Some? && radar.isActive == s.radar.value.isActive &&
                         (radar.stereo ==> radar.timer == s.radar.value.timer)) &&
      (mine != null ==> s.mine.Some? && (mine.stereo ==> mine.timer == s.mine.value.timer))
    }

    /** The objects `UpdateFrom` writes besides the tank: the turret, its
        abilities, the radar and the mine. */
    ghost function Parts(): set<object?> {
      {turret, radar, mine} + if turret != null then turret.Abilities() else {}
    }

    /** Neither a tank nor a player is among the objects hanging off a
        tank. */
    lemma PartsHoldNoOwner()
      ensures forall u: Tank :: u !in Parts()
      ensures forall u: Player :: u !in Parts()
      ensures forall x: object :: x in Parts() ==>
        x is Turret || x is RadarAbility || x is MineAbility || x is BulletAbility || x is LaserAbility ||
        x is StunBulletAbility
    {
    }

    /** `UpdateFrom`: the snapshot's position, direction, health and
        visibility, then its turret's state, then (non-STEREO) its item
        and radar and mine state. Where the snapshot lacks what this tank
        dereferences (`Fits`), a `NullReferenceException` is thrown at that
        point, after what comes before it was copied. */
    method UpdateFrom(s: TankSnapshot, stereo: bool) returns (o: Outcome)
      modifies this`x, this`y, this`direction, this`previousX, this`previousY, this`health,
        this`visibilityGrid, this`item, Parts()
      ensures o.Pass? <==> Fits(s, stereo)
      ensures o.Throw? ==> o.error == NullReference
      ensures x == s.x && y == s.y && direction == s.direction
      ensures previousX == s.previousX && previousY == s.previousY
      ensures health == s.health && visibilityGrid == s.visibilityGrid
      ensures turret != null ==> turret.direction == s.turret.direction && turret.tank == old(turret.tank)
      ensures o.Pass? ==> turret.Took(s.turret)
      ensures item == if !stereo && turret != null && turret.Fits(s.turret) then s.item else old(item)
      ensures o.Pass? && !stereo && radar != null ==>
        radar.isActive == s.radar.value.isActive &&
        radar.timer == if radar.stereo then s.radar.value.timer else old(radar.timer)
      ensures o.Pass? && !stereo && mine != null ==> mine.timer == if mine.stereo then s.mine.value.timer else old(mine.timer)
      ensures o.Pass? && !stereo ==> TookAbilities(s)
    {
      CopyState(s);
      if turret == null {
        return Throw(NullReference);
      }
      o := turret.UpdateFrom(s.turret);
      if o.Throw? || stereo {
        return;
      }
      item := s.item;
      if radar != null {
        if s.radar.None? {
          return Throw(NullReference);
        }
        radar.UpdateFrom(s.radar.value);
      }
      if mine != null {
        if s.mine.None? {
          return Throw(NullReference);
        }
        mine.UpdateFrom(s.mine.value);
      }
    }

    /** The tank's own fields copied by `UpdateFrom`. */
    method CopyState(s: TankSnapshot)
      modifies this`x, this`y, this`direction, this`previousX, this`previousY, this`health, this`visibilityGrid
      ensures x == s.x && y == s.y && direction == s.direction
      ensures previousX == s.previousX && previousY == s.previousY
      ensures health == s.health && visibilityGrid == s.visibilityGrid
    {
      previousX, previousY := s.previousX, s.previousY;
      x, y, direction := s.x, s.y, s.direction;
      health, visibilityGrid := s.health, s.visibilityGrid;
    }
  }

  /** A new turret holding the snapshot's direction and abilities, as the
      payload reader builds it; it points at no tank, and neither do its
      abilities. */
  method BuildTurret(s: TurretSnapshot, stereo: bool) returns (t: Turret)
    ensures fresh(t) && t.tank == null && t.Mirrors(s)
    ensures forall x :: x in t.Abilities() ==> x == null || fresh(x)
  {
    var b: BulletAbility? := null;
    if s.bullet.Some? {
      b := new BulletAbility(null);
      b.count, b.timer := s.bullet.value.count, s.bullet.value.timer;
    }
    var l: LaserAbility? := null;
    if s.laser.Some? {
      l := new LaserAbility(stereo, null);
      l.timer := s.laser.value.timer;
    }
    var u: StunBulletAbility? := null;
    if s.stunBullet.Some? {
      u := new StunBulletAbility(null);
      u.timer := s.stunBullet.value.timer;
    }
    t := new Turret.Holding(s.direction, b, l, u);
  }

  // ---------------------------------------------------------------------
  // Turret

  class Turret {
    var direction: Direction
    var tank: Tank?
    /** The abilities are set while the turret is built and never
        replaced. */
    const bullet: BulletAbility?
    /** Non-STEREO only. */
    const laser: LaserAbility?
    /** STEREO only. */
    const stunBullet: StunBulletAbility?

    constructor (direction: Direction)
      ensures this.direction == direction && tank == null
      ensures bullet == null && laser == null && stunBullet == null
    {
      this.direction := direction;
      tank := null;
      bullet := null;
      laser := null;
      stunBullet := null;
    }

    /** A turret built with the given abilities, pointing at no tank. */
    constructor Holding(direction: Direction, bullet: BulletAbility?, laser: LaserAbility?,
                        stunBullet: StunBulletAbility?)
      ensures this.direction == direction && tank == null
      ensures this.bullet == bullet && this.laser == laser && this.stunBullet == stunBullet
    {
      this.direction := direction;
      tank := null;
      this.bullet := bullet;
      this.laser := laser;
      this.stunBullet := stunBullet;
    }

    /** The turret holds exactly the snapshot's direction and abilities. */
    predicate Mirrors(s: TurretSnapshot)
      reads this`direction, bullet, laser, stunBullet
    {
      direction == s.direction &&
      (bullet != null <==> s.bullet.Some?) && (bullet != null ==> Magazine(bullet.count, bullet.timer) == s.bullet.value) &&
      (laser != null <==> s.laser.Some?) && (laser != null ==> laser.timer == s.laser.value.timer) &&
      (stunBullet != null <==> s.stunBullet.Some?) && (stunBullet != null ==> stunBullet.timer == s.stunBullet.value.timer)
    }

    /** The snapshot has every ability this turret has, so `UpdateFrom`
        dereferences no null. */
    predicate Fits(s: TurretSnapshot) {
      (bullet != null ==> s.bullet.Some?) && (laser != null ==> s.laser.Some?) &&
      (stunBullet != null ==> s.stunBullet.Some?)
    }

    /** Every ability of this turret took the snapshot's state (a laser
        only its STEREO countdown). */
    predicate Took(s: TurretSnapshot)
      reads this`direction, bullet, laser, stunBullet
    {
      direction == s.direction && Fits(s) &&
      (bullet != null ==> Magazine(bullet.count, bullet.timer) == s.bullet.value) &&
      (laser != null && laser.stereo ==> laser.timer == s.laser.value.timer) &&
      (stunBullet != null ==> stunBullet.timer == s.stunBullet.value.timer)
    }

    ghost function Abilities(): set<object?> {
      {bullet, laser, stunBullet}
    }

    /** `UpdateFrom`: the direction, then every ability present, in the
        order bullet, laser, stun bullet; an ability the snapshot lacks
        throws a `NullReferenceException` before the ones after it. */
    method UpdateFrom(s: TurretSnapshot) returns (o: Outcome)
      modifies this`direction, bullet, laser, stunBullet
      ensures o.Pass? <==> Fits(s)
      ensures o.Throw? ==> o.error == NullReference
      ensures direction == s.direction
      ensures bullet != null && s.bullet.Some? ==> Magazine(bullet.count, bullet.timer) == s.bullet.value
      ensures o.Pass? && laser != null ==> laser.timer == if laser.stereo then s.laser.value.timer else old(laser.timer)
      ensures o.Pass? && stunBullet != null ==> stunBullet.timer == s.stunBullet.value.timer
      ensures o.Pass? ==> Took(s)
      ensures bullet != null && s.bullet.None? ==>
        (laser != null ==> laser.timer == old(laser.timer)) && (stunBullet != null ==> stunBullet.timer == old(stunBullet.timer))
    {
      direction := s.direction;
      if bullet != null {
        if s.bullet.None? {
          return Throw(NullReference);
        }
        bullet.UpdateFrom(s.bullet.value);
      }
      if laser != null {
        if s.laser.None? {
          return Throw(NullReference);
        }
        laser.UpdateFrom(s.laser.value);
      }
      if stunBullet != null {
        if s.stunBullet.None? {
          return Throw(NullReference);
        }
        stunBullet.UpdateFrom(s.stunBullet.value);
      }
      o := Pass;
    }
  }

  // ---------------------------------------------------------------------
  // BulletAbility

  /** The state of a bullet ability: bullets in hand and the reload
      countdown. */
  datatype Magazine = Magazine(count: int, timer: Option<int>)

  /** `BulletAbility.RegenerateTick` on the state: nothing at full count;
      otherwise the countdown runs, and when it runs out one bullet comes
      back and the countdown restarts unless the magazine is full. */
  function Reloaded(m: Magazine): (r: Magazine)
    ensures m.count == MaxBullets ==> r == m
    ensures r.count == m.count || r.count == m.count + 1
    ensures r.count == m.count + 1 <==> m.count != MaxBullets && UpdateRegenerationProcess(m.timer).None?
    ensures 0 <= m.count <= MaxBullets ==> 0 <= r.count <= MaxBullets
    ensures r.count != m.count ==> (r.timer.None? <==> r.count >= MaxBullets)
  {
    if m.count == MaxBullets then m
    else
      var t := UpdateRegenerationProcess(m.timer);
      if t.None? then Magazine(m.count + 1, if m.count + 1 < MaxBullets then Some(BulletRegenerationTicks) else None)
      else Magazine(m.count, t)
  }

  /** `BulletAbility.RegenerateFull` on the state: one bullet more (not a
      refill), and the countdown cleared only once the magazine is full. */
  function Refilled(m: Magazine): (r: Magazine)
    ensures m.count < MaxBullets ==> r.count == m.count + 1
    ensures m.count >= MaxBullets ==> r == m
    ensures 0 <= m.count <= MaxBullets ==> 0 <= r.count <= MaxBullets
    ensures r.timer != m.timer ==> r.timer.None? && r.count == MaxBullets
  {
    if m.count < MaxBullets then
      Magazine(m.count + 1, if m.count + 1 >= MaxBullets then None else m.timer)
    else m
  }

  /** `n` regeneration ticks. */
  function ReloadedN(m: Magazine, n: nat): Magazine
    decreases n
  {
    if n == 0 then m else ReloadedN(Reloaded(m), n - 1)
  }

  /** A bullet spent below a full magazine comes back after exactly
      `BulletRegenerationTicks` ticks: the count is unchanged before, one
      higher then, and the countdown restarts unless the magazine is
      full. */
  lemma {:induction false} BulletComesBack(c: int, n: nat)
    requires 0 <= c < MaxBullets
    ensures n < BulletRegenerationTicks ==> ReloadedN(Magazine(c, Some(BulletRegenerationTicks)), n) == Magazine(c, Some(BulletRegenerationTicks - n))
    ensures ReloadedN(Magazine(c, Some(BulletRegenerationTicks)), BulletRegenerationTicks) ==
      Magazine(c + 1, if c + 1 < MaxBullets then Some(BulletRegenerationTicks) else None)
  {
    Countdown(c, BulletRegenerationTicks, n);
    Countdown(c, BulletRegenerationTicks, BulletRegenerationTicks);
  }

  lemma {:induction false} Countdown(c: int, t: int, n: nat)
    requires 0 <= c < MaxBullets && t >= 1
    ensures n < t ==> ReloadedN(Magazine(c, Some(t)), n) == Magazine(c, Some(t - n))
    ensures n == t ==>
      ReloadedN(Magazine(c, Some(t)), n) == Magazine(c + 1, if c + 1 < MaxBullets then Some(BulletRegenerationTicks) else None)
  {
    if n > 0 && n <= t {
      if t == 1 {
        assert Reloaded(Magazine(c, Some(1))) == Magazine(c + 1, if c + 1 < MaxBullets then Some(BulletRegenerationTicks) else None);
      } else {
        assert Reloaded(Magazine(c, Some(t))) == Magazine(c, Some(t - 1));
        Countdown(c, t - 1, n - 1);
      }
    }
  }

  /** A magazine below full with no countdown (a state only an
      initialiser can make) gains a bullet on the very next tick. */
  lemma {:induction false} NullTimerReloadsAtOnce(c: int)
    requires c < MaxBullets
    ensures Reloaded(Magazine(c, None)).count == c + 1
  {
  }

  class BulletAbility {
    var count: int
    var timer: Option<int>
    var turret: Turret?

    constructor (turret: Turret?)
      ensures count == MaxBullets && timer.None? && this.turret == turret
    {
      count := MaxBullets;
      timer := None;
      this.turret := turret;
    }

    /** The `Count` initialiser: only 0 to `MaxBullets`. */
    method InitCount(value: int) returns (o: Outcome)
      modifies this`count
      ensures o.Throw? <==> value < 0 || value > MaxBullets
      ensures o.Throw? ==> o.error == ArgumentOutOfRange && count == old(count)
      ensures o.Pass? ==> count == value
    {
      if value < 0 || value > MaxBullets {
        return Throw(ArgumentOutOfRange);
      }
      count := value;
      return Pass;
    }

    /** The `RemainingRegenerationTicks` initialiser. */
    method InitTimer(value: Option<int>) returns (o: Outcome)
      modifies this`timer
      ensures o == CheckTimer(value)
      ensures timer == if o.Pass? then value else old(timer)
    {
      o := CheckTimer(value);
      if o.Pass? {
        timer := value;
      }
    }

    /** `CanUse`: a live tank, a bullet in hand, and no stun blocking
        ability use. */
    predicate CanUse(stun: StunSystem)
      requires turret != null && turret.tank != null
      reads this, turret, turret.tank, stun
    {
      !turret.tank.IsDead() && count > 0 && !stun.IsBlocked(turret.tank.ownerId, AbilityUseBlock)
    }

    method Use()
      modifies this`count, this`timer
      ensures count == old(count) - 1 && timer == Some(BulletRegenerationTicks)
    {
      count := count - 1;
      timer := Some(BulletRegenerationTicks);
    }

    method RegenerateTick()
      modifies this`count, this`timer
      ensures Magazine(count, timer) == Reloaded(old(Magazine(count, timer)))
    {
      if count == MaxBullets {
        return;
      }
      timer := UpdateRegenerationProcess(timer);
      if timer.None? {
        count := count + 1;
        timer := if count < MaxBullets then Some(BulletRegenerationTicks) else None;
      }
    }

    method RegenerateFull()
      modifies this`count, this`timer
      ensures Magazine(count, timer) == Refilled(old(Magazine(count, timer)))
    {
      if count < MaxBullets {
        count := count + 1;
        if count >= MaxBullets {
          timer := None;
        }
      }
    }

    method UpdateFrom(s: Magazine)
      modifies this`count, this`timer
      ensures count == s.count && timer == s.timer
    {
      count := s.count;
      timer := s.timer;
    }
  }

  // ---------------------------------------------------------------------
  // RadarAbility

  /** The double bullet ability of a turret. `DoubleBulletAbility.cs` is
      not part of this model: whether the ability can be used is the field
      `usable`, and `Use` only counts how often it is used. */
  class DoubleBulletAbility {
    var turret: Turret?
    var usable: bool
    var uses: nat

    constructor (turret: Turret?, usable: bool)
      ensures this.turret == turret && this.usable == usable && uses == 0
    {
      this.turret := turret;
      this.usable := usable;
      uses := 0;
    }

    /** `Use`, as far as it is known here: one more use. */
    method Use()
      modifies this`uses
      ensures uses == old(uses) + 1
    {
      uses := uses + 1;
    }
  }

  class RadarAbility {
    const stereo: bool
    var isActive: bool
    /** STEREO only. */
    var timer: Option<int>
    var tank: Tank?

    constructor (stereo: bool, tank: Tank?)
      ensures this.stereo == stereo && this.tank == tank && !isActive && timer.None?
    {
      this.stereo := stereo;
      this.tank := tank;
      isActive := false;
      timer := None;
    }

    /** `CanUse`: a live tank; in STEREO builds a finished countdown,
        otherwise a radar in the tank's hands; and no stun blocking
        ability use. */
    predicate CanUse(stun: StunSystem)
      requires tank != null
      reads this, tank, stun
    {
      !tank.IsDead() &&
      (if stereo then timer.None? else tank.item == Some(RadarItem)) &&
      !stun.IsBlocked(tank.ownerId, AbilityUseBlock)
    }

    method InitTimer(value: Option<int>) returns (o: Outcome)
      modifies this`timer
      ensures o == CheckTimer(value)
      ensures timer == if o.Pass? then value else old(timer)
    {
      o := CheckTimer(value);
      if o.Pass? {
        timer := value;
      }
    }

    /** `Use`: the radar becomes active; in STEREO builds the countdown
        starts, otherwise the tank gives up its item. */
    method Use()
      requires tank != null
      modifies this`isActive, this`timer, tank`item
      ensures isActive
      ensures stereo ==> timer == Some(RadarRegenerationTicks) && tank.item == old(tank.item)
      ensures !stereo ==> timer == old(timer) && tank.item.None?
    {
      isActive := true;
      if stereo {
        timer := Some(RadarRegenerationTicks);
      } else {
        tank.item := None;
      }
    }

    /** `Reset`: inactive again; the countdown is left alone. */
    method Reset()
      modifies this`isActive
      ensures !isActive
    {
      isActive := false;
    }

    method RegenerateTick()
      modifies this`timer
      ensures timer == UpdateRegenerationProcess(old(timer))
    {
      timer := UpdateRegenerationProcess(timer);
    }

    method RegenerateFull()
      modifies this`timer
      ensures timer.None?
    {
      timer := None;
    }

    /** `UpdateFrom`: the active flag, and in STEREO builds the
        countdown. */
    method UpdateFrom(s: RadarSnapshot)
      modifies this`isActive, this`timer
      ensures isActive == s.isActive
      ensures timer == if stereo then s.timer else old(timer)
    {
      isActive := s.isActive;
      if stereo {
        timer := s.timer;
      }
    }
  }

  // ---------------------------------------------------------------------
  // LaserAbility

  class LaserAbility {
    const stereo: bool
    /** STEREO only. */
    var timer: Option<int>
    var turret: Turret?

    constructor (stereo: bool, turret: Turret?)
      ensures this.stereo == stereo && this.turret == turret && timer.None?
    {
      this.stereo := stereo;
      this.turret := turret;
      timer := None;
    }

    /** `CanUse`: a live tank; in STEREO builds a finished countdown,
        otherwise a laser in the tank's hands; and no stun blocking
        ability use. */
    predicate CanUse(stun: StunSystem)
      requires turret != null && turret.tank != null
      reads this, turret, turret.tank, stun
    {
      !turret.tank.IsDead() &&
      (if stereo then timer.None? else turret.tank.item == Some(LaserItem)) &&
      !stun.IsBlocked(turret.tank.ownerId, AbilityUseBlock)
    }

    method InitTimer(value: Option<int>) returns (o: Outcome)
      modifies this`timer
      ensures o == CheckTimer(value)
      ensures timer == if o.Pass? then value else old(timer)
    {
      o := CheckTimer(value);
      if o.Pass? {
        timer := value;
      }
    }

    /** `Use`: in STEREO builds the countdown starts, otherwise the tank
        gives up its item. */
    method Use()
      requires turret != null && turret.tank != null
      modifies this`timer, turret.tank`item
      ensures stereo ==> timer == Some(LaserRegenerationTicks) && turret.tank.item == old(turret.tank.item)
      ensures !stereo ==> timer == old(timer) && turret.tank.item.None?
    {
      if stereo {
        timer := Some(LaserRegenerationTicks);
      } else {
        turret.tank.item := None;
      }
    }

    method RegenerateTick()
      modifies this`timer
      ensures timer == UpdateRegenerationProcess(old(timer))
    {
      timer := UpdateRegenerationProcess(timer);
    }

    method RegenerateFull()
      modifies this`timer
      ensures timer.None?
    {
      timer := None;
    }

    /** `UpdateFrom`: only the STEREO countdown. */
    method UpdateFrom(s: AbilitySnapshot)
      modifies this`timer
      ensures timer == if stereo then s.timer else old(timer)
    {
      if stereo {
        timer := s.timer;
      }
    }
  }

  // ---------------------------------------------------------------------
  // MineAbility

  class MineAbility {
    const stereo: bool
    /** STEREO only. */
    var timer: Option<int>
    var tank: Tank?

    constructor (stereo: bool, tank: Tank?)
      ensures this.stereo == stereo && this.tank == tank && timer.None?
    {
      this.stereo := stereo;
      this.tank := tank;
      timer := None;
    }

    /** `CanUse`: a live tank; in STEREO builds a finished countdown,
        otherwise a mine in the tank's hands; and no stun blocking ability
        use. */
    predicate CanUse(stun: StunSystem)
      requires tank != null
      reads this, tank, stun
    {
      !tank.IsDead() &&
      (if stereo then timer.None? else tank.item == Some(MineItem)) &&
      !stun.IsBlocked(tank.ownerId, AbilityUseBlock)
    }

    method InitTimer(value: Option<int>) returns (o: Outcome)
      modifies this`timer
      ensures o == CheckTimer(value)
      ensures timer == if o.Pass? then value else old(timer)
    {
      o := CheckTimer(value);
      if o.Pass? {
        timer := value;
      }
    }

    /** `Use`: in STEREO builds the countdown starts, otherwise the tank
        gives up its item. */
    method Use()
      requires tank != null
      modifies this`timer, tank`item
      ensures stereo ==> timer == Some(MineRegenerationTicks) && tank.item == old(tank.item)
      ensures !stereo ==> timer == old(timer) && tank.item.None?
    {
      if stereo {
        timer := Some(MineRegenerationTicks);
      } else {
        tank.item := None;
      }
    }

    method RegenerateTick()
      modifies this`timer
      ensures timer == UpdateRegenerationProcess(old(timer))
    {
      timer := UpdateRegenerationProcess(timer);
    }

    method RegenerateFull()
      modifies this`timer
      ensures timer.None?
    {
      timer := None;
    }

    /** `UpdateFrom`: only the STEREO countdown. */
    method UpdateFrom(s: AbilitySnapshot)
      modifies this`timer
      ensures timer == if stereo then s.timer else old(timer)
    {
      if stereo {
        timer := s.timer;
      }
    }
  }

  // ---------------------------------------------------------------------
  // StunBulletAbility (STEREO only)

  class StunBulletAbility {
    var timer: Option<int>
    var turret: Turret?

    constructor (turret: Turret?)
      ensures this.turret == turret && timer.None?
    {
      this.turret := turret;
      timer := None;
    }

    /** `CanUse`: a live tank, a finished countdown and no stun blocking
        ability use. */
    predicate CanUse(stun: StunSystem)
      requires turret != null && turret.tank != null
      reads this, turret, turret.tank, stun
    {
      !turret.tank.IsDead() && timer.None? && !stun.IsBlocked(turret.tank.ownerId, AbilityUseBlock)
    }

    method InitTimer(value: Option<int>) returns (o: Outcome)
      modifies this`timer
      ensures o == CheckTimer(value)
      ensures timer == if o.Pass? then value else old(timer)
    {
      o := CheckTimer(value);
      if o.Pass? {
        timer := value;
      }
    }

    method Use()
      modifies this`timer
      ensures timer == Some(StunBulletRegenerationTicks)
    {
      timer := Some(StunBulletRegenerationTicks);
    }

    method RegenerateTick()
      modifies this`timer
      ensures timer == UpdateRegenerationProcess(old(timer))
    {
      timer := UpdateRegenerationProcess(timer);
    }

    method RegenerateFull()
      modifies this`timer
      ensures timer.None?
    {
      timer := None;
    }

    method UpdateFrom(s: AbilitySnapshot)
      modifies this`timer
      ensures timer == s.timer
    {
      timer := s.timer;
    }
  }

  /** After `Use`, an ability with a countdown of `total` ticks stays
      unusable for exactly `total` regeneration ticks (its timer is
      non-null for fewer ticks and null after `total`). */
  lemma {:induction false} CooldownAfterUse(total: int, n: nat)
    requires total == RadarRegenerationTicks || total == LaserRegenerationTicks ||
             total == MineRegenerationTicks || total == StunBulletRegenerationTicks
    ensures Ticks(Some(total), n).None? <==> n >= total
  {
    CountdownLength(total, n);
  }

  // ---------------------------------------------------------------------
  // Team (STEREO only)

  class Team {
    const name: string
    var score: int
    var players: seq<Player>

    constructor (name: string)
      ensures this.name == name && score == 0 && players == []
    {
      this.name := name;
      score := 0;
      players := [];
    }

    /** `Equals`: teams are the same team when their names are. */
    predicate Equals(other: Team?) {
      other != null && other.name == name
    }

    method AddPlayer(p: Player)
      modifies this`players
      ensures players == old(players) + [p]
    {
      players := players + [p];
    }

    /** `RemovePlayer`: `List.Remove` with player equality, so the first
        player with the same id goes; the result says whether one did. */
    method RemovePlayer(p: Player) returns (removed: bool)
      modifies this`players
      ensures removed <==> exists i :: 0 <= i < |old(players)| && old(players)[i].id == p.id
      ensures players == RemoveFirst(old(players), p.id)
    {
      var i := 0;
      while i < |players| && players[i].id != p.id
        invariant 0 <= i <= |players|
        invariant forall k :: 0 <= k < i ==> players[k].id != p.id
      {
        i := i + 1;
      }
      removed := i < |players|;
      RemoveFirstAt(players, p.id, i);
      if removed {
        players := players[..i] + players[i + 1..];
      }
    }

    /** `CombinedVisibilityGrid`: null when no member's tank has a grid;
        otherwise a grid sized by the first such grid, each cell true when
        some member's grid is true there. A member grid smaller than that
        size makes the indexing throw. */
    method CombinedVisibilityGrid() returns (r: Result<Option<array2<bool>>>)
      requires forall p :: p in players ==> p.tank != null
      ensures r.Fail? <==> !AllFit(GridsOf(players))
      ensures r.Fail? ==> r.error == IndexOutOfRange
      ensures r.Ok? ==> (r.value.None? <==> FirstGrid(GridsOf(players)).None?)
      ensures r.Ok? && r.value.Some? ==> fresh(r.value.value) && Combined(r.value.value, GridsOf(players))
    {
      var grids := GridsOf(players);
      r := Combine(grids);
    }
  }

  /** The loop of `CombinedVisibilityGrid` over the members' grids. */
  method Combine(grids: seq<Option<seq<seq<bool>>>>) returns (r: Result<Option<array2<bool>>>)
    ensures r.Fail? <==> !AllFit(grids)
    ensures r.Fail? ==> r.error == IndexOutOfRange
    ensures r.Ok? ==> (r.value.None? <==> FirstGrid(grids).None?)
    ensures r.Ok? && r.value.Some? ==> fresh(r.value.value) && Combined(r.value.value, grids)
  {
    var grid: array2?<bool> := null;
    for i := 0 to |grids|
      invariant grid == null <==> FirstGrid(grids[..i]).None?
      invariant grid != null ==> fresh(grid) && Combined(grid, grids[..i])
      invariant AllFit(grids[..i])
    {
      assert grids[..i + 1] == grids[..i] + [grids[i]];
      var ok;
      grid, ok := Fold(grid, grids[i], grids[..i]);
      if !ok {
        AllFitPrefix(grids, i + 1);
        return Fail(IndexOutOfRange);
      }
    }
    assert grids[..|grids|] == grids;
    if grid == null {
      return Ok(None);
    }
    return Ok(Some(grid));
  }

  /** `players` without its first player with id `id`. */
  function RemoveFirst(players: seq<Player>, id: string): seq<Player> {
    if |players| == 0 then []
    else if players[0].id == id then players[1..]
    else [players[0]] + RemoveFirst(players[1..], id)
  }

  lemma {:induction false} RemoveFirstAt(players: seq<Player>, id: string, i: int)
    requires 0 <= i <= |players|
    requires forall k :: 0 <= k < i ==> players[k].id != id
    requires i < |players| ==> players[i].id == id
    ensures i < |players| ==> RemoveFirst(players, id) == players[..i] + players[i + 1..]
    ensures i == |players| ==> RemoveFirst(players, id) == players
  {
    if i > 0 {
      var rest := players[1..];
      assert players[0].id != id;
      assert forall k :: 0 <= k < i - 1 ==> rest[k].id != id by {
        forall k | 0 <= k < i - 1 ensures rest[k].id != id {
          assert rest[k] == players[k + 1];
        }
      }
      RemoveFirstAt(rest, id, i - 1);
      assert RemoveFirst(players, id) == [players[0]] + RemoveFirst(rest, id);
      if i < |players| {
        assert players[..i] == [players[0]] + rest[..i - 1];
        assert players[i + 1..] == rest[i..];
      } else {
        assert players == [players[0]] + rest;
      }
    } else if |players| > 0 {
      assert players[..0] + players[1..] == players[1..];
    }
  }

  /** The visibility grid of each player's tank, in order. */
  function GridsOf(ps: seq<Player>): (r: seq<Option<seq<seq<bool>>>>)
    requires forall p :: p in ps ==> p.tank != null
    reads set p | p in ps, set p | p in ps :: p.tank
    ensures |r| == |ps| && forall i :: 0 <= i < |ps| ==> r[i] == ps[i].tank.visibilityGrid
  {
    if |ps| == 0 then [] else [ps[0].tank.visibilityGrid] + GridsOf(ps[1..])
  }

  /** The first grid present, if any. */
  function FirstGrid(grids: seq<Option<seq<seq<bool>>>>): (r: Option<seq<seq<bool>>>)
    ensures r.None? <==> forall i :: 0 <= i < |grids| ==> grids[i].None?
    ensures r.Some? ==> exists i :: 0 <= i < |grids| && grids[i] == r
  {
    if |grids| == 0 then None
    else if grids[0].Some? then grids[0]
    else
      var r := FirstGrid(grids[1..]);
      assert forall i :: 1 <= i < |grids| ==> grids[i] == grids[1..][i - 1];
      r
  }

  /** Grid `g` covers a square of side `dim`. */
  predicate Fits(g: seq<seq<bool>>, dim: int) {
    |g| >= dim && forall x :: 0 <= x < dim ==> |g[x]| >= dim
  }

  /** Every present grid covers the first one's square. */
  predicate AllFit(grids: seq<Option<seq<seq<bool>>>>) {
    FirstGrid(grids).None? ||
    forall i :: 0 <= i < |grids| && grids[i].Some? ==> Fits(grids[i].value, |FirstGrid(grids).value|)
  }

  /** Some present grid is true at (x, y). */
  predicate SeenBy(grids: seq<Option<seq<seq<bool>>>>, x: int, y: int) {
    exists i :: 0 <= i < |grids| && grids[i].Some? && 0 <= x < |grids[i].value| &&
      0 <= y < |grids[i].value[x]| && grids[i].value[x][y]
  }

  /** `g` is the combination of `grids`: the first grid's size, each cell
      true exactly when some grid is true there. */
  ghost predicate Combined(g: array2<bool>, grids: seq<Option<seq<seq<bool>>>>)
    reads g
  {
    FirstGrid(grids).Some? && g.Length0 == g.Length1 == |FirstGrid(grids).value| &&
    forall x, y :: 0 <= x < g.Length0 && 0 <= y < g.Length1 ==> (g[x, y] <==> SeenBy(grids, x, y))
  }

  lemma {:induction false} FirstGridAppend(a: seq<Option<seq<seq<bool>>>>, b: seq<Option<seq<seq<bool>>>>)
    ensures FirstGrid(a).Some? ==> FirstGrid(a + b) == FirstGrid(a)
    ensures FirstGrid(a).None? ==> FirstGrid(a + b) == FirstGrid(b)
  {
    if |a| > 0 {
      assert (a + b)[0] == a[0] && (a + b)[1..] == a[1..] + b;
      FirstGridAppend(a[1..], b);
    } else {
      assert a + b == b;
    }
  }

  /** A prefix of grids that all fit still all fit. */
  lemma {:induction false} AllFitPrefix(grids: seq<Option<seq<seq<bool>>>>, k: int)
    requires 0 <= k <= |grids|
    ensures AllFit(grids) ==> AllFit(grids[..k])
  {
    assert grids == grids[..k] + grids[k..];
    FirstGridAppend(grids[..k], grids[k..]);
  }

  lemma {:induction false} FirstGridNone(grids: seq<Option<seq<seq<bool>>>>, g: Option<seq<seq<bool>>>)
    requires g.None?
    ensures FirstGrid(grids + [g]) == FirstGrid(grids)
    ensures AllFit(grids) ==> AllFit(grids + [g])
    ensures forall x, y :: SeenBy(grids + [g], x, y) <==> SeenBy(grids, x, y)
  {
    var all := grids + [g];
    assert forall i :: 0 <= i < |grids| ==> all[i] == grids[i];
    FirstGridAppend(grids, [g]);
    forall x, y ensures SeenBy(all, x, y) <==> SeenBy(grids, x, y) {
      if SeenBy(all, x, y) {
        var i :| 0 <= i < |all| && all[i].Some? && 0 <= x < |all[i].value| && 0 <= y < |all[i].value[x]| && all[i].value[x][y];
        assert grids[i] == all[i];
      }
      if SeenBy(grids, x, y) {
        var i :| 0 <= i < |grids| && grids[i].Some? && 0 <= x < |grids[i].value| && 0 <= y < |grids[i].value[x]| && grids[i].value[x][y];
        assert all[i] == grids[i];
      }
    }
  }

  lemma {:induction false} FirstGridSome(grids: seq<Option<seq<seq<bool>>>>, g: Option<seq<seq<bool>>>, dim: int)
    requires g.Some?
    requires FirstGrid(grids).Some? ==> dim == |FirstGrid(grids).value|
    requires FirstGrid(grids).None? ==> dim == |g.value|
    ensures FirstGrid(grids + [g]).Some? && |FirstGrid(grids + [g]).value| == dim
    ensures AllFit(grids + [g]) <==> AllFit(grids) && Fits(g.value, dim)
    ensures FirstGrid(grids).None? ==> forall x, y :: !SeenBy(grids, x, y)
    ensures forall x, y :: 0 <= x < dim && 0 <= y < dim && Fits(g.value, dim) ==>
      (SeenBy(grids + [g], x, y) <==> SeenBy(grids, x, y) || g.value[x][y])
  {
    var all := grids + [g];
    FirstGridAppend(grids, [g]);
    assert forall i :: 0 <= i < |grids| ==> all[i] == grids[i];
    assert all[|grids|] == g;
    forall x, y | 0 <= x < dim && 0 <= y < dim && Fits(g.value, dim)
      ensures SeenBy(all, x, y) <==> SeenBy(grids, x, y) || g.value[x][y]
    {
      if SeenBy(all, x, y) {
        var i :| 0 <= i < |all| && all[i].Some? && 0 <= x < |all[i].value| && 0 <= y < |all[i].value[x]| && all[i].value[x][y];
        if i < |grids| {
          assert grids[i] == all[i];
        }
      }
      if SeenBy(grids, x, y) {
        var i :| 0 <= i < |grids| && grids[i].Some? && 0 <= x < |grids[i].value| && 0 <= y < |grids[i].value[x]| && grids[i].value[x][y];
        assert all[i] == grids[i];
      }
    }
  }

  /** One step of `CombinedVisibilityGrid`: fold one member's grid into the
      combination so far; false when it is too small for it. */
  method Fold(grid: array2?<bool>, vis: Option<seq<seq<bool>>>, ghost done: seq<Option<seq<seq<bool>>>>)
      returns (g: array2?<bool>, ok: bool)
    requires grid == null <==> FirstGrid(done).None?
    requires grid != null ==> Combined(grid, done)
    requires AllFit(done)
    modifies grid
    ensures ok <==> AllFit(done + [vis])
    ensures g == null <==> FirstGrid(done + [vis]).None?
    ensures g != null ==> g == grid || fresh(g)
    ensures ok && g != null ==> Combined(g, done + [vis])
  {
    if vis.None? {
      FirstGridNone(done, vis);
      return grid, true;
    }
    g := grid;
    if g == null {
      g := new bool[|vis.value|, |vis.value|]((x, y) => false);
    }
    FirstGridSome(done, vis, g.Length0);
    ok := OrInto(g, vis.value);
  }

  /** The nested loop of `CombinedVisibilityGrid`: OR one member's grid
      into the combined one; false when the member's grid is too small
      (the C# indexing throws there). */
  method OrInto(grid: array2<bool>, vis: seq<seq<bool>>) returns (ok: bool)
    requires grid.Length0 == grid.Length1
    modifies grid
    ensures ok <==> Fits(vis, grid.Length0)
    ensures ok ==> forall x, y :: 0 <= x < grid.Length0 && 0 <= y < grid.Length1 ==>
      grid[x, y] == (old(grid[x, y]) || vis[x][y])
  {
    var dim := grid.Length0;
    if !(|vis| >= dim) {
      return false;
    }
    var x := 0;
    while x < dim
      invariant 0 <= x <= dim
      invariant forall a :: 0 <= a < x ==> |vis[a]| >= dim
      invariant forall a, b :: 0 <= a < x && 0 <= b < dim ==> grid[a, b] == (old(grid[a, b]) || vis[a][b])
      invariant forall a, b :: x <= a < dim && 0 <= b < dim ==> grid[a, b] == old(grid[a, b])
    {
      if |vis[x]| < dim {
        return false;
      }
      var y := 0;
      while y < dim
        invariant 0 <= y <= dim
        invariant forall a, b :: 0 <= a < x && 0 <= b < dim ==> grid[a, b] == (old(grid[a, b]) || vis[a][b])
        invariant forall b :: 0 <= b < y ==> grid[x, b] == (old(grid[x, b]) || vis[x][b])
        invariant forall b :: y <= b < dim ==> grid[x, b] == old(grid[x, b])
        invariant forall a, b :: x < a < dim && 0 <= b < dim ==> grid[a, b] == old(grid[a, b])
      {
        grid[x, y] := grid[x, y] || vis[x][y];
        y := y + 1;
      }
      x := x + 1;
    }
    return true;
  }

  // ---------------------------------------------------------------------
  // Identity

  /** Player equality compares ids only, so it is an equivalence and two
      players with one id are equal whatever their scores. */
  lemma {:induction false} PlayerEqualsIsEquivalence(a: Player, b: Player, c: Player)
    ensures a.Equals(a)
    ensures a.Equals(b) <==> b.Equals(a)
    ensures a.Equals(b) && b.Equals(c) ==> a.Equals(c)
    ensures a.Equals(b) <==> a.id == b.id
    ensures !a.Equals(null)
  {
  }

  /** Tank equality compares the owners' ids only: an equivalence under
      which a snapshot equals the grid's tank of the same player. */
  lemma {:induction false} TankEqualsIsEquivalence(a: Tank, b: Tank, c: Tank)
    ensures a.Equals(a)
    ensures a.Equals(b) <==> b.Equals(a)
    ensures a.Equals(b) && b.Equals(c) ==> a.Equals(c)
    ensures a.Equals(b) <==> a.ownerId == b.ownerId
    ensures !a.Equals(null)
  {
  }

  /** Team equality compares names only, so it is an equivalence. */
  lemma {:induction false} TeamEqualsIsEquivalence(a: Team, b: Team, c: Team)
    ensures a.Equals(a)
    ensures a.Equals(b) <==> b.Equals(a)
    ensures a.Equals(b) && b.Equals(c) ==> a.Equals(c)
    ensures a.Equals(b) <==> a.name == b.name
    ensures !a.Equals(null)
  {
  }

}
