/** `DespawnSystem.RemoveTank` (non-STEREO builds): the tank of a leaving
    player drops its item, the player's buffered healing, score and zone
    progress go, and the tank, the player's bullets, lasers and mines leave
    the grid. */
module LogicDespawn {
  import opened Wrappers
  import opened LogicTanks
  import opened LogicBullets
  import opened LogicLasers
  import opened LogicMines
  import opened LogicZones
  import opened LogicGrid
  import opened LogicHeal
  import opened LogicScore
  import opened LogicZoneSystem
  import opened LogicItemDrop
  import opened LogicCells
  import opened LogicFlood

  /** `FirstOrDefault(t => t.Owner.Equals(owner))`: the first tank whose
      owner is the player with this id. */
  function FirstOwned(tanks: seq<Tank>, id: string): (r: Option<nat>)
    reads set t | t in tanks
    ensures r.Some? ==> r.value < |tanks| && tanks[r.value].owner.id == id
    ensures r.Some? ==> forall k :: 0 <= k < r.value ==> tanks[k].owner.id != id
    ensures r.None? ==> forall k :: 0 <= k < |tanks| ==> tanks[k].owner.id != id
  {
    if tanks == [] then None
    else if tanks[0].owner.id == id then Some(0)
    else
      match FirstOwned(tanks[1..], id)
      case None => None
      case Some(k) => Some(k + 1)
  }

  /** The first tank equal to `tank`: tanks are equal when their owner ids
      are. */
  function FirstEqual(tanks: seq<Tank>, tank: Tank): (r: Option<nat>)
    ensures r.Some? ==> r.value < |tanks| && tanks[r.value].Equals(tank)
    ensures r.Some? ==> forall k :: 0 <= k < r.value ==> !tanks[k].Equals(tank)
    ensures r.None? ==> forall k :: 0 <= k < |tanks| ==> !tanks[k].Equals(tank)
  {
    if tanks == [] then None
    else if tanks[0].Equals(tank) then Some(0)
    else
      match FirstEqual(tanks[1..], tank)
      case None => None
      case Some(k) => Some(k + 1)
  }

  /** `List<Tank>.Remove(tank)`: the first tank equal to it goes. */
  function RemoveEqual(tanks: seq<Tank>, tank: Tank): (r: seq<Tank>)
  {
    match FirstEqual(tanks, tank)
    case None => tanks
    case Some(i) => tanks[..i] + tanks[i + 1..]
  }

  /** When every tank's owner id is its owner's id, removing the tank
      found for a player removes exactly that tank, and every other tank
      stays, in order. */
  lemma {:induction false} RemovesFoundTank(tanks: seq<Tank>, id: string)
    requires forall k :: 0 <= k < |tanks| ==> tanks[k].ownerId == tanks[k].owner.id
    requires FirstOwned(tanks, id).Some?
    ensures var i := FirstOwned(tanks, id).value;
      RemoveEqual(tanks, tanks[i]) == tanks[..i] + tanks[i + 1..]
  {
    var i := FirstOwned(tanks, id).value;
    var j := FirstEqual(tanks, tanks[i]);
    assert tanks[i].Equals(tanks[i]);
    assert j.Some? && j.value <= i;
  }

  /** `b.Shooter?.Equals(owner) ?? false`. */
  predicate BulletBy(b: Bullet, id: string)
    reads b
  {
    b.shooter != null && b.shooter.id == id
  }

  /** `l.Shooter?.Equals(owner) ?? false`. */
  predicate LaserBy(l: Laser, id: string)
    reads l
  {
    l.shooter != null && l.shooter.id == id
  }

  /** `m.Layer?.Equals(owner) ?? false`. */
  predicate MineBy(m: Mine, id: string)
    reads m
  {
    m.layer != null && m.layer.id == id
  }

  /** `Bullets.RemoveAll` of the player's bullets: exactly the others stay. */
  function BulletsNotOf(bs: seq<Bullet>, id: string): (r: seq<Bullet>)
    reads set b | b in bs
    ensures |r| <= |bs|
    ensures forall k :: 0 <= k < |r| ==> r[k] in bs && !BulletBy(r[k], id)
    ensures forall k :: 0 <= k < |bs| && !BulletBy(bs[k], id) ==> bs[k] in r
  {
    if bs == [] then []
    else
      assert forall k :: 1 <= k < |bs| ==> bs[k] == bs[1..][k - 1];
      (if BulletBy(bs[0], id) then [] else [bs[0]]) + BulletsNotOf(bs[1..], id)
  }

  /** `Lasers.RemoveAll` of the player's lasers: exactly the others stay. */
  function LasersNotOf(ls: seq<Laser>, id: string): (r: seq<Laser>)
    reads set l | l in ls
    ensures |r| <= |ls|
    ensures forall k :: 0 <= k < |r| ==> r[k] in ls && !LaserBy(r[k], id)
    ensures forall k :: 0 <= k < |ls| && !LaserBy(ls[k], id) ==> ls[k] in r
  {
    if ls == [] then []
    else
      assert forall k :: 1 <= k < |ls| ==> ls[k] == ls[1..][k - 1];
      (if LaserBy(ls[0], id) then [] else [ls[0]]) + LasersNotOf(ls[1..], id)
  }

  /** `Mines.RemoveAll` of the player's mines: exactly the others stay. */
  function MinesNotOf(ms: seq<Mine>, id: string): (r: seq<Mine>)
    reads set m | m in ms
    ensures |r| <= |ms|
    ensures forall k :: 0 <= k < |r| ==> r[k] in ms && !MineBy(r[k], id)
    ensures forall k :: 0 <= k < |ms| && !MineBy(ms[k], id) ==> ms[k] in r
  {
    if ms == [] then []
    else
      assert forall k :: 1 <= k < |ms| ==> ms[k] == ms[1..][k - 1];
      (if MineBy(ms[0], id) then [] else [ms[0]]) + MinesNotOf(ms[1..], id)
  }

  class DespawnSystem {
    const grid: Grid
    const heal: HealSystem
    const score: ScoreSystem
    const zoneSystem: ZoneSystem
    const itemDrop: ItemDropSystem

    constructor (grid: Grid, heal: HealSystem, score: ScoreSystem, zoneSystem: ZoneSystem, itemDrop: ItemDropSystem)
      ensures this.grid == grid && this.heal == heal && this.score == score
      ensures this.zoneSystem == zoneSystem && this.itemDrop == itemDrop
    {
      this.grid := grid;
      this.heal := heal;
      this.score := score;
      this.zoneSystem := zoneSystem;
      this.itemDrop := itemDrop;
    }

    /** The bookkeeping of `RemoveTank`: the tank's buffered healing, the
        player's buffered score and the player's progress in every zone
        go. */
    method Forget(owner: Player, tank: Tank, neutralAfterRemoval: Progress -> ZoneState)
      returns (ghost closest: seq<Option<(PlayerId, int)>>)
      requires heal.Valid() && score.Valid() && NoTwins(zoneSystem.contexts)
      modifies heal, score, set c | c in zoneSystem.contexts, set c | c in zoneSystem.contexts :: c.zone
      ensures heal.Valid() && score.Valid()
      ensures heal.buffer == old(heal.buffer) - {tank.ownerId} && score.buffer == old(score.buffer) - {owner.id}
      ensures |closest| == |zoneSystem.contexts|
      ensures forall k :: 0 <= k < |zoneSystem.contexts| ==>
        var c := zoneSystem.contexts[k];
        c.progress == old(c.progress) - {owner.id} && IsClosest(c.progress, closest[k]) &&
        c.zone.state == StateAfterRemoval(old(c.zone.state), owner.id, c.progress, closest[k], neutralAfterRemoval(c.progress))
    {
      heal.ClearFractionalBuffer(tank);
      score.OnPlayerRemoved(owner);
      closest := zoneSystem.OnPlayerRemoved(owner.id, neutralAfterRemoval);
    }

    /** The sweep of `RemoveTank`: the tank leaves the list (by equality),
        and the bullets, lasers and mines kept by the filters stay. */
    method Sweep(tank: Tank, bullets: seq<Bullet>, lasers: seq<Laser>, mines: seq<Mine>)
      modifies grid`tanks, grid`bullets, grid`lasers, grid`mines
      ensures grid.tanks == RemoveEqual(old(grid.tanks), tank)
      ensures grid.bullets == bullets && grid.lasers == lasers && grid.mines == mines
    {
      grid.tanks := RemoveEqual(grid.tanks, tank);
      grid.bullets, grid.lasers, grid.mines := bullets, lasers, mines;
    }

    /** `RemoveTank`: with no tank of the player nothing changes and no tank
        is returned. Otherwise the player's first tank drops its item, its
        healing buffer, the player's score buffer and zone progress are
        cleared, and the tank (by equality), the player's bullets, lasers
        and mines leave the grid; that tank is returned. */
    method RemoveTank(owner: Player, neutralAfterRemoval: Progress -> ZoneState)
      returns (tank: Tank?, ghost found: Option<nat>, ghost tile: Option<Cell>, ghost closest: seq<Option<(PlayerId, int)>>)
      requires grid.Valid() && itemDrop.grid == grid && heal.Valid() && score.Valid() && NoTwins(zoneSystem.contexts)
      modifies grid`tanks, grid`bullets, grid`lasers, grid`mines, grid`items, heal, score
      modifies (set t | t in grid.tanks)`item
      modifies set c | c in zoneSystem.contexts, set c | c in zoneSystem.contexts :: c.zone
      ensures found == old(FirstOwned(grid.tanks, owner.id))
      ensures grid.Valid() && heal.Valid() && score.Valid()
      ensures tank == null <==> found.None?
      ensures tank == null ==> grid.tanks == old(grid.tanks) && grid.bullets == old(grid.bullets) &&
                               grid.lasers == old(grid.lasers) && grid.mines == old(grid.mines) &&
                               grid.items == old(grid.items)
      ensures tank == null ==> heal.buffer == old(heal.buffer) && score.buffer == old(score.buffer)
      ensures tank != null ==> found.Some? && found.value < |old(grid.tanks)| && tank == old(grid.tanks)[found.value]
      ensures tank != null ==> grid.tanks == RemoveEqual(old(grid.tanks), tank)
      ensures tank != null ==> grid.bullets == old(BulletsNotOf(grid.bullets, owner.id)) &&
                               grid.lasers == old(LasersNotOf(grid.lasers, owner.id)) &&
                               grid.mines == old(MinesNotOf(grid.mines, owner.id))
      ensures tank != null ==> tank.item.None? && heal.buffer == old(heal.buffer) - {tank.ownerId} &&
                               score.buffer == old(score.buffer) - {owner.id}
      ensures tank != null && tile.Some? ==>
        old(tank.item).Some? && old(DropTile(grid, tile.value)) &&
        old(Connected(Free(grid), Cell(tank.x, tank.y), tile.value)) &&
        grid.items == old(grid.items) + [SecondaryItem(tile.value.x, tile.value.y, old(tank.item).value)]
      ensures tank != null && tile.None? ==> grid.items == old(grid.items)
      ensures tank != null && tile.None? && old(tank.item).Some? ==>
        forall c :: old(Connected(Free(grid), Cell(tank.x, tank.y), c)) ==> HasItem(grid.items, c)
      ensures forall t :: t in old(grid.tanks) && t != tank ==> t.item == old(t.item)
      ensures zoneSystem.contexts == old(zoneSystem.contexts)
      ensures tank != null ==> |closest| == |old(zoneSystem.contexts)|
      ensures tank != null ==> forall k :: 0 <= k < |old(zoneSystem.contexts)| ==>
        var c := old(zoneSystem.contexts)[k];
        c.progress == old(c.progress) - {owner.id} && IsClosest(c.progress, closest[k]) &&
        c.zone.state == StateAfterRemoval(old(c.zone.state), owner.id, c.progress, closest[k], neutralAfterRemoval(c.progress))
      ensures tank == null ==> forall c :: c in old(zoneSystem.contexts) ==>
        c.progress == old(c.progress) && c.zone.state == old(c.zone.state)
    {
      var first := FirstOwned(grid.tanks, owner.id);
      found := first;
      if first.None? {
        return null, found, None, [];
      }
      tank := grid.tanks[first.value];
      // item drop and bookkeeping touch no bullet, laser or mine, so the
      // filters may be evaluated first
      var bullets, lasers, mines := BulletsNotOf(grid.bullets, owner.id), LasersNotOf(grid.lasers, owner.id),
                                    MinesNotOf(grid.mines, owner.id);
      tile := itemDrop.TryDropItem(tank);
      closest := Forget(owner, tank, neutralAfterRemoval);
      Sweep(tank, bullets, lasers, mines);
    }
  }
}
