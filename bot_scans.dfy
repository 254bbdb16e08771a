/** The free-standing scans of the bot's utilities over a snapshot's tiles:
    `closestBullet`, `getHealingBullets`, `findTeammate` and the row-major
    search for a tank that `initMyTankHelper` shares with `findTeammate`. */
module BotScans {
  import opened Wrappers
  import opened BotPackets
  import opened BotGeometry
  import opened BotPerception

  // ---------------------------------------------------------------------
  // Row-major search for a tank

  /** Object `k` of the tile at `p` is a tank that `want` accepts. */
  ghost predicate WantedAt(tiles: seq<seq<Tile>>, want: Tank -> bool, p: Pos, k: int) {
    0 <= p.x < |tiles| && 0 <= p.y < |tiles[p.x]| && 0 <= k < |tiles[p.x][p.y].objects| &&
    tiles[p.x][p.y].objects[k].TankObj? && want(tiles[p.x][p.y].objects[k].tank)
  }

  /** Row-major order over cells, then the order of the tile's objects. */
  predicate Earlier(p: Pos, k: int, q: Pos, l: int) {
    p.x < q.x || (p.x == q.x && (p.y < q.y || (p.y == q.y && k < l)))
  }

  /** The first accepted tank of the scan. */
  ghost predicate FirstWanted(tiles: seq<seq<Tile>>, want: Tank -> bool, p: Pos, k: int) {
    WantedAt(tiles, want, p, k) &&
    forall p', k' :: Earlier(p', k', p, k) ==> !WantedAt(tiles, want, p', k')
  }

  /** Two first accepted tanks are the same object of the same tile. */
  lemma {:induction false} FirstWantedUnique(tiles: seq<seq<Tile>>, want: Tank -> bool, p: Pos, k: int, q: Pos, l: int)
    requires FirstWanted(tiles, want, p, k) && FirstWanted(tiles, want, q, l)
    ensures p == q && k == l
  {
    if !Earlier(p, k, q, l) && !Earlier(q, l, p, k) {
      assert p.x == q.x && p.y == q.y && k == l;
    }
  }

  /** The scan of `initMyTankHelper` and `findTeammate`: rows, then
      columns, then the tile's objects, stopping at the first tank `want`
      accepts. */
  method FirstTank(tiles: seq<seq<Tile>>, want: Tank -> bool) returns (r: Option<(Tank, Pos)>)
    ensures r.Some? ==>
      exists k :: FirstWanted(tiles, want, r.value.1, k) &&
        tiles[r.value.1.x][r.value.1.y].objects[k] == TankObj(r.value.0)
    ensures r.None? <==> forall p, k :: !WantedAt(tiles, want, p, k)
  {
    for i := 0 to |tiles|
      invariant forall p: Pos, k :: p.x < i ==> !WantedAt(tiles, want, p, k)
    {
      for j := 0 to |tiles[i]|
        invariant forall p: Pos, k :: p.x < i || (p.x == i && p.y < j) ==> !WantedAt(tiles, want, p, k)
      {
        var objs := tiles[i][j].objects;
        for k := 0 to |objs|
          invariant forall p, k' :: Earlier(p, k', Pos(i, j), k) ==> !WantedAt(tiles, want, p, k')
        {
          if objs[k].TankObj? && want(objs[k].tank) {
            assert WantedAt(tiles, want, Pos(i, j), k);
            return Some((objs[k].tank, Pos(i, j)));
          }
        }
      }
    }
    return None;
  }

  /** `initMyTankHelper`'s target: a tank owned by the player. */
  function Owners(myId: string): Tank -> bool {
    (t: Tank) => t.ownerId == myId
  }

  /** The player's tank is on the map. */
  ghost predicate OwnTankIn(tiles: seq<seq<Tile>>, myId: string) {
    exists p, k :: WantedAt(tiles, Owners(myId), p, k)
  }

  /** Every tank of the player carries a bullet count, as the server sends
      it for own tanks only. */
  ghost predicate OwnTanksArmed(tiles: seq<seq<Tile>>, myId: string) {
    forall p, k :: WantedAt(tiles, Owners(myId), p, k) ==> IsOneOfMyTanks(tiles[p.x][p.y].objects[k].tank)
  }

  function Mates(myId: string): Tank -> bool {
    (t: Tank) => Teammate(t, myId)
  }

  /** `findTeammate`: the first friendly tank, in scan order, that is not
      the player's own. */
  method FindTeammate(tiles: seq<seq<Tile>>, myId: string) returns (r: Option<Tank>)
    ensures r.Some? ==> Teammate(r.value, myId)
    ensures r.Some? ==>
      exists p, k :: FirstWanted(tiles, Mates(myId), p, k) && tiles[p.x][p.y].objects[k] == TankObj(r.value)
    ensures r.None? <==> forall p, k :: !WantedAt(tiles, Mates(myId), p, k)
  {
    var found := FirstTank(tiles, Mates(myId));
    if found.None? {
      return None;
    }
    r := Some(found.value.0);
    ghost var p := found.value.1;
    ghost var k :| FirstWanted(tiles, Mates(myId), p, k) && tiles[p.x][p.y].objects[k] == TankObj(found.value.0);
  }

  // ---------------------------------------------------------------------
  // The object loops of the turret scans

  /** The loop over one tile in `canSeeTank`: is there a target tank (an
      enemy, or a wounded ally that is not the player's own tank)? */
  method TileHasTarget(objs: seq<TileObject>, enemy: bool, myId: string) returns (b: bool)
    ensures b == HasTarget(objs, enemy, myId)
  {
    for k := 0 to |objs|
      invariant forall k' :: 0 <= k' < k ==> !(objs[k'].TankObj? && TargetTank(objs[k'].tank, enemy, myId))
    {
      if objs[k].TankObj? {
        var tank := objs[k].tank;
        if enemy {
          if IsEnemy(tank) {
            return true;
          }
        } else {
          if !IsEnemy(tank) && tank.ownerId != myId && tank.health != Some(100) {
            return true;
          }
        }
      }
    }
    return false;
  }

  /** The loop over one tile in `willFireHitForSure`: the first friendly
      tank says no, the first enemy on the turret's axis says yes. */
  method TileVerdict(objs: seq<TileObject>, turretDir: Direction) returns (v: Option<bool>)
    ensures v == FirstVerdict(objs, turretDir)
  {
    for k := 0 to |objs|
      invariant FirstVerdict(objs, turretDir) == FirstVerdict(objs[k..], turretDir)
    {
      assert objs[k..][0] == objs[k] && objs[k..][1..] == objs[k + 1..];
      if objs[k].TankObj? {
        var tank := objs[k].tank;
        if !IsEnemy(tank) {
          return Some(false);
        }
        if IsParallel(turretDir, tank.direction) {
          return Some(true);
        }
      }
    }
    return None;
  }

  // ---------------------------------------------------------------------
  // `getHealingBullets`

  /** `getHealingBullets`: every healing bullet of the snapshot with its
      cell, in scan order. */
  method GetHealingBullets(tiles: seq<seq<Tile>>) returns (r: seq<(Bullet, Pos)>)
    ensures r == HealingBullets(tiles)
  {
    r := [];
    for i := 0 to |tiles|
      invariant r == HealRows(tiles, i)
    {
      for j := 0 to |tiles[i]|
        invariant r == HealRows(tiles, i) + HealRow(tiles, i, j)
      {
        var objs := tiles[i][j].objects;
        for k := 0 to |objs|
          invariant r == HealRows(tiles, i) + HealRow(tiles, i, j) + HealTile(objs, Pos(i, j), k)
        {
          if objs[k].BulletObj? && objs[k].bullet.kind == Healing {
            r := r + [(objs[k].bullet, Pos(i, j))];
          }
        }
      }
    }
  }

  // ---------------------------------------------------------------------
  // `closestBullet`

  /** One tile of a `closestBullet` scan: each non-healing bullet moving
      along `want` replaces the best answer when strictly closer. */
  method SweepTile(objs: seq<TileObject>, want: Direction, c: Pos, dist: int, best: Best) returns (r: Best)
    ensures r == if Heading(objs, want) && dist < best.dist then Best(c, dist) else best
  {
    r := best;
    for k := 0 to |objs|
      invariant r == if Heading(objs[..k], want) && dist < best.dist then Best(c, dist) else best
    {
      assert objs[..k + 1] == objs[..k] + [objs[k]];
      if objs[k].BulletObj? && objs[k].bullet.kind != Healing && objs[k].bullet.direction == want {
        assert objs[..k + 1][k] == objs[k];
        if dist < r.dist {
          r := Best(c, dist);
        }
      }
    }
    assert objs[..|objs|] == objs;
  }

  /** One of the four loops of `closestBullet`. */
  method SweepSegment(tiles: seq<seq<Tile>>, me: Pos, seg: nat, acc: Best) returns (r: Best)
    requires Seg(tiles, me, seg)
    ensures r == SweepAll(tiles, me, seg, acc)
  {
    r := acc;
    var i := SegFrom(me, seg);
    while i < SegTo(me, seg, |tiles|)
      invariant SegFrom(me, seg) <= i <= SegTo(me, seg, |tiles|)
      invariant r == Sweep(tiles, me, seg, i, acc)
    {
      var c := SegCell(me, seg, i);
      if |tiles[c.x][c.y].objects| > 0 {
        r := SweepTile(tiles[c.x][c.y].objects, SegWant(seg), c, SegDist(me, seg, i), r);
      }
      i := i + 1;
    }
  }

  /** `closestBullet`: the column above (bullets moving down), below
      (moving up), the row to the left (moving right) and to the right
      (moving left); (1e9, 1e9) when none is found. */
  method ClosestBulletPos(tiles: seq<seq<Tile>>, me: Pos) returns (r: Pos)
    requires IsValid(me, |tiles|) && SquareTiles(tiles, |tiles|)
    ensures r == ClosestBullet(tiles, me).pos
  {
    var best := Best(Pos(Far, Far), Far);
    best := SweepSegment(tiles, me, 0, best);
    best := SweepSegment(tiles, me, 1, best);
    best := SweepSegment(tiles, me, 2, best);
    best := SweepSegment(tiles, me, 3, best);
    r := best.pos;
  }
}
