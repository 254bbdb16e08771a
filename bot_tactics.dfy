/** The bot object and its two tank states: the map caches filled on the
    first tick, the per-tick refresh of the tanks, the shares and the
    knowledge map, and the decision cascade of one tank. */
module BotTactics {
  import opened Wrappers
  import opened BotPackets
  import opened BotGeometry
  import opened BotKnowledge
  import opened BotSearch
  import opened BotPerception
  import opened BotRules
  import opened BotScans

  /** The random draws one decision may use: the bot's persistent engine
      gives `stuck` (taken modulo 16), `capture` (uniform in [0, 1)) and
      `wander` (taken modulo 4); `rotateToEnemy` and `BeDrunkInsideZone`
      each seed a fresh engine, whose successive draws are `turn` and
      `drunk`. */
  datatype Chance = Chance(stuck: nat, capture: real, wander: nat, turn: nat -> nat, drunk: nat -> nat)

  /** The response for a search's first action; a rotation turns the body
      only. */
  function ActionResponse(a: Action): (r: Response)
    ensures a.MoveAct? <==> r.Move?
    ensures a.MoveAct? ==> r.direction == a.move
    ensures a.RotAct? ==> r.Rotate? && r.tankRotation == a.rot && r.turretRotation == RotNone
  {
    match a
    case MoveAct(m) => Move(m)
    case RotAct(rot) => Rotate(rot, RotNone)
  }

  /** The shares `initShares` keeps: the last entry named `teamName` (when
      `mine`) or the last entry with another name (otherwise), or the
      previous value when there is none. */
  function LastShare(ts: seq<(string, real)>, teamName: string, mine: bool, prev: real): real
    decreases |ts|
  {
    if ts == [] then prev
    else
      var e := ts[|ts| - 1];
      if (e.0 == teamName) == mine then e.1 else LastShare(ts[..|ts| - 1], teamName, mine, prev)
  }

  /** The kept share is the previous value exactly when no entry matches,
      and otherwise the value of the last matching entry. */
  lemma {:induction false} LastShareIsLast(ts: seq<(string, real)>, teamName: string, mine: bool, prev: real)
    ensures (forall k :: 0 <= k < |ts| ==> (ts[k].0 == teamName) != mine) ==> LastShare(ts, teamName, mine, prev) == prev
    ensures (exists k :: 0 <= k < |ts| && (ts[k].0 == teamName) == mine) ==>
      exists k :: 0 <= k < |ts| && (ts[k].0 == teamName) == mine &&
        LastShare(ts, teamName, mine, prev) == ts[k].1 &&
        forall k' :: k < k' < |ts| ==> (ts[k'].0 == teamName) != mine
    decreases |ts|
  {
    if ts != [] {
      var n := |ts| - 1;
      var init := ts[..n];
      LastShareIsLast(init, teamName, mine, prev);
      if (ts[n].0 == teamName) != mine {
        if exists k :: 0 <= k < |ts| && (ts[k].0 == teamName) == mine {
          var j :| 0 <= j < |ts| && (ts[j].0 == teamName) == mine;
          assert (init[j].0 == teamName) == mine;
          var k :| 0 <= k < |init| && (init[k].0 == teamName) == mine &&
            LastShare(init, teamName, mine, prev) == init[k].1 &&
            forall k' :: k < k' < |init| ==> (init[k'].0 == teamName) != mine;
          assert ts[k] == init[k];
          forall k' | k < k' < |ts| ensures (ts[k'].0 == teamName) != mine {
            if k' < n { assert ts[k'] == init[k']; }
          }
        } else {
          forall k | 0 <= k < |init| ensures (init[k].0 == teamName) != mine {
            assert init[k] == ts[k];
          }
        }
      }
    }
  }

  /** `rotateToEnemy` once the enemy at `e` is found: turn the body and
      the turret towards it, and pick a move at random once both face the
      wanted ways. */
  function TurnToward(b: Board, me: OPos, turretDir: Direction, e: Pos, turn: nat -> nat, drunk: nat -> nat): Response
    requires BoardOk(b)
  {
    var (desiredTankDir, desiredTurretDir) := DesiredDirs(e.x - me.pos.x, e.y - me.pos.y);
    var tankRot := GetRotationTo(me.dir, desiredTankDir);
    var turretRot := GetRotationTo(turretDir, desiredTurretDir);
    if tankRot == RotNone && turretRot == RotNone then AlignedMove(b, me, turn, drunk)
    else Rotate(tankRot, turretRot)
  }

  /** The player's zone shares are never negative. */
  ghost predicate SharesOk(z: Zone) {
    z.status.neutral >= 0.0 && forall k :: 0 <= k < |z.status.teamShares| ==> z.status.teamShares[k].1 >= 0.0
  }


  // ---------------------------------------------------------------------
  // The decision cascade, as a reference

  /** What a decision reads of the deciding tank state: its tank, the
      player's id, where it is and where it was a tick ago, its turret's
      facing and its bullet count. */
  datatype View = View(tank: Tank, id: string, pos: OPos, last: OPos, turretDir: Direction, bullets: int)

  /** The results of the searches and of the teammate scan a decision may
      run: off the closest bullet's lines, the teammate, onto a healing
      bullet's path, towards an enemy, and into the zone. The cascade
      reads only those it reaches. */
  datatype Lookups = Lookups(flee: Option<BfsResult>, mate: Option<Tank>, heal: Option<BfsResult>,
    enemy: Option<BfsResult>, zone: Option<BfsResult>)

  /** The view is of one of the player's tanks, on a cell of the board. */
  ghost predicate ViewOk(b: Board, v: View) {
    BoardOk(b) && IsOneOfMyTanks(v.tank) && IsValid(v.pos.pos, b.dim)
  }

  /** `plan` is what `bfs` may answer for `goal` from `me`: nothing exactly
      when no reachable state is accepted at its distance, otherwise the
      nearest accepted state, at its distance, with a performable move. */
  ghost predicate Searched(b: Board, me: OPos, goal: (OPos, int) -> bool, plan: Option<BfsResult>)
    requires BoardOk(b)
  {
    (plan.None? <==> NoneAccepted(ArenaOf(b), me, goal)) &&
    (plan.Some? ==>
      goal(plan.value.finalPos, plan.value.eta) && plan.value.eta >= 0 &&
      Dist(ArenaOf(b), me, plan.value.finalPos, plan.value.eta) && Performable(plan.value.move) &&
      forall s, k: nat :: Dist(ArenaOf(b), me, s, k) && k < plan.value.eta ==> !goal(s, k))
  }

  /** `mate` is what `findTeammate` answers: the first friendly tank in
      scan order that is not the player's own, or nothing when there is
      none. */
  ghost predicate MateOf(tiles: seq<seq<Tile>>, id: string, mate: Option<Tank>) {
    (mate.None? <==> forall p, k :: !WantedAt(tiles, Mates(id), p, k)) &&
    (mate.Some? ==>
      exists p, k :: FirstWanted(tiles, Mates(id), p, k) && tiles[p.x][p.y].objects[k] == TankObj(mate.value))
  }

  /** `enemy` is what the two searches of `rotateToEnemy` answer: the
      nearest visible enemy, else the nearest remembered one. */
  ghost predicate EnemyOf(b: Board, me: OPos, enemy: Option<BfsResult>)
    requires BoardOk(b)
  {
    (enemy.None? <==>
      NoneAccepted(ArenaOf(b), me, VisibleEnemyGoal(b)) && NoneAccepted(ArenaOf(b), me, PotentialEnemyGoal(b))) &&
    (enemy.Some? ==>
      if !NoneAccepted(ArenaOf(b), me, VisibleEnemyGoal(b))
      then VisibleEnemyGoal(b)(enemy.value.finalPos, enemy.value.eta)
      else PotentialEnemyGoal(b)(enemy.value.finalPos, enemy.value.eta))
  }

  /** A plan's move, when there is one, is one a tank can perform. */
  predicate Performs(plan: Option<BfsResult>) {
    plan.Some? ==> Performable(plan.value.move)
  }

  /** `bfsStrategy` once the search has answered `plan`: nothing when it
      found nothing; a wait when the first step would be hit next tick and
      standing still would not; otherwise the first step. */
  function Strategy(b: Board, me: OPos, plan: Option<BfsResult>): (r: Option<Response>)
    requires BoardOk(b) && Performs(plan)
    ensures r.None? <==> plan.None?
    ensures r.Some? && !r.value.Wait? ==> r.value == ActionResponse(plan.value.move)
  {
    if plan.None? then None
    else if Hit(b, AfterMove(me, plan.value.move).pos) && !Hit(b, me.pos) then Some(Wait)
    else Some(ActionResponse(plan.value.move))
  }

  /** Whether the tank can shoot at all, so that the dodge skips the
      turret's direction. */
  predicate Armed(v: View)
    requires IsOneOfMyTanks(v.tank)
  {
    v.bullets > 0 || CanShootLaser(v.tank) || CanShootDouble(v.tank)
  }

  /** The plans the cascade may follow have performable moves. */
  predicate LookupsOk(lk: Lookups) {
    Performs(lk.flee) && Performs(lk.heal) && Performs(lk.zone)
  }

  /** The head of the cascade: a sure hit, healing a wounded ally in
      sight, shaking loose one time in sixteen (`stuck`) when the tank has
      not moved since the last tick (shoot an enemy in sight, else wander),
      and the dodge. */
  function Reflex(b: Board, v: View, ch: Chance): Option<Response>
    requires ViewOk(b, v)
  {
    var sight := SightOf(b);
    var sure := ShootIf(v.tank, v.bullets,
      BotPerception.WillFireHitForSure(sight, v.pos.pos, v.turretDir, CanShootLaser(v.tank)), true, true);
    var heal := BotRules.HealIfSeeingAlly(v.tank, BotPerception.CanSeeTank(sight, v.pos.pos, v.turretDir, false, v.id));
    var shot := ShootIf(v.tank, v.bullets, BotPerception.CanSeeTank(sight, v.pos.pos, v.turretDir, true, v.id), true, true);
    if sure.Some? then sure
    else if heal.Some? then heal
    else if v.last == v.pos && ch.stuck % 16 == 0 then
      (if shot.Some? then shot else Some(Wander(b, v.pos, ch.drunk)))
    else Dodge(b, v.pos, v.turretDir, Armed(v))
  }

  /** The bullet to flee from: the closest one aiming at the tank's row or
      column, if any. */
  function Closest(b: Board, v: View): Pos
    requires ViewOk(b, v)
  {
    ClosestBullet(b.tiles, v.pos.pos).pos
  }

  /** The first search: off the closest bullet's lines, when there is one. */
  function Flee(b: Board, v: View, flee: Option<BfsResult>): Option<Response>
    requires ViewOk(b, v) && Performs(flee)
  {
    if Closest(b, v).x != Far then Strategy(b, v.pos, flee) else None
  }

  /** The second search runs when a healing bullet is on the map and the
      tank is weaker than its teammate (a missing teammate or health counts
      as 0). */
  predicate Weaker(b: Board, v: View, mate: Option<Tank>) {
    |HealingBullets(b.tiles)| > 0 &&
    v.tank.health.GetOr(0) < (if mate.Some? then mate.value.health.GetOr(0) else 0)
  }

  /** The healing bullets of the board lie on its cells. */
  lemma {:induction false} HealingOnBoard(b: Board)
    requires BoardOk(b)
    ensures BotPerception.InGrid(HealingBullets(b.tiles), b.dim)
  {
    var bullets := HealingBullets(b.tiles);
    forall i | 0 <= i < |bullets| ensures IsValid(bullets[i].1, b.dim) {
      HealingBulletsMembers(b.tiles, |b.tiles|, bullets[i].0, bullets[i].1);
    }
  }

  /** The goal of the second search. */
  function HealTarget(b: Board): (OPos, int) -> bool
    requires BoardOk(b)
  {
    HealingOnBoard(b);
    HealGoal(b, HealingBullets(b.tiles))
  }

  /** The two searches: off the closest bullet's lines, then onto a
      healing bullet's path when weaker than the teammate. */
  function Evasion(b: Board, v: View, flee: Option<BfsResult>, mate: Option<Tank>, heal: Option<BfsResult>): Option<Response>
    requires ViewOk(b, v) && Performs(flee) && Performs(heal)
  {
    var fled := Flee(b, v, flee);
    if fled.Some? then fled
    else if Weaker(b, v, mate) then Strategy(b, v.pos, heal)
    else None
  }

  /** The tail of the cascade. Inside the zone: capture when the draw
      `capture` is at most 0.8 times `captureProb`, else shoot an enemy in
      sight, turn to the enemy the searches found, wander one time in four
      (`wander`) or capture. Outside: head for the zone, else wander. */
  function ZoneMove(b: Board, v: View, my: real, opp: real, neutral: real, ch: Chance,
    enemy: Option<BfsResult>, zone: Option<BfsResult>): Response
    requires ViewOk(b, v) && my >= 0.0 && opp >= 0.0 && neutral >= 0.0 && Performs(zone)
  {
    if ZoneGoal(b)(v.pos, 0) then
      var shot := ShootIf(v.tank, v.bullets, BotPerception.CanSeeTank(SightOf(b), v.pos.pos, v.turretDir, true, v.id), false, false);
      if CaptureProb(my, opp, neutral) * 0.8 >= ch.capture then CaptureZone
      else if shot.Some? then shot.value
      else if enemy.Some? then TurnToward(b, v.pos, v.turretDir, enemy.value.finalPos.pos, ch.turn, ch.drunk)
      else if ch.wander % 4 == 0 then Wander(b, v.pos, ch.drunk)
      else CaptureZone
    else
      var step := Strategy(b, v.pos, zone);
      if step.Some? then step.value else Wander(b, v.pos, ch.drunk)
  }

  /** `TankState::NextMove` as a reference: off every sixth tick capture;
      otherwise the reflexes, the two searches, a mine, the radar and the
      zone play answer, each only when the ones before it did not. */
  function Cascade(b: Board, time: int, v: View, my: real, opp: real, neutral: real, ch: Chance, lk: Lookups): Response
    requires ViewOk(b, v) && my >= 0.0 && opp >= 0.0 && neutral >= 0.0 && LookupsOk(lk)
  {
    var reflex := Reflex(b, v, ch);
    var evasion := Evasion(b, v, lk.flee, lk.mate, lk.heal);
    var radar := UseRadarIfPossible(v.tank);
    if time % 6 != 0 then CaptureZone
    else if reflex.Some? then reflex.value
    else if evasion.Some? then evasion.value
    else if DropsMine(b, v.tank, v.pos) then AbilityUse(DropMine)
    else if radar.Some? then radar.value
    else ZoneMove(b, v, my, opp, neutral, ch, lk.enemy, lk.zone)
  }

  /** The searches the zone play runs are the ones `bfs` may answer. */
  ghost predicate ZoneLooked(b: Board, v: View, my: real, opp: real, neutral: real, ch: Chance,
    enemy: Option<BfsResult>, zone: Option<BfsResult>)
    requires ViewOk(b, v) && my >= 0.0 && opp >= 0.0 && neutral >= 0.0 && Performs(zone)
  {
    var shot := ShootIf(v.tank, v.bullets, BotPerception.CanSeeTank(SightOf(b), v.pos.pos, v.turretDir, true, v.id), false, false);
    (ZoneGoal(b)(v.pos, 0) && CaptureProb(my, opp, neutral) * 0.8 < ch.capture && shot.None? ==> EnemyOf(b, v.pos, enemy)) &&
    (!ZoneGoal(b)(v.pos, 0) ==> Searched(b, v.pos, ZoneGoal(b), zone))
  }

  /** The searches and the scan the two evasions run are the ones the
      source may answer. */
  ghost predicate EvasionLooked(b: Board, v: View, flee: Option<BfsResult>, mate: Option<Tank>, heal: Option<BfsResult>)
    requires ViewOk(b, v) && Performs(flee)
  {
    (Closest(b, v).x != Far ==> Searched(b, v.pos, OffBulletLines(Closest(b, v)), flee)) &&
    (Flee(b, v, flee).None? ==> MateOf(b.tiles, v.id, mate)) &&
    (Flee(b, v, flee).None? && Weaker(b, v, mate) ==> Searched(b, v.pos, HealTarget(b), heal))
  }

  /** Every lookup the cascade reaches is one the source may answer. */
  ghost predicate Looked(b: Board, time: int, v: View, my: real, opp: real, neutral: real, ch: Chance, lk: Lookups)
    requires ViewOk(b, v) && my >= 0.0 && opp >= 0.0 && neutral >= 0.0 && LookupsOk(lk)
  {
    var reached := Evasion(b, v, lk.flee, lk.mate, lk.heal).None? && !DropsMine(b, v.tank, v.pos) &&
      UseRadarIfPossible(v.tank).None?;
    time % 6 == 0 && Reflex(b, v, ch).None? ==>
      EvasionLooked(b, v, lk.flee, lk.mate, lk.heal) &&
      (reached ==> ZoneLooked(b, v, my, opp, neutral, ch, lk.enemy, lk.zone))
  }

  /** Off every sixth tick the tank only captures; on it, a sure hit comes
      before every other rule, and healing an ally in sight before all the
      rest. */
  lemma {:induction false} CascadePriorities(b: Board, time: int, v: View, my: real, opp: real, neutral: real, ch: Chance, lk: Lookups)
    requires ViewOk(b, v) && my >= 0.0 && opp >= 0.0 && neutral >= 0.0 && LookupsOk(lk)
    ensures time % 6 != 0 ==> Cascade(b, time, v, my, opp, neutral, ch, lk) == CaptureZone
    ensures var sure := ShootIf(v.tank, v.bullets,
        BotPerception.WillFireHitForSure(SightOf(b), v.pos.pos, v.turretDir, CanShootLaser(v.tank)), true, true);
      time % 6 == 0 && sure.Some? ==> Cascade(b, time, v, my, opp, neutral, ch, lk) == sure.value
    ensures var sure := ShootIf(v.tank, v.bullets,
        BotPerception.WillFireHitForSure(SightOf(b), v.pos.pos, v.turretDir, CanShootLaser(v.tank)), true, true);
      time % 6 == 0 && sure.None? && CanShootHealing(v.tank) &&
      BotPerception.CanSeeTank(SightOf(b), v.pos.pos, v.turretDir, false, v.id) ==>
        Cascade(b, time, v, my, opp, neutral, ch, lk) == AbilityUse(FireHealingBullet)
  {
  }

  /** The tank captures only on its zone: outside it no rule answers a
      capture. */
  lemma {:induction false} CapturesOnlyInZone(b: Board, time: int, v: View, my: real, opp: real, neutral: real, ch: Chance, lk: Lookups)
    requires ViewOk(b, v) && my >= 0.0 && opp >= 0.0 && neutral >= 0.0 && LookupsOk(lk)
    requires time % 6 == 0 && !ZoneGoal(b)(v.pos, 0)
    ensures Cascade(b, time, v, my, opp, neutral, ch, lk) != CaptureZone
  {
    var sight := SightOf(b);
    var sure := ShootIf(v.tank, v.bullets,
      BotPerception.WillFireHitForSure(sight, v.pos.pos, v.turretDir, CanShootLaser(v.tank)), true, true);
    var shot := ShootIf(v.tank, v.bullets, BotPerception.CanSeeTank(sight, v.pos.pos, v.turretDir, true, v.id), true, true);
    assert sure.Some? ==> sure.value.AbilityUse?;
    assert shot.Some? ==> shot.value.AbilityUse?;
  }

  /** The reflexes shoot, heal, wander or dodge: they never drop a mine. */
  lemma {:induction false} ReflexNeverMines(b: Board, v: View, ch: Chance)
    requires ViewOk(b, v)
    ensures Reflex(b, v, ch) != Some(AbilityUse(DropMine))
  {
    var sight := SightOf(b);
    var sure := ShootIf(v.tank, v.bullets,
      BotPerception.WillFireHitForSure(sight, v.pos.pos, v.turretDir, CanShootLaser(v.tank)), true, true);
    var shot := ShootIf(v.tank, v.bullets, BotPerception.CanSeeTank(sight, v.pos.pos, v.turretDir, true, v.id), true, true);
    assert sure.Some? ==> sure.value != AbilityUse(DropMine);
    assert shot.Some? ==> shot.value != AbilityUse(DropMine);
  }

  /** The zone play captures, shoots, turns, wanders or moves: it never
      drops a mine. */
  lemma {:induction false} ZoneMoveNeverMines(b: Board, v: View, my: real, opp: real, neutral: real, ch: Chance,
    enemy: Option<BfsResult>, zone: Option<BfsResult>)
    requires ViewOk(b, v) && my >= 0.0 && opp >= 0.0 && neutral >= 0.0 && Performs(zone)
    ensures ZoneMove(b, v, my, opp, neutral, ch, enemy, zone) != AbilityUse(DropMine)
  {
    var zoneShot := ShootIf(v.tank, v.bullets, BotPerception.CanSeeTank(SightOf(b), v.pos.pos, v.turretDir, true, v.id), false, false);
    assert zoneShot.Some? ==> zoneShot.value != AbilityUse(DropMine);
  }

  /** A mine is dropped only when `dropMineIfReasonable`'s test passes. */
  lemma {:induction false} MineOnlyWhenReasonable(b: Board, time: int, v: View, my: real, opp: real, neutral: real, ch: Chance, lk: Lookups)
    requires ViewOk(b, v) && my >= 0.0 && opp >= 0.0 && neutral >= 0.0 && LookupsOk(lk)
    requires Cascade(b, time, v, my, opp, neutral, ch, lk) == AbilityUse(DropMine)
    ensures time % 6 == 0 && DropsMine(b, v.tank, v.pos)
  {
    ReflexNeverMines(b, v, ch);
    ZoneMoveNeverMines(b, v, my, opp, neutral, ch, lk.enemy, lk.zone);
  }

  /** Inside the zone, once no earlier rule answers, a capture draw of at
      most 0.08 always captures, since `captureProb` is at least 0.1. */
  lemma {:induction false} LowDrawCaptures(b: Board, time: int, v: View, my: real, opp: real, neutral: real, ch: Chance, lk: Lookups)
    requires ViewOk(b, v) && my >= 0.0 && opp >= 0.0 && neutral >= 0.0 && LookupsOk(lk)
    requires time % 6 == 0 && Reflex(b, v, ch).None? && Evasion(b, v, lk.flee, lk.mate, lk.heal).None?
    requires !DropsMine(b, v.tank, v.pos) && UseRadarIfPossible(v.tank).None?
    requires ZoneGoal(b)(v.pos, 0) && ch.capture <= 0.08
    ensures Cascade(b, time, v, my, opp, neutral, ch, lk) == CaptureZone
  {
    var p := CaptureProb(my, opp, neutral);
    assert p * 0.8 >= 0.08;
  }

  /** Caches that hold what `tiles` shows: each cell's wall flag says
      whether its tile holds a wall, its wall code is the tile's, and its
      zone letter is the tile's. */
  ghost predicate CachedFrom(tiles: seq<seq<Tile>>, isWall: seq<seq<bool>>, wallType: seq<seq<int>>,
                             zoneName: seq<seq<char>>)
  {
    var dim := |tiles|;
    SquareTiles(tiles, dim) && IsGrid(isWall, dim) && IsGrid(wallType, dim) && IsGrid(zoneName, dim) &&
    forall i, j :: 0 <= i < dim && 0 <= j < dim ==>
      (isWall[i][j] <==> HasWall(tiles[i][j].objects)) && wallType[i][j] == WallCode(tiles[i][j].objects) &&
      zoneName[i][j] == tiles[i][j].zoneName
  }

  class Bot {
    var dim: nat
    var myId: string
    var teamName: string
    const knowledgeMap: KnowledgeMap
    var isWall: seq<seq<bool>>
    var wallType: seq<seq<int>>
    var zoneName: seq<seq<char>>
    var myTankIdx: int
    var myShares: real
    var oppShares: real
    var neutralShares: real
    var tankState: array<TankState>

    /** The knowledge map has the bot's size, the two tank states are
        distinct and belong to this bot, and the shares are not negative. */
    ghost predicate Valid()
      reads this, knowledgeMap, tankState
    {
      knowledgeMap.Valid() && knowledgeMap.Dim() == dim &&
      tankState.Length == 2 && tankState[0] != tankState[1] &&
      tankState[0].bot == this && tankState[1].bot == this &&
      myShares >= 0.0 && oppShares >= 0.0 && neutralShares >= 0.0
    }

    /** The three map caches have the grid's shape. */
    ghost predicate CachesShaped()
      reads this`dim, this`isWall, this`wallType, this`zoneName
    {
      IsGrid(isWall, dim) && IsGrid(wallType, dim) && IsGrid(zoneName, dim)
    }

    /** After the refresh of `NextMove`: the bot is consistent, the first
        tank state decides, both are ready, and they remember the
        positions `p0` and `p1`. */
    ghost predicate Refreshed(p0: OPos, p1: OPos)
      reads this, knowledgeMap, tankState, tankState[..]
    {
      Valid() && CachesShaped() && myTankIdx == 0 &&
      tankState[0].lastPos == p0 && tankState[1].lastPos == p1 &&
      tankState[0].Ready() && tankState[1].Ready()
    }

    /** What a decision reads: the caches, the knowledge map and the
        snapshot's tiles. */
    function BoardOf(gs: GameState): (b: Board)
      requires Valid() && CachesShaped() && SquareTiles(gs.tiles, dim)
      reads this, knowledgeMap, tankState
      ensures BoardOk(b) && b.dim == dim
    {
      Board(dim, isWall, wallType, zoneName, knowledgeMap.tiles, knowledgeMap.minesLiveness,
        knowledgeMap.isVisible, gs.tiles)
    }

    /** The answer of a tick: the first tank state's cascade on `board`,
        the board this tick's decision started from. Only a dropped mine
        changes the knowledge map afterwards, by noting the mine behind
        the tank. */
    ghost predicate Answered(gs: GameState, ch: Chance, r: Response, board: Board, lk: Lookups)
      requires Valid() && CachesShaped() && SquareTiles(gs.tiles, dim)
      reads this, knowledgeMap, tankState, tankState[..]
    {
      ViewOk(board, tankState[0].Now()) && board.dim == dim && LookupsOk(lk) &&
      r == Cascade(board, gs.time, tankState[0].Now(), myShares, oppShares, neutralShares, ch, lk) &&
      Looked(board, gs.time, tankState[0].Now(), myShares, oppShares, neutralShares, ch, lk) &&
      (r != AbilityUse(DropMine) ==> board == BoardOf(gs)) &&
      (r == AbilityUse(DropMine) ==> knowledgeMap.minesLiveness == MineNoted(board.mines, tankState[0].myPos))
    }

    /** A bot before `Init`: no grid, no tank chosen, no shares. */
    constructor ()
      ensures Valid() && dim == 0 && myTankIdx == -1
      ensures fresh(knowledgeMap) && fresh(tankState) && fresh(tankState[0]) && fresh(tankState[1])
    {
      dim := 0;
      myId := "";
      teamName := "";
      knowledgeMap := new KnowledgeMap();
      isWall, wallType, zoneName := [], [], [];
      myTankIdx := -1;
      myShares, oppShares, neutralShares := 0.0, 0.0, 0.0;
      tankState := new TankState[0];
      new;
      var t0 := new TankState(this);
      var t1 := new TankState(this);
      tankState := new TankState[2] [t0, t1];
    }

    /** `Init`: the lobby's grid size, ids, and an empty knowledge map. */
    method Init(gridDimension: nat, lobbyId: string, lobbyTeam: string)
      requires Valid()
      modifies this`dim, this`myId, this`teamName, knowledgeMap
      ensures Valid() && dim == gridDimension && myId == lobbyId && teamName == lobbyTeam
      ensures forall x, y :: 0 <= x < dim && 0 <= y < dim ==>
        knowledgeMap.tiles[x][y] == [] && knowledgeMap.minesLiveness[x][y] == 0 && !knowledgeMap.isVisible[x][y]
    {
      dim := gridDimension;
      myId := lobbyId;
      teamName := lobbyTeam;
      knowledgeMap.Init(dim);
    }

    /** `initIsWall`: a cell is a wall iff its tile holds a wall object. */
    method InitIsWall(tiles: seq<seq<Tile>>)
      requires SquareTiles(tiles, dim)
      modifies this`isWall
      ensures IsGrid(isWall, dim)
      ensures forall i, j :: 0 <= i < dim && 0 <= j < dim ==> (isWall[i][j] <==> HasWall(tiles[i][j].objects))
    {
      isWall := Fill(dim, false);
      for i := 0 to dim
        invariant IsGrid(isWall, dim)
        invariant forall a, b :: 0 <= a < i && 0 <= b < dim ==> (isWall[a][b] <==> HasWall(tiles[a][b].objects))
      {
        for j := 0 to dim
          invariant IsGrid(isWall, dim)
          invariant forall a, b :: 0 <= a < dim && 0 <= b < dim && (a < i || (a == i && b < j)) ==>
            (isWall[a][b] <==> HasWall(tiles[a][b].objects))
        {
          var objs := tiles[i][j].objects;
          var any := false;
          for k := 0 to |objs|
            invariant any <==> exists k' :: 0 <= k' < k && objs[k'].WallObj?
          {
            if objs[k].WallObj? {
              any := true;
            }
          }
          isWall := SetCell(isWall, Pos(i, j), any);
        }
      }
    }

    /** `initWallType`: 2 for a solid wall, 1 for a penetrable one, 0 for
        none; the last wall of a tile decides. */
    method InitWallType(tiles: seq<seq<Tile>>)
      requires SquareTiles(tiles, dim)
      modifies this`wallType
      ensures IsGrid(wallType, dim)
      ensures forall i, j :: 0 <= i < dim && 0 <= j < dim ==> wallType[i][j] == WallCode(tiles[i][j].objects)
    {
      wallType := Fill(dim, 0);
      for i := 0 to dim
        invariant IsGrid(wallType, dim)
        invariant forall a, b :: 0 <= a < i && 0 <= b < dim ==> wallType[a][b] == WallCode(tiles[a][b].objects)
      {
        for j := 0 to dim
          invariant IsGrid(wallType, dim)
          invariant forall a, b :: 0 <= a < dim && 0 <= b < dim && (a < i || (a == i && b < j)) ==>
            wallType[a][b] == WallCode(tiles[a][b].objects)
        {
          var objs := tiles[i][j].objects;
          var code := 0;
          for k := 0 to |objs|
            invariant code == WallCode(objs[..k])
          {
            assert objs[..k + 1][..k] == objs[..k];
            if objs[k].WallObj? {
              if objs[k].wallType == Solid {
                code := 2;
              } else {
                code := 1;
              }
            }
          }
          assert objs[..|objs|] == objs;
          wallType := SetCell(wallType, Pos(i, j), code);
        }
      }
    }

    /** `initZoneName`: each tile's zone letter. */
    method InitZoneName(tiles: seq<seq<Tile>>)
      requires SquareTiles(tiles, dim)
      modifies this`zoneName
      ensures IsGrid(zoneName, dim)
      ensures forall i, j :: 0 <= i < dim && 0 <= j < dim ==> zoneName[i][j] == tiles[i][j].zoneName
    {
      zoneName := Fill(dim, '?');
      for i := 0 to dim
        invariant IsGrid(zoneName, dim)
        invariant forall a, b :: 0 <= a < i && 0 <= b < dim ==> zoneName[a][b] == tiles[a][b].zoneName
      {
        for j := 0 to dim
          invariant IsGrid(zoneName, dim)
          invariant forall a, b :: 0 <= a < dim && 0 <= b < dim && (a < i || (a == i && b < j)) ==>
            zoneName[a][b] == tiles[a][b].zoneName
        {
          zoneName := SetCell(zoneName, Pos(i, j), tiles[i][j].zoneName);
        }
      }
    }

    /** `onFirstNextMove`: fill the three caches from the snapshot; a cell
        is a wall exactly when its wall code is positive. */
    method OnFirstNextMove(gs: GameState)
      requires SquareTiles(gs.tiles, dim)
      modifies this`isWall, this`wallType, this`zoneName
      ensures CachesShaped() && CachedFrom(gs.tiles, isWall, wallType, zoneName)
      ensures forall i, j :: 0 <= i < dim && 0 <= j < dim ==> (isWall[i][j] <==> wallType[i][j] > 0)
    {
      InitIsWall(gs.tiles);
      InitWallType(gs.tiles);
      InitZoneName(gs.tiles);
      forall i, j | 0 <= i < dim && 0 <= j < dim
        ensures isWall[i][j] <==> wallType[i][j] > 0
      {
        WallCodeMeaning(gs.tiles[i][j].objects);
      }
    }

    /** The bullet count `initMyTank` asserts is there: every tank of the
        player on the map has one, and when the map shows none of them, the
        tank each state kept from the last tick is usable. */
    ghost predicate Armed(gs: GameState)
      requires Valid()
      reads this, knowledgeMap, tankState, tankState[..]
    {
      OwnTanksArmed(gs.tiles, myId) &&
      (!OwnTankIn(gs.tiles, myId) ==> tankState[0].Usable() && tankState[1].Usable())
    }

    /** The loop of `initMyTanks` after `i` tank states: those located (or
        keeping their tank) and ready, the others still usable when the
        player's tank is missing, and every last position as it was. */
    ghost predicate Locating(gs: GameState, i: nat, l0: OPos, l1: OPos, t0: Tank, t1: Tank, m0: OPos, m1: OPos)
      reads this, knowledgeMap, tankState, tankState[..]
    {
      Valid() && CachesShaped() && i <= 2 &&
      tankState[0].lastPos == l0 && tankState[1].lastPos == l1 &&
      (i >= 1 ==> tankState[0].Ready() && (OwnTankIn(gs.tiles, myId) ==> tankState[0].Located(gs))) &&
      (i >= 2 ==> tankState[1].Ready() && (OwnTankIn(gs.tiles, myId) ==> tankState[1].Located(gs))) &&
      (!OwnTankIn(gs.tiles, myId) ==>
        tankState[0].myTank == t0 && tankState[1].myTank == t1 &&
        tankState[0].myPos == m0 && tankState[1].myPos == m1 &&
        (i < 1 ==> tankState[0].Usable()) && (i < 2 ==> tankState[1].Usable()))
    }

    /** One turn of the loop of `initMyTanks`. */
    method LocateOne(gs: GameState, i: nat, ghost l0: OPos, ghost l1: OPos, ghost t0: Tank, ghost t1: Tank, ghost m0: OPos, ghost m1: OPos)
      requires i < 2 && Locating(gs, i, l0, l1, t0, t1, m0, m1)
      requires SquareTiles(gs.tiles, dim) && OwnTanksArmed(gs.tiles, myId)
      modifies tankState[i]
      ensures Locating(gs, i + 1, l0, l1, t0, t1, m0, m1)
    {
      tankState[i].InitMyTank(gs);
    }

    /** `initMyTanks`: both tank states locate the player's tank (or keep
        the last tick's), and the first of them is the one that decides. */
    method InitMyTanks(gs: GameState)
      requires Valid() && CachesShaped() && SquareTiles(gs.tiles, dim) && Armed(gs)
      modifies tankState[0], tankState[1], this`myTankIdx
      ensures Refreshed(old(tankState[0].lastPos), old(tankState[1].lastPos))
      ensures OwnTankIn(gs.tiles, myId) ==> tankState[0].Located(gs) && tankState[1].Located(gs)
      ensures !OwnTankIn(gs.tiles, myId) ==>
        tankState[0].myTank == old(tankState[0].myTank) && tankState[1].myTank == old(tankState[1].myTank) &&
        tankState[0].myPos == old(tankState[0].myPos) && tankState[1].myPos == old(tankState[1].myPos)
    {
      ghost var l0, l1 := tankState[0].lastPos, tankState[1].lastPos;
      ghost var t0, t1 := tankState[0].myTank, tankState[1].myTank;
      ghost var m0, m1 := tankState[0].myPos, tankState[1].myPos;
      for i := 0 to 2
        invariant Locating(gs, i, l0, l1, t0, t1, m0, m1)
      {
        LocateOne(gs, i, l0, l1, t0, t1, m0, m1);
      }
      // the source picks the first state holding the player's id, and both
      // states take it
      assert tankState[0].myId == myId;
      myTankIdx := 0;
    }

    /** `initShares`: the neutral share of the only zone, and the last
        entries of the team's and of another team's shares. */
    method InitShares(gs: GameState, ghost p0: OPos, ghost p1: OPos)
      requires Refreshed(p0, p1) && |gs.zones| == 1 && SharesOk(gs.zones[0])
      modifies this`myShares, this`oppShares, this`neutralShares
      ensures Refreshed(p0, p1)
      ensures neutralShares == gs.zones[0].status.neutral
      ensures myShares == LastShare(gs.zones[0].status.teamShares, teamName, true, old(myShares))
      ensures oppShares == LastShare(gs.zones[0].status.teamShares, teamName, false, old(oppShares))
    {
      var zone := gs.zones[0];
      neutralShares := zone.status.neutral;
      var ts := zone.status.teamShares;
      for k := 0 to |ts|
        invariant myShares == LastShare(ts[..k], teamName, true, old(myShares))
        invariant oppShares == LastShare(ts[..k], teamName, false, old(oppShares))
        invariant myShares >= 0.0 && oppShares >= 0.0 && neutralShares == zone.status.neutral
      {
        assert ts[..k + 1][..k] == ts[..k];
        if ts[k].0 == teamName {
          myShares := ts[k].1;
        } else {
          oppShares := ts[k].1;
        }
      }
      assert ts[..|ts|] == ts;
    }

    /** The loop at the head of `NextMove`: each tank state remembers
        where it was. */
    method RememberPositions()
      requires Valid()
      modifies tankState[0], tankState[1]
      ensures tankState[0].lastPos == old(tankState[0].myPos) && tankState[1].lastPos == old(tankState[1].myPos)
      ensures forall i :: 0 <= i < 2 ==>
        tankState[i].myPos == old(tankState[i].myPos) && tankState[i].myTank == old(tankState[i].myTank) &&
        tankState[i].myId == old(tankState[i].myId)
    {
      for i := 0 to 2
        invariant forall i' :: 0 <= i' < i ==> tankState[i'].lastPos == old(tankState[i'].myPos)
        invariant forall i' :: 0 <= i' < 2 ==>
          tankState[i'].myPos == old(tankState[i'].myPos) && tankState[i'].myTank == old(tankState[i'].myTank) &&
          tankState[i'].myId == old(tankState[i'].myId)
      {
        tankState[i].lastPos := tankState[i].myPos;
      }
    }

    /** `knowledgeMap.update`, as `NextMove` sees it: the knowledge map
        keeps its size and becomes what the snapshot makes of it. */
    method RefreshKnowledge(gs: GameState, ghost p0: OPos, ghost p1: OPos)
      requires Refreshed(p0, p1) && Snapshot(gs, dim)
      modifies knowledgeMap
      ensures Refreshed(p0, p1)
      ensures knowledgeMap.isVisible == Visibility(gs, dim)
      ensures knowledgeMap.tiles == UpdatedTiles(old(knowledgeMap.tiles), gs)
      ensures knowledgeMap.minesLiveness == DecayedMines(old(knowledgeMap.minesLiveness), gs)
    {
      knowledgeMap.Update(gs);
    }

    /** The refresh of `NextMove` after the first tick's caches: remember
        every tank's position, then locate the tanks, read the shares and
        update the knowledge map. */
    method Refresh(gs: GameState)
      requires Valid() && CachesShaped()
      requires Snapshot(gs, dim) && |gs.zones| == 1 && SharesOk(gs.zones[0]) && Armed(gs)
      modifies this`myTankIdx, this`myShares, this`oppShares, this`neutralShares
      modifies knowledgeMap, tankState[0], tankState[1]
      ensures Refreshed(old(tankState[0].myPos), old(tankState[1].myPos))
      ensures OwnTankIn(gs.tiles, myId) ==> tankState[0].Located(gs)
      ensures !OwnTankIn(gs.tiles, myId) ==>
        tankState[0].myTank == old(tankState[0].myTank) && tankState[0].myPos == old(tankState[0].myPos)
      ensures neutralShares == gs.zones[0].status.neutral
      ensures myShares == LastShare(gs.zones[0].status.teamShares, teamName, true, old(myShares))
      ensures oppShares == LastShare(gs.zones[0].status.teamShares, teamName, false, old(oppShares))
      ensures knowledgeMap.isVisible == Visibility(gs, dim)
      ensures knowledgeMap.tiles == UpdatedTiles(old(knowledgeMap.tiles), gs)
      ensures knowledgeMap.minesLiveness == DecayedMines(old(knowledgeMap.minesLiveness), gs)
    {
      ghost var p0, p1 := tankState[0].myPos, tankState[1].myPos;
      RememberPositions();
      InitMyTanks(gs);
      InitShares(gs, p0, p1);
      RefreshKnowledge(gs, p0, p1);
    }

    /** `NextMove`: fill the caches on tick 1, refresh, and let the first
        tank state decide. The answer is the cascade's on the refreshed
        `board` (which only a dropped mine changes afterwards), for the tank
        located on the map or, when it is missing, the one of the last tick. */
    method NextMove(gs: GameState, ch: Chance) returns (r: Response, ghost board: Board, ghost lk: Lookups)
      requires Valid() && (gs.time == 1 || CachesShaped())
      requires Snapshot(gs, dim) && |gs.zones| == 1 && SharesOk(gs.zones[0]) && Armed(gs)
      modifies this`isWall, this`wallType, this`zoneName, this`myTankIdx
      modifies this`myShares, this`oppShares, this`neutralShares, knowledgeMap, tankState[0], tankState[1]
      ensures Refreshed(old(tankState[0].myPos), old(tankState[1].myPos))
      ensures OwnTankIn(gs.tiles, myId) ==> tankState[0].Located(gs)
      ensures !OwnTankIn(gs.tiles, myId) ==>
        tankState[0].myTank == old(tankState[0].myTank) && tankState[0].myPos == old(tankState[0].myPos)
      ensures Answered(gs, ch, r, board, lk)
      ensures gs.time == 1 ==> CachedFrom(gs.tiles, isWall, wallType, zoneName)
      ensures gs.time != 1 ==> isWall == old(isWall) && wallType == old(wallType) && zoneName == old(zoneName)
      ensures knowledgeMap.isVisible == Visibility(gs, dim)
      ensures knowledgeMap.tiles == UpdatedTiles(old(knowledgeMap.tiles), gs)
      ensures board == Board(dim, isWall, wallType, zoneName, knowledgeMap.tiles,
        DecayedMines(old(knowledgeMap.minesLiveness), gs), knowledgeMap.isVisible, gs.tiles)
      ensures r != AbilityUse(DropMine) ==> knowledgeMap.minesLiveness == DecayedMines(old(knowledgeMap.minesLiveness), gs)
    {
      if gs.time == 1 {
        r, board, lk := FirstNextMove(gs, ch);
      } else {
        r, board, lk := RefreshAndDecide(gs, ch);
      }
    }

    /** `NextMove` on tick 1: `onFirstNextMove` fills the caches from the
        snapshot, then the refresh and the decision follow. */
    method FirstNextMove(gs: GameState, ch: Chance) returns (r: Response, ghost board: Board, ghost lk: Lookups)
      requires Valid()
      requires Snapshot(gs, dim) && |gs.zones| == 1 && SharesOk(gs.zones[0]) && Armed(gs)
      modifies this`isWall, this`wallType, this`zoneName, this`myTankIdx
      modifies this`myShares, this`oppShares, this`neutralShares, knowledgeMap, tankState[0], tankState[1]
      ensures Refreshed(old(tankState[0].myPos), old(tankState[1].myPos))
      ensures OwnTankIn(gs.tiles, myId) ==> tankState[0].Located(gs)
      ensures !OwnTankIn(gs.tiles, myId) ==>
        tankState[0].myTank == old(tankState[0].myTank) && tankState[0].myPos == old(tankState[0].myPos)
      ensures Answered(gs, ch, r, board, lk)
      ensures CachedFrom(gs.tiles, isWall, wallType, zoneName)
      ensures knowledgeMap.isVisible == Visibility(gs, dim)
      ensures knowledgeMap.tiles == UpdatedTiles(old(knowledgeMap.tiles), gs)
      ensures board == Board(dim, isWall, wallType, zoneName, knowledgeMap.tiles,
        DecayedMines(old(knowledgeMap.minesLiveness), gs), knowledgeMap.isVisible, gs.tiles)
      ensures r != AbilityUse(DropMine) ==> knowledgeMap.minesLiveness == DecayedMines(old(knowledgeMap.minesLiveness), gs)
    {
      OnFirstNextMove(gs);
      r, board, lk := RefreshAndDecide(gs, ch);
    }

    /** `NextMove` once the caches are filled: the refresh, then the
        decision on the refreshed board. */
    method RefreshAndDecide(gs: GameState, ch: Chance) returns (r: Response, ghost board: Board, ghost lk: Lookups)
      requires Valid() && CachesShaped()
      requires Snapshot(gs, dim) && |gs.zones| == 1 && SharesOk(gs.zones[0]) && Armed(gs)
      modifies this`myTankIdx, this`myShares, this`oppShares, this`neutralShares
      modifies knowledgeMap, tankState[0], tankState[1]
      ensures Refreshed(old(tankState[0].myPos), old(tankState[1].myPos))
      ensures OwnTankIn(gs.tiles, myId) ==> tankState[0].Located(gs)
      ensures !OwnTankIn(gs.tiles, myId) ==>
        tankState[0].myTank == old(tankState[0].myTank) && tankState[0].myPos == old(tankState[0].myPos)
      ensures Answered(gs, ch, r, board, lk)
      ensures knowledgeMap.isVisible == Visibility(gs, dim)
      ensures knowledgeMap.tiles == UpdatedTiles(old(knowledgeMap.tiles), gs)
      ensures board == Board(dim, isWall, wallType, zoneName, knowledgeMap.tiles,
        DecayedMines(old(knowledgeMap.minesLiveness), gs), knowledgeMap.isVisible, gs.tiles)
      ensures r != AbilityUse(DropMine) ==> knowledgeMap.minesLiveness == DecayedMines(old(knowledgeMap.minesLiveness), gs)
    {
      ghost var p0, p1 := tankState[0].myPos, tankState[1].myPos;
      Refresh(gs);
      r, board, lk := Decide(gs, ch, p0, p1);
    }

    /** The decision of the refreshed bot: the cascade of the tank state
        `myTankIdx` (the first) on the board it starts from. */
    method Decide(gs: GameState, ch: Chance, ghost p0: OPos, ghost p1: OPos) returns (r: Response, ghost board: Board, ghost lk: Lookups)
      requires Refreshed(p0, p1) && SquareTiles(gs.tiles, dim)
      modifies knowledgeMap
      ensures Refreshed(p0, p1)
      ensures Answered(gs, ch, r, board, lk)
      ensures board == old(BoardOf(gs))
      ensures knowledgeMap.tiles == old(knowledgeMap.tiles) && knowledgeMap.isVisible == old(knowledgeMap.isVisible)
    {
      var t := tankState[myTankIdx];
      board := BoardOf(gs);
      var response;
      response, lk := t.NextMove(gs, ch);
      r := response.value;
    }
  }

  class TankState {
    const bot: Bot
    var myId: string
    var myTank: Tank
    var myPos: OPos
    var lastPos: OPos
    var myTurretDir: Direction
    var myBulletCount: int

    constructor (b: Bot)
      ensures bot == b && myBulletCount == 3
    {
      bot := b;
      myId := "";
      myTank := Tank("", Light, Up, Turret(Up, None, None, None, None, None, None), None, None, None, None, None);
      myPos := OPos(Pos(0, 0), Up);
      lastPos := OPos(Pos(0, 0), Up);
      myTurretDir := Up;
      myBulletCount := 3;
    }

    /** The state `initMyTank` leaves: the player's first tank in scan
        order, its cell and facing, its turret and its bullet count. */
    ghost predicate Located(gs: GameState)
      reads this, bot`myId
    {
      myId == bot.myId && IsOneOfMyTanks(myTank) &&
      (exists k :: FirstWanted(gs.tiles, Owners(myId), myPos.pos, k) &&
        gs.tiles[myPos.pos.x][myPos.pos.y].objects[k] == TankObj(myTank)) &&
      myPos.dir == myTank.direction && myTurretDir == myTank.turret.direction &&
      myBulletCount == myTank.turret.bulletCount.value
    }

    /** The tank the state holds has a bullet count and stands on a cell of
        the grid. */
    ghost predicate Usable()
      reads this, bot`dim
    {
      IsOneOfMyTanks(myTank) && IsValid(myPos.pos, bot.dim)
    }

    /** What the decisions need of a located tank: the player's id, and a
        usable tank. */
    ghost predicate Ready()
      reads this, bot`myId, bot`dim
    {
      myId == bot.myId && Usable()
    }

    /** What a decision reads of this state. */
    function Now(): View
      reads this
    {
      View(myTank, myId, myPos, lastPos, myTurretDir, myBulletCount)
    }

    /** What every decision reads is consistent: the bot and its caches,
        a square snapshot, and the tank on a cell of the grid. */
    ghost predicate Placed(gs: GameState)
      reads this, bot, bot.knowledgeMap, bot.tankState
    {
      bot.Valid() && bot.CachesShaped() && SquareTiles(gs.tiles, bot.dim) && Ready()
    }

    /** `initMyTankHelper`: the first tank of the player in scan order
        gives the tank and its oriented cell; without one they stay. */
    method InitMyTankHelper(gs: GameState)
      modifies this`myTank, this`myPos
      ensures OwnTankIn(gs.tiles, myId) ==>
        exists k :: FirstWanted(gs.tiles, Owners(myId), myPos.pos, k) &&
          gs.tiles[myPos.pos.x][myPos.pos.y].objects[k] == TankObj(myTank)
      ensures OwnTankIn(gs.tiles, myId) ==> myPos.dir == myTank.direction
      ensures !OwnTankIn(gs.tiles, myId) ==> myTank == old(myTank) && myPos == old(myPos)
    {
      var found := FirstTank(gs.tiles, Owners(myId));
      if found.Some? {
        myTank := found.value.0;
        myPos := OPos(found.value.1, found.value.0.direction);
      }
    }

    /** `initMyTank`: take the bot's id, locate the tank, and copy its
        turret direction and bullet count. Without the player's tank on the
        map the tank and cell of the last tick stay, and the bullet count
        the source asserts is theirs. */
    method InitMyTank(gs: GameState)
      requires SquareTiles(gs.tiles, bot.dim) && OwnTanksArmed(gs.tiles, bot.myId)
      requires !OwnTankIn(gs.tiles, bot.myId) ==> Usable()
      modifies this`myId, this`myTank, this`myPos, this`myTurretDir, this`myBulletCount
      ensures OwnTankIn(gs.tiles, bot.myId) ==> Located(gs)
      ensures !OwnTankIn(gs.tiles, bot.myId) ==> myTank == old(myTank) && myPos == old(myPos)
      ensures myTurretDir == myTank.turret.direction && myBulletCount == myTank.turret.bulletCount.value
      ensures Ready()
    {
      myId := bot.myId;
      InitMyTankHelper(gs);
      if OwnTankIn(gs.tiles, myId) {
        ghost var k :| FirstWanted(gs.tiles, Owners(myId), myPos.pos, k) &&
          gs.tiles[myPos.pos.x][myPos.pos.y].objects[k] == TankObj(myTank);
      }
      myTurretDir := myTank.turret.direction;
      myBulletCount := myTank.turret.bulletCount.value;
    }

    /** The checks of one cell of a turret scan: it must be in the grid,
        not a solid wall and visible this tick. */
    method LookAt(gs: GameState, x: int, y: int) returns (open: bool)
      requires Placed(gs)
      ensures open == Passable(SightOf(bot.BoardOf(gs)), Pos(x, y))
      ensures open ==> 0 <= x < bot.dim && 0 <= y < bot.dim
      ensures open ==> TileAt(SightOf(bot.BoardOf(gs)), Pos(x, y)) == gs.tiles[x][y].objects
    {
      if !IsValid(Pos(x, y), bot.dim) {
        return false;
      }
      if bot.wallType[x][y] == 2 {
        return false;
      }
      if !bot.knowledgeMap.isVisible[x][y] {
        return false;
      }
      return true;
    }

    /** `canSeeTank`: walk along the turret through passable cells, up to
        `dim - 1` of them, looking for a target tank. */
    method CanSeeTank(gs: GameState, enemy: bool) returns (b: bool)
      requires Placed(gs)
      ensures b == BotPerception.CanSeeTank(SightOf(bot.BoardOf(gs)), myPos.pos, myTurretDir, enemy, myId)
    {
      var dim := bot.dim;
      ghost var s := SightOf(bot.BoardOf(gs));
      ghost var verdict := SeeVerdict(enemy, myId);
      ghost var bound: nat := dim - 1;
      var d := myTurretDir;
      var dx, dy := Delta(d).x, Delta(d).y;
      var x, y := myPos.pos.x, myPos.pos.y;
      var i := 1;
      while i < dim
        invariant 1 <= i <= bound + 1
        invariant BotPerception.CanSeeTank(s, myPos.pos, d, enemy, myId) == Scan(s, Pos(x, y), d, bound - (i - 1), verdict)
      {
        ghost var here, left := Pos(x, y), bound - (i - 1);
        x, y := x + dx, y + dy;
        assert Step(here, d) == Pos(x, y);
        var open := LookAt(gs, x, y);
        if !open {
          return false;
        }
        var found := TileHasTarget(gs.tiles[x][y].objects, enemy, myId);
        if found {
          return true;
        }
        assert Scan(s, here, d, left, verdict) == Scan(s, Pos(x, y), d, left - 1, verdict);
        i := i + 1;
      }
      return false;
    }

    /** `willFireHitForSure`: walk along the turret, two cells' bound or
        the grid's with the laser ready; the first friendly tank says no,
        the first enemy facing along the turret's axis says yes. */
    method WillFireHitForSure(gs: GameState) returns (b: bool)
      requires Placed(gs)
      ensures b == BotPerception.WillFireHitForSure(SightOf(bot.BoardOf(gs)), myPos.pos, myTurretDir, CanShootLaser(myTank))
    {
      var dim := bot.dim;
      ghost var s := SightOf(bot.BoardOf(gs));
      var d := myTurretDir;
      ghost var sure := SureVerdict(d);
      var dx, dy := Delta(d).x, Delta(d).y;
      var x, y := myPos.pos.x, myPos.pos.y;
      var bound := 2;
      if CanShootLaser(myTank) {
        bound := dim;
      }
      ghost var steps: nat := bound - 1;
      var i := 1;
      while i < bound
        invariant 1 <= i <= steps + 1
        invariant BotPerception.WillFireHitForSure(s, myPos.pos, d, CanShootLaser(myTank)) ==
          Scan(s, Pos(x, y), d, steps - (i - 1), sure)
      {
        x, y := x + dx, y + dy;
        var open := LookAt(gs, x, y);
        if !open {
          return false;
        }
        var verdict := TileVerdict(gs.tiles[x][y].objects, d);
        if verdict.Some? {
          return verdict.value;
        }
        i := i + 1;
      }
      return false;
    }

    /** `willBeHitByBullet`, guarded: a cell outside the grid is never hit
        (the source's unguarded read is the subject of a finding). */
    method WillBeHitByBullet(gs: GameState, p: Pos) returns (b: bool)
      requires Placed(gs)
      ensures b == Hit(bot.BoardOf(gs), p)
    {
      if !IsValid(p, bot.dim) {
        return false;
      }
      b := bot.knowledgeMap.WillBeHitByBulletInNextMove(p.x, p.y);
    }

    /** `shootIfSeeingEnemy`. */
    method ShootIfSeeingEnemy(gs: GameState, useLaser: bool, useDouble: bool) returns (r: Option<Response>)
      requires Placed(gs)
      ensures r == ShootIf(myTank, myBulletCount,
        BotPerception.CanSeeTank(SightOf(bot.BoardOf(gs)), myPos.pos, myTurretDir, true, myId), useLaser, useDouble)
    {
      var sees := CanSeeTank(gs, true);
      r := ShootIf(myTank, myBulletCount, sees, useLaser, useDouble);
    }

    /** `shootIfWillFireHitForSure`. */
    method ShootIfWillFireHitForSure(gs: GameState, useLaser: bool, useDouble: bool) returns (r: Option<Response>)
      requires Placed(gs)
      ensures r == ShootIf(myTank, myBulletCount,
        BotPerception.WillFireHitForSure(SightOf(bot.BoardOf(gs)), myPos.pos, myTurretDir, CanShootLaser(myTank)),
        useLaser, useDouble)
    {
      var sure := WillFireHitForSure(gs);
      r := ShootIf(myTank, myBulletCount, sure, useLaser, useDouble);
    }

    /** `healIfSeeingAlly`: the ally scan runs only when a healing bullet
        is ready. */
    method HealIfSeeingAlly(gs: GameState) returns (r: Option<Response>)
      requires Placed(gs)
      ensures r == BotRules.HealIfSeeingAlly(myTank,
        BotPerception.CanSeeTank(SightOf(bot.BoardOf(gs)), myPos.pos, myTurretDir, false, myId))
    {
      if CanShootHealing(myTank) {
        var sees := CanSeeTank(gs, false);
        if sees {
          return Some(AbilityUse(FireHealingBullet));
        }
      }
      return None;
    }

    /** The dodge's first safe move, forward before backward. */
    method FirstSafeMove(gs: GameState) returns (r: Option<Response>)
      requires Placed(gs)
      ensures r == FirstSafe(bot.BoardOf(gs), myPos)
    {
      ghost var b := bot.BoardOf(gs);
      var moves := [Forward, Backward];
      for m := 0 to 2
        invariant m >= 1 ==> !SafeMove(b, myPos, Forward)
        invariant m >= 2 ==> !SafeMove(b, myPos, Backward)
      {
        var n := AfterMove(myPos, MoveAct(moves[m])).pos;
        if IsValid(n, bot.dim) && !bot.isWall[n.x][n.y] {
          var hit := WillBeHitByBullet(gs, n);
          if !hit && !bot.knowledgeMap.ContainsMine(n) {
            return Some(Move(moves[m]));
          }
        }
      }
      return None;
    }

    /** The innermost loop of `dodgeIfNoAmmoAndWillBeHit` over one cell's
        objects: each enemy aiming back along direction `i` asks for the
        first safe move, which is the same every time. */
    method DodgeFromCell(gs: GameState, objs: seq<TileObject>, i: nat) returns (r: Option<Response>)
      requires Placed(gs) && i < 4
      ensures r == if AimsBack(objs, DirOf(i), myPos.dir) then FirstSafe(bot.BoardOf(gs), myPos) else None
    {
      var d := DirOf(i);
      TurnsAreModular(d);
      ghost var safe := FirstSafe(bot.BoardOf(gs), myPos);
      for k := 0 to |objs|
        invariant safe.None? || forall k' :: 0 <= k' < k ==> !AimsBackAt(objs[k'], d, myPos.dir)
      {
        if objs[k].TankObj? {
          var tank := objs[k].tank;
          TurnsAreModular(tank.turret.direction);
          if IsEnemy(tank) {
            if DirId(tank.turret.direction) == (i + 2) % 4 {
              if !IsParallel(myPos.dir, tank.turret.direction) {
                r := FirstSafeMove(gs);
                if r.Some? {
                  assert AimsBackAt(objs[k], d, myPos.dir);
                  return r;
                }
              }
            }
          }
        }
      }
      return None;
    }

    /** One cell `j` of the middle loop of `dodgeIfNoAmmoAndWillBeHit`
        along direction `i`: the scan stops at the border or a solid wall,
        and answers when an enemy there aims back and a move is safe. */
    method DodgeStep(gs: GameState, i: nat, j: nat) returns (stop: bool, r: Option<Response>)
      requires Placed(gs) && i < 4
      ensures stop <==> !Open(bot.BoardOf(gs), Ray(myPos.pos, DirOf(i), j)) || r.Some?
      ensures r == if Open(bot.BoardOf(gs), Ray(myPos.pos, DirOf(i), j)) && AimsBackFrom(bot.BoardOf(gs), myPos, i, j)
        then FirstSafe(bot.BoardOf(gs), myPos) else None
    {
      ghost var b := bot.BoardOf(gs);
      assert b.tiles == gs.tiles && b.wallType == bot.wallType && b.dim == bot.dim;
      var d := DirOf(i);
      var c := Pos(myPos.pos.x + j * Delta(d).x, myPos.pos.y + j * Delta(d).y);
      assert c == Ray(myPos.pos, d, j);
      if !IsValid(c, bot.dim) || bot.wallType[c.x][c.y] == 2 {
        return true, None;
      }
      r := DodgeFromCell(gs, gs.tiles[c.x][c.y].objects, i);
      assert AimsBackFrom(b, myPos, i, j) == AimsBack(gs.tiles[c.x][c.y].objects, d, myPos.dir);
      stop := r.Some?;
    }

    /** The middle loop of `dodgeIfNoAmmoAndWillBeHit` along direction
        `i`: up to two cells, stopping at the border or a solid wall. */
    method DodgeAlong(gs: GameState, i: nat, ghost b: Board) returns (r: Option<Response>)
      requires Placed(gs) && i < 4 && b == bot.BoardOf(gs)
      ensures r == if ThreatAlong(b, myPos, i) then FirstSafe(b, myPos) else None
    {
      ghost var safe := FirstSafe(b, myPos);
      ghost var d := DirOf(i);
      for j := 1 to 3
        invariant j >= 2 ==> Open(b, Ray(myPos.pos, d, 1))
        invariant j >= 2 && safe.Some? ==> !AimsBackFrom(b, myPos, i, 1)
        invariant j >= 3 ==> Open(b, Ray(myPos.pos, d, 2))
        invariant j >= 3 && safe.Some? ==> !AimsBackFrom(b, myPos, i, 2)
      {
        var stop;
        stop, r := DodgeStep(gs, i, j);
        if stop {
          return r;
        }
      }
      return None;
    }

    /** `dodgeIfNoAmmoAndWillBeHit`: look two open cells along each
        direction (the turret's one only when nothing can be fired) for an
        enemy aiming back at us, and answer the first safe move. */
    method DodgeIfNoAmmoAndWillBeHit(gs: GameState) returns (r: Option<Response>)
      requires Placed(gs)
      ensures r == Dodge(bot.BoardOf(gs), myPos, myTurretDir,
        myBulletCount > 0 || CanShootLaser(myTank) || CanShootDouble(myTank))
    {
      ghost var b := bot.BoardOf(gs);
      ghost var armed := myBulletCount > 0 || CanShootLaser(myTank) || CanShootDouble(myTank);
      ghost var safe := FirstSafe(b, myPos);
      for i := 0 to 4
        invariant safe.None? || forall i' :: 0 <= i' < i ==> Skipped(i', myTurretDir, armed) || !ThreatAlong(b, myPos, i')
      {
        if i == DirId(myTurretDir) {
          if myBulletCount > 0 {
            continue;
          }
          if CanShootLaser(myTank) {
            continue;
          }
          if CanShootDouble(myTank) {
            continue;
          }
        }
        assert !Skipped(i, myTurretDir, armed) by {
          TurnsAreModular(myTurretDir);
        }
        r := DodgeAlong(gs, i, b);
        if r.Some? {
          return r;
        }
      }
      return None;
    }

    /** `dropMineIfReasonable`: when the test passes, note the mine behind
        the tank in the knowledge map and drop it. */
    method DropMineIfReasonable(gs: GameState) returns (r: Option<Response>)
      requires Placed(gs)
      modifies bot.knowledgeMap
      ensures Placed(gs)
      ensures bot.knowledgeMap.tiles == old(bot.knowledgeMap.tiles)
      ensures bot.knowledgeMap.isVisible == old(bot.knowledgeMap.isVisible)
      ensures r.Some? <==> old(DropsMine(bot.BoardOf(gs), myTank, myPos))
      ensures r.Some? ==> r.value == AbilityUse(DropMine)
      ensures r.Some? ==>
        bot.knowledgeMap.minesLiveness == SetCell(old(bot.knowledgeMap.minesLiveness), MineCell(myPos),
          Notified(old(bot.knowledgeMap.minesLiveness)[MineCell(myPos).x][MineCell(myPos).y]))
      ensures r.Some? ==> bot.knowledgeMap.minesLiveness == MineNoted(old(bot.knowledgeMap.minesLiveness), myPos)
      ensures r.None? ==> bot.knowledgeMap.minesLiveness == old(bot.knowledgeMap.minesLiveness)
    {
      var x, y := myPos.pos.x, myPos.pos.y;
      if CanDropMine(myTank) && (IsBetweenWalls(myPos.pos, bot.isWall, bot.dim) || bot.zoneName[x][y] != '?') {
        var dx, dy := Delta(myPos.dir).x, Delta(myPos.dir).y;
        var minePos := Pos(x - dx, y - dy);
        if !IsValid(minePos, bot.dim) || bot.isWall[minePos.x][minePos.y] {
          return None;
        }
        NoteMine(gs, minePos);
        return Some(AbilityUse(DropMine));
      }
      return None;
    }

    /** The knowledge-map side of a dropped mine: the countdown of the
        cell behind the tank is refreshed and nothing else changes. */
    method NoteMine(gs: GameState, minePos: Pos)
      requires Placed(gs) && minePos == MineCell(myPos) && IsValid(minePos, bot.dim)
      modifies bot.knowledgeMap
      ensures Placed(gs)
      ensures bot.knowledgeMap.tiles == old(bot.knowledgeMap.tiles)
      ensures bot.knowledgeMap.isVisible == old(bot.knowledgeMap.isVisible)
      ensures bot.knowledgeMap.minesLiveness == SetCell(old(bot.knowledgeMap.minesLiveness), minePos,
        Notified(old(bot.knowledgeMap.minesLiveness)[minePos.x][minePos.y]))
    {
      ghost var before := bot.knowledgeMap.minesLiveness;
      bot.knowledgeMap.NotifyMine(minePos);
      GridEq(bot.knowledgeMap.minesLiveness, SetCell(before, minePos, Notified(before[minePos.x][minePos.y])), bot.dim);
    }

    /** `bfsStrategy`: search towards `goal`; wait when the first step
        would be hit next tick and standing still would not, otherwise take
        the first step. */
    method BfsStrategy(gs: GameState, goal: (OPos, int) -> bool) returns (r: Option<Response>, ghost plan: Option<BfsResult>)
      requires Placed(gs)
      ensures Searched(bot.BoardOf(gs), myPos, goal, plan)
      ensures r == Strategy(bot.BoardOf(gs), myPos, plan)
      // waiting happens only when the search accepts the start itself
      ensures r == Some(Wait) ==>
        plan.value.eta == 0 && goal(myPos, 0) && !Hit(bot.BoardOf(gs), myPos.pos)
      ensures r.Some? && r != Some(Wait) ==>
        Performable(plan.value.move) && r.value == ActionResponse(plan.value.move)
      // a step the strategy takes towards a later state enters a state the search may enter
      ensures r.Some? && plan.value.eta > 0 ==>
        r != Some(Wait) && Enterable(ArenaOf(bot.BoardOf(gs)), AfterMove(myPos, plan.value.move))
    {
      ghost var b := bot.BoardOf(gs);
      var ar := ArenaOf(bot.BoardOf(gs));
      var result := Bfs(ar, myPos, goal);
      plan := result;
      if result.None? {
        return None, plan;
      }
      var nxtMove := result.value.move;
      var nextPos := AfterMove(myPos, nxtMove);
      if result.value.eta > 0 {
        ghost var w :| IsWalk(ar, myPos, w) && |w| == result.value.eta + 1 && w[|w| - 1] == result.value.finalPos &&
          w[1] == AfterMove(myPos, nxtMove);
        assert Edge(ar, w[0], w[1]);
        AdmissibleNotHit(b, nextPos.pos);
      }
      var hitNow := WillBeHitByBullet(gs, myPos.pos);
      var hitNxt := WillBeHitByBullet(gs, nextPos.pos);
      if hitNxt && !hitNow {
        return Some(Wait), plan;
      }
      r := Some(ActionResponse(nxtMove));
    }

    /** The two searches of `rotateToEnemy`: the nearest visible enemy,
        else the nearest remembered enemy in a cell out of sight. */
    method FindEnemy(gs: GameState) returns (found: Option<BfsResult>)
      requires Placed(gs)
      ensures found.None? <==>
        NoneAccepted(ArenaOf(bot.BoardOf(gs)), myPos, VisibleEnemyGoal(bot.BoardOf(gs))) &&
        NoneAccepted(ArenaOf(bot.BoardOf(gs)), myPos, PotentialEnemyGoal(bot.BoardOf(gs)))
      ensures found.Some? ==> found.value.eta >= 0
      ensures found.Some? ==> Dist(ArenaOf(bot.BoardOf(gs)), myPos, found.value.finalPos, found.value.eta)
      // a reachable visible enemy is preferred to a remembered one
      ensures found.Some? ==>
        if !NoneAccepted(ArenaOf(bot.BoardOf(gs)), myPos, VisibleEnemyGoal(bot.BoardOf(gs)))
        then VisibleEnemyGoal(bot.BoardOf(gs))(found.value.finalPos, found.value.eta)
        else PotentialEnemyGoal(bot.BoardOf(gs))(found.value.finalPos, found.value.eta)
    {
      var b := bot.BoardOf(gs);
      var ar := ArenaOf(b);
      found := Bfs(ar, myPos, VisibleEnemyGoal(b));
      if found.None? {
        found := Bfs(ar, myPos, PotentialEnemyGoal(b));
        if found.Some? {
          var k: nat := found.value.eta;
          assert Dist(ar, myPos, found.value.finalPos, k) && PotentialEnemyGoal(b)(found.value.finalPos, k);
        }
      } else {
        var k: nat := found.value.eta;
        assert Dist(ar, myPos, found.value.finalPos, k) && VisibleEnemyGoal(b)(found.value.finalPos, k);
      }
      assert found.None? <==>
        NoneAccepted(ar, myPos, VisibleEnemyGoal(b)) && NoneAccepted(ar, myPos, PotentialEnemyGoal(b));
      assert b == bot.BoardOf(gs);
    }

    /** `rotateToEnemy`: turn body and turret towards the enemy the
        searches find; once both face the wanted ways, pick a move at
        random with the draws `turn` (and `drunk` when wandering). */
    method RotateToEnemy(gs: GameState, turn: nat -> nat, drunk: nat -> nat) returns (r: Option<Response>, ghost target: Option<BfsResult>)
      requires Placed(gs)
      ensures r.None? <==> target.None?
      ensures EnemyOf(bot.BoardOf(gs), myPos, target)
      ensures target.Some? ==>
        r.value == TurnToward(bot.BoardOf(gs), myPos, myTurretDir, target.value.finalPos.pos, turn, drunk)
    {
      var result := FindEnemy(gs);
      target := result;
      if result.None? {
        return None, target;
      }
      r := Some(TurnToward(bot.BoardOf(gs), myPos, myTurretDir, result.value.finalPos.pos, turn, drunk));
    }

    /** The head of the cascade: a sure hit, healing a wounded ally,
        shaking loose (one time in sixteen) when the tank has not moved,
        and dodging. */
    method Reflexes(gs: GameState, ch: Chance) returns (r: Option<Response>)
      requires Placed(gs)
      ensures r == Reflex(bot.BoardOf(gs), Now(), ch)
    {
      r := ShootIfWillFireHitForSure(gs, true, true);
      if r.Some? {
        return r;
      }
      // the source asks the same question a second time; nothing changed in
      // between, so the answer is the same and is not asked again here

      r := HealIfSeeingAlly(gs);
      if r.Some? {
        return r;
      }

      if lastPos == myPos && ch.stuck % 16 == 0 {
        r := ShootIfSeeingEnemy(gs, true, true);
        if r.Some? {
          return r;
        }
        return Some(Wander(bot.BoardOf(gs), myPos, ch.drunk));
      }

      r := DodgeIfNoAmmoAndWillBeHit(gs);
    }

    /** The searches of the cascade: off the closest bullet's lines, then,
        when weaker than the teammate, onto a healing bullet's path. The
        ghost results are the searches' and the teammate scan's answers. */
    method Evade(gs: GameState) returns (r: Option<Response>, ghost flee: Option<BfsResult>, ghost mate: Option<Tank>, ghost heal: Option<BfsResult>)
      requires Placed(gs)
      ensures Performs(flee) && Performs(heal)
      ensures r == Evasion(bot.BoardOf(gs), Now(), flee, mate, heal)
      ensures EvasionLooked(bot.BoardOf(gs), Now(), flee, mate, heal)
    {
      ghost var b := bot.BoardOf(gs);
      flee, mate, heal := None, None, None;
      var bullet := ClosestBulletPos(gs.tiles, myPos.pos);
      if bullet.x != Far {
        r, flee := BfsStrategy(gs, OffBulletLines(bullet));
        if r.Some? {
          return;
        }
      }

      var bullets := GetHealingBullets(gs.tiles);
      var teammate := FindTeammate(gs.tiles, myId);
      mate := teammate;
      var teammateHealth := 0;
      if teammate.Some? {
        teammateHealth := teammate.value.health.GetOr(0);
      }
      if |bullets| > 0 && myTank.health.GetOr(0) < teammateHealth {
        HealingOnBoard(b);
        r, heal := BfsStrategy(gs, HealGoal(bot.BoardOf(gs), bullets));
        assert HealTarget(b) == HealGoal(b, bullets);
        return;
      }
      r := None;
    }

    /** The tail of the cascade: inside the zone, capture with the
        probability of `captureProb` scaled by 0.8, else shoot, turn to an
        enemy, wander one time in four or capture; outside, head for the
        zone, and wander when it cannot be reached. */
    method ZonePlay(gs: GameState, ch: Chance) returns (r: Response, ghost enemy: Option<BfsResult>, ghost zone: Option<BfsResult>)
      requires Placed(gs)
      ensures Performs(zone)
      ensures r == ZoneMove(bot.BoardOf(gs), Now(), bot.myShares, bot.oppShares, bot.neutralShares, ch, enemy, zone)
      ensures ZoneLooked(bot.BoardOf(gs), Now(), bot.myShares, bot.oppShares, bot.neutralShares, ch, enemy, zone)
    {
      var b := bot.BoardOf(gs);
      enemy, zone := None, None;
      if ZoneGoal(b)(myPos, 0) {
        var captureProb := CaptureProb(bot.myShares, bot.oppShares, bot.neutralShares) * 0.8;
        if captureProb >= ch.capture {
          return CaptureZone, enemy, zone;
        }
        var shot := ShootIfSeeingEnemy(gs, false, false);
        if shot.Some? {
          return shot.value, enemy, zone;
        }
        var turn;
        turn, enemy := RotateToEnemy(gs, ch.turn, ch.drunk);
        if turn.Some? {
          return turn.value, enemy, zone;
        }
        if ch.wander % 4 == 0 {
          return Wander(b, myPos, ch.drunk), enemy, zone;
        }
        return CaptureZone, enemy, zone;
      }

      var step;
      step, zone := BfsStrategy(gs, ZoneGoal(b));
      if step.Some? {
        return step.value, enemy, zone;
      }
      return Wander(b, myPos, ch.drunk), enemy, zone;
    }

    /** `NextMove` of one tank: the decision cascade. It always answers,
        with what `Cascade` answers on the board the decision started from,
        given the draws and the lookups it ran; the knowledge map changes
        only when a mine is dropped. */
    method NextMove(gs: GameState, ch: Chance) returns (r: Option<Response>, ghost lk: Lookups)
      requires Placed(gs)
      modifies bot.knowledgeMap
      ensures Placed(gs) && LookupsOk(lk)
      ensures r == Some(Cascade(old(bot.BoardOf(gs)), gs.time, Now(), bot.myShares, bot.oppShares, bot.neutralShares, ch, lk))
      ensures Looked(old(bot.BoardOf(gs)), gs.time, Now(), bot.myShares, bot.oppShares, bot.neutralShares, ch, lk)
      ensures bot.knowledgeMap.tiles == old(bot.knowledgeMap.tiles)
      ensures bot.knowledgeMap.isVisible == old(bot.knowledgeMap.isVisible)
      ensures r != Some(AbilityUse(DropMine)) ==> bot.knowledgeMap.minesLiveness == old(bot.knowledgeMap.minesLiveness)
      ensures r == Some(AbilityUse(DropMine)) ==>
        bot.knowledgeMap.minesLiveness == MineNoted(old(bot.knowledgeMap.minesLiveness), myPos)
    {
      ghost var b := bot.BoardOf(gs);
      lk := Lookups(None, None, None, None, None);
      if gs.time % 6 != 0 {
        return Some(CaptureZone), lk;
      }
      r := Reflexes(gs, ch);
      ReflexNeverMines(b, Now(), ch);
      if r.Some? {
        return r, lk;
      }
      ghost var flee, mate, heal;
      r, flee, mate, heal := Evade(gs);
      lk := Lookups(flee, mate, heal, None, None);
      if r.Some? {
        return r, lk;
      }
      r := DropMineIfReasonable(gs);
      if r.Some? {
        return r, lk;
      }
      assert bot.BoardOf(gs) == b;
      r := UseRadarIfPossible(myTank);
      if r.Some? {
        return r, lk;
      }
      var last;
      ghost var enemy, zone;
      last, enemy, zone := ZonePlay(gs, ch);
      ZoneMoveNeverMines(b, Now(), bot.myShares, bot.oppShares, bot.neutralShares, ch, enemy, zone);
      lk := Lookups(flee, mate, heal, enemy, zone);
      r := Some(last);
    }
  }
}
