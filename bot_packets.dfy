/** The game-state packet as the bot sees it after parsing: tiles holding
    walls, tanks, bullets, mines and lasers, plus the responses the bot can
    send back. Enumerations keep the order of their underlying integers. */
module BotPackets {
  import opened Wrappers

  datatype TankType = Light | Heavy

  /** up = 0, right = 1, down = 2, left = 3. */
  datatype Direction = Up | Right | Down | Left

  /** Optional fields are absent for enemy tanks. */
  datatype Turret = Turret(
    direction: Direction,
    bulletCount: Option<int>,
    ticksToBullet: Option<int>,
    ticksToDoubleBullet: Option<int>,
    ticksToLaser: Option<int>,
    ticksToHealingBullet: Option<int>,
    ticksToStunBullet: Option<int>)

  /** `visibility` is a grid of '0'/'1' characters, indexed like the tiles. */
  datatype Tank = Tank(
    ownerId: string,
    tankType: TankType,
    direction: Direction,
    turret: Turret,
    health: Option<int>,
    ticksToMine: Option<int>,
    ticksToRadar: Option<int>,
    isUsingRadar: Option<bool>,
    visibility: Option<seq<seq<char>>>)

  datatype WallType = Solid | Penetrable

  datatype BulletType = Basic | DoubleBullet | Healing | Stun

  datatype Bullet = Bullet(id: int, kind: BulletType, speed: real, direction: Direction)

  datatype LaserOrientation = Horizontal | Vertical

  datatype Laser = Laser(id: int, orientation: LaserOrientation)

  datatype Mine = Mine(id: int, explosionRemainingTicks: Option<int>)

  /** One alternative of the tile variant: Wall | Tank | Bullet | Mine | Laser. */
  datatype TileObject =
    | WallObj(wallType: WallType)
    | TankObj(tank: Tank)
    | BulletObj(bullet: Bullet)
    | MineObj(mine: Mine)
    | LaserObj(laser: Laser)

  /** `zoneName` is '?' outside every zone. */
  datatype Tile = Tile(objects: seq<TileObject>, zoneName: char)

  /** Team shares are listed in the key order of the packet's map. */
  datatype ZoneShares = ZoneShares(neutral: real, teamShares: seq<(string, real)>)

  datatype Zone = Zone(x: int, y: int, width: int, height: int, name: char, status: ZoneShares)

  /** `tiles[x][y]`: the outer index is the row, the inner one the column. */
  datatype GameState = GameState(time: int, tiles: seq<seq<Tile>>, zones: seq<Zone>)

  datatype RotationDirection = RotLeft | RotRight | RotNone

  datatype MoveDirection = Forward | Backward

  datatype AbilityType =
    | FireBullet | UseLaser | FireDoubleBullet | UseRadar | DropMine
    | FireHealingBullet | FireStunBullet

  /** The response variant. `GoTo` keeps only its target cell. */
  datatype Response =
    | Rotate(tankRotation: RotationDirection, turretRotation: RotationDirection)
    | Move(direction: MoveDirection)
    | AbilityUse(ability: AbilityType)
    | Wait
    | GoTo(x: int, y: int)
    | CaptureZone

  /** Every tile row has `dim` tiles and there are `dim` rows. */
  ghost predicate SquareTiles(tiles: seq<seq<Tile>>, dim: nat) {
    |tiles| == dim && forall i :: 0 <= i < dim ==> |tiles[i]| == dim
  }
}
