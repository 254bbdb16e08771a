/** The server's direction helpers (`DirectionUtils`). The server works on
    (x, y) with y growing downwards, so `Up` is (0, -1); this differs from
    the bot's (row, column) convention. The enumeration's integers follow
    its declaration order: Up = 0, Right = 1, Down = 2, Left = 3. */
module LogicDirections {

  datatype Direction = Up | Right | Down | Left

  datatype Orientation = Horizontal | Vertical

  /** The enumeration's underlying integer. */
  function Value(d: Direction): (n: nat)
    ensures n < 4
  {
    match d
    case Up => 0
    case Right => 1
    case Down => 2
    case Left => 3
  }

  /** `ToDegrees`: clockwise from up. */
  function ToDegrees(d: Direction): int {
    match d
    case Up => 0
    case Right => 90
    case Down => 180
    case Left => 270
  }

  /** `Normal`: the unit step of a direction on (x, y). */
  function Normal(d: Direction): (int, int) {
    match d
    case Up => (0, -1)
    case Right => (1, 0)
    case Down => (0, 1)
    case Left => (-1, 0)
  }

  /** `ArePerpendicular`: the enumeration values differ in parity. */
  predicate ArePerpendicular(a: Direction, b: Direction) {
    Value(a) % 2 != Value(b) % 2
  }

  /** `ToOrientation`: up and down are vertical, left and right horizontal. */
  function ToOrientation(d: Direction): Orientation {
    match d
    case Up => Vertical
    case Down => Vertical
    case Left => Horizontal
    case Right => Horizontal
  }

  /** Each normal is a unit vector along one axis, pointing as its name
      says on a grid whose y grows downwards. */
  lemma {:induction false} NormalIsUnitAxis(d: Direction)
    ensures var (nx, ny) := Normal(d);
      (nx == 0 || ny == 0) && nx * nx + ny * ny == 1
    ensures Normal(d).1 < 0 <==> d == Up
    ensures Normal(d).0 > 0 <==> d == Right
    ensures Normal(d).1 > 0 <==> d == Down
    ensures Normal(d).0 < 0 <==> d == Left
  {
  }

  /** Two directions are perpendicular exactly when their orientations
      differ, exactly when their normals are orthogonal; the relation is
      symmetric and irreflexive. */
  lemma {:induction false} PerpendicularMeansOtherAxis(a: Direction, b: Direction)
    ensures ArePerpendicular(a, b) <==> ToOrientation(a) != ToOrientation(b)
    ensures ArePerpendicular(a, b) <==> Normal(a).0 * Normal(b).0 + Normal(a).1 * Normal(b).1 == 0
    ensures ArePerpendicular(a, b) == ArePerpendicular(b, a)
    ensures !ArePerpendicular(a, a)
  {
  }

  /** The degrees are distinct multiples of 90 below 360, in enumeration
      order. */
  lemma {:induction false} DegreesAreQuarterTurns(a: Direction, b: Direction)
    ensures ToDegrees(a) == 90 * Value(a)
    ensures 0 <= ToDegrees(a) < 360
    ensures ToDegrees(a) == ToDegrees(b) ==> a == b
  {
  }

  /** Opposite directions have opposite normals. */
  predicate Opposite(a: Direction, b: Direction) {
    Value(a) + 2 == Value(b) || Value(b) + 2 == Value(a)
  }

  lemma {:induction false} OppositeNormals(a: Direction, b: Direction)
    ensures Opposite(a, b) <==> Normal(a).0 == -Normal(b).0 && Normal(a).1 == -Normal(b).1
  {
  }
}
