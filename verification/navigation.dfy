/**
 * Directions and coordinates shared by the map, the rooms and the level builder.
 * Coordinates have their origin in the top-left corner: x grows to the East and
 * y grows to the South.
 */
module Navigation {

  datatype Direction = North | East | South | West | Center {

    /** East and West are the horizontal directions. */
    predicate IsHorizontal() {
      East? || West?
    }

    function Opposite(): (r: Direction)
      ensures r.Dx() == -Dx() && r.Dy() == -Dy()
      ensures r.IsHorizontal() == IsHorizontal()
    {
      match this
      case North => South
      case East => West
      case South => North
      case West => East
      case Center => Center
    }

    function Dx(): int {
      match this
      case East => 1
      case West => -1
      case _ => 0
    }

    function Dy(): int {
      match this
      case South => 1
      case North => -1
      case _ => 0
    }
  }

  datatype Coordinate = Coordinate(x: int, y: int) {

    /** Vector addition of a coordinate and a direction. */
    function Plus(d: Direction): (r: Coordinate)
      ensures d.Center? <==> r == this
      ensures d.IsHorizontal() ==> r.y == y
      ensures (d.North? || d.South?) ==> r.x == x
    {
      Coordinate(x + d.Dx(), y + d.Dy())
    }
  }
}
