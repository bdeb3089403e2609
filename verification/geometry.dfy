/** Directions, cell coordinates and wall surveys of the maze.

    The coordinate type and its move transform belong to the maze library
    and are not part of this model; the delta convention below is a
    modelling choice: `down` is +y, `up` is -y, `right` is +x, `left` is -x,
    with the start cell at (0, 0). */
module Geometry {
  import opened Wrappers

  datatype Direction = Up | Down | Left | Right

  /** The wire name of a direction, as used in move requests. */
  function Name(d: Direction): (s: string)
  {
    match d
    case Up => "up"
    case Down => "down"
    case Left => "left"
    case Right => "right"
  }

  /** Reads a direction name; exactly the four names are accepted. */
  function Parse(s: string): (r: Option<Direction>)
    ensures r.Some? <==> s == "left" || s == "right" || s == "up" || s == "down"
    ensures r.Some? ==> Name(r.value) == s
  {
    if s == "up" then Some(Up)
    else if s == "down" then Some(Down)
    else if s == "left" then Some(Left)
    else if s == "right" then Some(Right)
    else None
  }

  lemma ParseName(d: Direction)
    ensures Parse(Name(d)) == Some(d)
  {
  }

  /** The direction that undoes `d`. */
  function Reverse(d: Direction): (r: Direction)
    ensures r != d
  {
    match d
    case Up => Down
    case Down => Up
    case Left => Right
    case Right => Left
  }

  lemma ReverseInvolution(d: Direction)
    ensures Reverse(Reverse(d)) == d
  {
  }

  datatype Coordinate = Coordinate(x: int, y: int)

  const Origin := Coordinate(0, 0)

  function Transform(c: Coordinate, d: Direction): (c': Coordinate)
  {
    match d
    case Down => Coordinate(c.x, c.y + 1)
    case Up => Coordinate(c.x, c.y - 1)
    case Right => Coordinate(c.x + 1, c.y)
    case Left => Coordinate(c.x - 1, c.y)
  }

  /** Stepping in a direction and then in its reverse returns to the cell one
      started from. */
  lemma TransformReverse(c: Coordinate, d: Direction)
    ensures Transform(Transform(c, d), Reverse(d)) == c
  {
  }

  /** The four neighbours of a cell are four different cells, none of them
      the cell itself. */
  lemma TransformDistinct(c: Coordinate, d1: Direction, d2: Direction)
    ensures Transform(c, d1) != c
    ensures Transform(c, d1) == Transform(c, d2) <==> d1 == d2
  {
  }

  /** The wall report for the cell the agent stands on. */
  datatype Survey = Survey(top: bool, right: bool, bottom: bool, left: bool)

  /** The survey of a reply that carried none: no walls anywhere. */
  const EmptySurvey := Survey(false, false, false, false)

  /** Whether the survey shows a wall on the edge crossed by moving in `d`:
      down crosses the bottom edge, up the top edge. */
  predicate Walled(s: Survey, d: Direction)
  {
    match d
    case Down => s.bottom
    case Up => s.top
    case Right => s.right
    case Left => s.left
  }
}
