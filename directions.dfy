/** Symbolic port directions. The simulator names ports by strings; the
    names used by the routing unit and the topology builders are the cases
    below. */
module Directions {

  datatype Direction =
    | Local
    | North | South
    | East | West
    | Up | Down
    | Left | Right

  /** The inport on which a flit arrives after leaving on `d`: every
      topology builder wires a link leaving by North into the neighbour's
      South inport, East into West, Up into Down, Right into Left, and back. */
  function Opposite(d: Direction): (o: Direction)
    ensures d != Local ==> o != d
    ensures d == Local <==> o == Local
  {
    match d
    case Local => Local
    case North => South
    case South => North
    case East => West
    case West => East
    case Up => Down
    case Down => Up
    case Left => Right
    case Right => Left
  }
}
