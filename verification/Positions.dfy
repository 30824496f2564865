/** The four sides of a screen, shared by the wire format and the capture wrapper. */
module Positions {
  datatype Position = Left | Right | Top | Bottom {
    function Opposite(): Position {
      match this
      case Left => Right
      case Right => Left
      case Top => Bottom
      case Bottom => Top
    }
  }
}
