/** The screen edge behind which a peer lies. */
module Positions {
  datatype Position = Left | Right | Top | Bottom
}
