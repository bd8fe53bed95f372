/** Types several modules share. */
module Common {

  datatype Option<+T> = None | Some(value: T)

  type Byte = x: int | 0 <= x < 256
  type Bytes = seq<Byte>

  /** The two sides of a pairing, a room, a session. */
  datatype Role = Host | Guest {
    function Other(): Role { if Host? then Guest else Host }
  }
}
