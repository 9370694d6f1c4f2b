/** Result codes of the link layer (link_layer.h). */
module LinkCodes {
  datatype LinkRC =
    | Ok | BufSize | PhyError | InvalidSlot | FlushFailed | InvalidMsg | MsgSizeMismatch | NoMsg | MsgTooBig
    | ChecksumError | OutOfBounds | HeaderError | NotInWindow | TimedOut
}
