/** Limits and word sizes used throughout (param.h, types.h). */
module Params {

  /** The most blocks that one file system operation may log. */
  const MAXOPBLOCKS: nat := 10

  /** The capacity of the in-memory log header. */
  const LOGSIZE: nat := MAXOPBLOCKS * 3

  /** The number of buffers in the buffer cache. */
  const NBUF: nat := MAXOPBLOCKS * 3

  /** One more than the largest uint. */
  const UINT: int := 0x1_0000_0000
}
