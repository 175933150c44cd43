/** kernel/param.h: the constants that tie the log, the buffer cache and the file system together. */
module Param {
  const MAXOPBLOCKS: nat := 10          // blocks one operation may log
  const LOGBLOCKS: nat := MAXOPBLOCKS * 3
  const NBUF: nat := MAXOPBLOCKS * 3
}
