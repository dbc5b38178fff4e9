/** The status words a codec reply can carry. */
module CodecStatus {
  import opened Bytes

  const OK: i32 := 0
  const AGAIN: i32 := 1
  const ERROR_PROTOCOL: i32 := -1
  const ERROR_VERSION: i32 := -2
  const ERROR_UNSUPPORTED: i32 := -4
  const ERROR_LIMIT: i32 := -5
  const ERROR_CODEC: i32 := -6
  const ERROR_SESSION: i32 := -7
  const ERROR_IO: i32 := -8
}
