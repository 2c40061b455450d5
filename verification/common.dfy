/** Types shared by the modules of the download engine. */
module Common {

  /** One octet of torrent content or of a wire message. */
  newtype byte = x: int | 0 <= x < 256

  datatype Option<+T> = None | Some(value: T)

  function Min(a: int, b: int): int {
    if a < b then a else b
  }

  /** How often a condition counts. */
  function One(b: bool): nat {
    if b then 1 else 0
  }

  function Max(a: int, b: int): int {
    if a < b then b else a
  }
}
