/** Option, the model's stand-in for JavaScript's `null` / Python's `None` results. */
module Wrappers {
  datatype Option<+T> = None | Some(value: T) {
    function GetOr(default: T): T {
      match this
      case Some(v) => v
      case None => default
    }
  }

  /** Bytes as JavaScript's Uint8Array and DataView.getUint8 deliver them. */
  type byte = b: int | 0 <= b < 256
}
