/** Optional values and fallible results, used wherever the system returns
    `null`/`undefined` or rejects an operation with an error. */
module Wrappers {

  /** A value that may be missing: the source's `T | null` and `T | undefined`. */
  datatype Option<+T> = None | Some(value: T) {

    /** The wrapped value, or `default` when there is none (`x ?? default`). */
    function GetOr(default: T): T {
      match this
      case Some(v) => v
      case None => default
    }
  }

  /** Either a successful value or an error: a thrown error or a rejected
      instruction in the source. */
  datatype Result<+T, +E> = Ok(value: T) | Err(error: E) {

    predicate IsFailure() {
      Err?
    }

    function PropagateFailure<U>(): Result<U, E>
      requires Err?
    {
      Err(error)
    }

    function Extract(): T
      requires Ok?
    {
      value
    }
  }
}

/** Bytes and fixed-width byte arrays shared by the ledger program and the
    location hasher. */
module Bytes {

  type Byte = b: int | 0 <= b < 256

  /** A 32-byte array (`[u8; 32]`): public keys and context hashes. */
  type Bytes32 = s: seq<Byte> | |s| == 32 witness ZERO_32

  /** The all-zero 32-byte array, `new Array(32).fill(0)`. */
  const ZERO_32: seq<Byte> := [0, 0, 0, 0, 0, 0, 0, 0, 0, 0, 0, 0, 0, 0, 0, 0,
                               0, 0, 0, 0, 0, 0, 0, 0, 0, 0, 0, 0, 0, 0, 0, 0]
}
