/** Result types, error codes and the 32-bit counter type shared by every component. */
module Common {

  datatype Option<+T> = None | Some(value: T)

  /** The library's negative return codes, as far as the modelled code produces them. */
  datatype Error =
    | InvalidArgument
    | Unknown
    | DuplicateMessage
    | InvalidKey
    | InvalidKeyId
    | InvalidMessage
    | InvalidProtoBuf
    | NoSession
    | StaleKeyExchange
    | UntrustedIdentity

  datatype Result<+T> = Ok(value: T) | Err(error: Error) {
    predicate IsFailure() {
      Err?
    }

    function PropagateFailure<U>(): Result<U>
      requires Err?
    {
      Err(error)
    }

    function Extract(): T
      requires Ok?
    {
      value
    }
  }

  type Plaintext = seq<bv8>

  const U32_LIMIT: int := 0x1_0000_0000

  type u32 = x: int | 0 <= x < U32_LIMIT

  /** 32-bit increment, with the wrap-around of the source's unsigned counters. */
  function Increment(x: u32): u32 {
    if x + 1 == U32_LIMIT then 0 else x + 1
  }

  function ToU32(n: nat): u32 {
    n % U32_LIMIT
  }

  /** The largest pre-key id, that of the last-resort pre key. */
  const PRE_KEY_MEDIUM_MAX_VALUE: u32 := 0xFFFFFF
}
