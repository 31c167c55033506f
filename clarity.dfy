/**
 * Values shared by the four contract mocks: caller identities, opaque hashes,
 * the `{ value }` / `{ error }` response of a public call, and the fixed
 * values the mocks write in place of a real block height or principal.
 */
module Clarity {

  /** A caller identity (a Stacks principal), compared only for equality. */
  type Principal = string

  /** An opaque hash supplied by the caller; nothing inspects its bytes. */
  type Hash = seq<bv8>

  /** Error code: the caller lacks the privilege the call needs. */
  const UNAUTHORIZED: nat := 403

  /** Error code: the entity the call refers to does not exist. */
  const NOT_FOUND: nat := 404

  /** The block height the mocks stamp on every record they create. */
  const MOCK_BLOCK_HEIGHT: int := 100

  /** The principal the mocks use as contract owner and as registrant. */
  const MOCK_PRINCIPAL: Principal := "ST1PQHQKV0RJXZFY1DGX8MNSNYVE3VGZJSRTPGZGM"

  /** A lookup result: `None` stands for the mocks' `null`. */
  datatype Option<+T> = None | Some(value: T)

  /** The result of a public call: `{ value: v }` or `{ error: code }`. */
  datatype Response<+T> = Value(value: T) | Error(code: nat)

  /** A call's response together with the contract state after the call. */
  datatype Step<+T, +S> = Step(response: Response<T>, state: S)
}
