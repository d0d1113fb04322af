/** Primitive types shared by the factory and the offspring contracts. */
module Types {

  type byte = x: int | 0 <= x < 0x100
  type Bytes = seq<byte>
  type u32 = x: int | 0 <= x < 0x1_0000_0000
  type u64 = x: int | 0 <= x < 0x1_0000_0000_0000_0000
  type i32 = x: int | -0x8000_0000 <= x < 0x8000_0000

  const I32_MAX: i32 := 0x7fff_ffff

  /** The all-zero 32-byte string. */
  const ZERO_HASH: Bytes :=
    [0, 0, 0, 0, 0, 0, 0, 0, 0, 0, 0, 0, 0, 0, 0, 0,
     0, 0, 0, 0, 0, 0, 0, 0, 0, 0, 0, 0, 0, 0, 0, 0]

  /** A 32-byte digest or password (`[u8; 32]`). */
  type Hash = s: Bytes | |s| == 32 witness ZERO_HASH

  /**
   * An account or contract address. Human-readable and canonical forms are
   * the same value here, so every key derived from an address is injective.
   */
  datatype Addr = Addr(bytes: Bytes)

  /** Code hash and address of a contract. */
  datatype ContractInfo = ContractInfo(codeHash: string, address: Addr)

  /** The part of the execution environment the contracts read. */
  datatype Env = Env(
    height: u64,
    time: u64,
    sender: Addr,
    contractAddress: Addr,
    contractCodeHash: string)

  /** The host's standard error kinds used by the contracts. */
  datatype StdError =
    | GenericErr(msg: string)
    | NotFound(kind: string)
    | Unauthorized
}
