/** Value types shared by the whole model of the Bitkoin NFT collection contract. */
module Types {

  newtype byte = x: int | 0 <= x < 256

  /** An account address, an opaque byte string; the empty string is the "unset" address. */
  type Address = seq<byte>

  const U64_MAX: int := 0xFFFF_FFFF_FFFF_FFFF

  /** The contract stores every counter as an unsigned 64-bit integer. */
  type u64 = x: int | 0 <= x <= U64_MAX

  /** One token record of the token table. */
  datatype Token = Token(
    owner: Address,
    bought: bool,
    claimed: bool,
    boughtBy: Address,
    bitkoinValue: u64)

  datatype Royalty = Royalty(address: Address, amount: u64)

  /** Contract-wide configuration; an empty owner means "not set yet". */
  datatype Config = Config(owner: Address, royalties: seq<Royalty>)

  /** Why a call aborted; one constructor per distinct abort of the contract. */
  datatype Error =
    | Unauthorized            // System.requireAuthority refused the account
    | Overflow                // SafeMath.add past 2^64 - 1
    | Underflow               // SafeMath.sub below zero
    | NullToken               // `token!` on a missing token (get_approved)
    | NonexistentToken        // "nonexistent token"
    | FromNotOwner            // "from is not an owner"
    | AlreadyBought           // "NFT already bought, it cannot be reselled. ..."
    | AlreadyClaimed          // "Tokens already claimed for this nft ..."
    | TransferNotAuthorized   // "from has not authorized transfer"
    | ApproveToOwner          // "approve to current owner"
    | OperatorRecordMissing   // "approved does not exist"
    | ApproverNotOperator     // "approver_address is not owner"
    | ApproveToSelf           // "approve to operator_address"
    | RoyaltyExceeded         // "ROYALTY_EXEDED_MAX"
    | TokenIdOutOfBounds      // "token id out of bounds"
    | AddressLimitExceeded    // "exceeds the limit of tokens per address"

  datatype Result<T> = Success(value: T) | Failure(error: Error)

  /** What an entry point without a return value reports: it ran to completion, or it aborted. */
  datatype Outcome = Pass | Fail(error: Error)
}

/** The deployment parameters the contract is compiled with. */
module Constants {
  import opened Types

  const MAX_SUPPLY: u64 := 10

  /** Base58 "1JGLmE1BbZCZ6xcM2yHJ5tMBnrEQb3eTJA": the creator, who receives every minted token. */
  const OWNER: Address := [
    0x00, 0xbd, 0x60, 0xdf, 0xe8, 0xa5, 0x84, 0x70, 0x0b, 0x7b, 0x8d, 0xb2, 0xea,
    0x3e, 0xcb, 0xc4, 0x89, 0x29, 0x5e, 0xfb, 0x32, 0x75, 0x1c, 0xcd, 0xf3]

  /** Base58 "16QqxFiift3FhBBaNCJiGoZUivx44Seqxe": the claims authority and the burn sink. */
  const BTK_ADDRESS: Address := [
    0x00, 0x3b, 0x5b, 0x0f, 0x45, 0x95, 0xfc, 0x8d, 0x94, 0xe6, 0x18, 0xd6, 0x95,
    0x7f, 0xb5, 0x7a, 0xdf, 0x94, 0xed, 0x13, 0x29, 0xef, 0x85, 0x71, 0xd3]

  const STANDARD_BTK_VALUE: u64 := 5_000_000_000_000
  const LARGE_BTK_VALUE: u64 := 25_000_000_000_000
  const MAX_LARGE_BTK_SUPPLY: u64 := 3

  /** Royalties are in basis points: their sum may not pass 100%. */
  const ROYALTY_CAP: u64 := 10000

  /** A mint must leave the recipient's balance strictly below this. */
  const ADDRESS_CAP: u64 := 201
}
