/**
 * The contract's persistent state as one value, and every entry point of the
 * contract as a function from the state before the call to the state after it
 * (or the reason the call aborted). Each function makes its checks in the
 * order the contract makes them, so that the error it reports is the one the
 * contract raises first.
 */
module Ledger {
  import opened Types
  import opened Constants

  /** The tables the contract keeps in host storage. Absent keys read as defaults. */
  datatype State = State(
    config: Config,
    supply: u64,
    tokens: map<nat, Token>,
    balances: map<Address, u64>,
    approvals: map<nat, Address>,
    operators: map<(Address, Address), bool>)
  {
    function BalanceOf(account: Address): u64 {
      if account in balances then balances[account] else 0
    }

    function OwnerOf(id: nat): Address {
      if id in tokens then tokens[id].owner else []
    }

    function BoughtBy(id: nat): Address {
      if id in tokens then tokens[id].boughtBy else []
    }

    function IsBought(id: nat): bool {
      id in tokens && tokens[id].bought
    }

    function IsClaimed(id: nat): bool {
      id in tokens && tokens[id].claimed
    }

    function BitkoinValueOf(id: nat): u64 {
      if id in tokens then tokens[id].bitkoinValue else 0
    }

    /** The operator record stored under the ordered pair (first, second). */
    function IsApprovedForAll(first: Address, second: Address): bool {
      (first, second) in operators && operators[(first, second)]
    }

    /** Aborts on a missing token (a null dereference) and on a bought one. */
    function GetApproved(id: nat): Result<Address> {
      if id !in tokens then Failure(NullToken)
      else if tokens[id].bought then Failure(AlreadyBought)
      else Success(if id in approvals then approvals[id] else [])
    }
  }

  /** The state of a freshly deployed contract. */
  const Empty: State := State(Config([], []), 0, map[], map[], map[], map[])

  /** The state the host keeps after a call: the call's writes if it completed, none if it aborted. */
  function Commit(s: State, r: Result<State>): State {
    if r.Success? then r.value else s
  }

  function Status(r: Result<State>): Outcome {
    if r.Success? then Pass else Fail(r.error)
  }

  // ---------------------------------------------------------------------------
  // Configuration

  /** The account whose authority owner-only calls require: the stored owner, or OWNER while none is stored. */
  function EffectiveOwner(c: Config): Address {
    if |c.owner| > 0 then c.owner else OWNER
  }

  /** Sum of the royalty amounts, accumulated left to right. */
  function Total(rs: seq<Royalty>): nat {
    if rs == [] then 0 else Total(rs[..|rs| - 1]) + rs[|rs| - 1].amount
  }

  /** A prefix of a royalty table never sums to more than the whole table. */
  lemma {:induction false} TotalOfPrefix(rs: seq<Royalty>, k: nat)
    requires k <= |rs|
    ensures Total(rs[..k]) <= Total(rs)
    decreases |rs|
  {
    if k < |rs| {
      var init := rs[..|rs| - 1];
      assert init[..k] == rs[..k];
      TotalOfPrefix(init, k);
    } else {
      assert rs[..k] == rs;
    }
  }

  function SetRoyalties(s: State, royalties: seq<Royalty>, auth: set<Address>): Result<State> {
    if EffectiveOwner(s.config) !in auth then Failure(Unauthorized)
    else if Total(royalties) > U64_MAX then Failure(Overflow)
    else if Total(royalties) > ROYALTY_CAP then Failure(RoyaltyExceeded)
    else Success(s.(config := s.config.(royalties := royalties)))
  }

  function TransferOwnership(s: State, newOwner: Address, auth: set<Address>): Result<State> {
    if EffectiveOwner(s.config) !in auth then Failure(Unauthorized)
    else Success(s.(config := s.config.(owner := newOwner)))
  }

  // ---------------------------------------------------------------------------
  // Minting

  /** Valuation tier of a minted id: strictly below MAX_LARGE_BTK_SUPPLY is large. */
  function TierValue(id: nat): u64 {
    if id < MAX_LARGE_BTK_SUPPLY then LARGE_BTK_VALUE else STANDARD_BTK_VALUE
  }

  /** The record mint writes for `id`, owned by `to`; its buyer is left unset. */
  function MintedToken(to: Address, id: nat): Token {
    Token(to, false, false, [], TierValue(id))
  }

  /** The records mint writes for ids lo..hi (inclusive). */
  function MintRange(to: Address, lo: nat, hi: nat): map<nat, Token> {
    map id | lo <= id <= hi :: MintedToken(to, id)
  }

  /** The records for lo..hi are those for lo..hi-1 plus the one for hi. */
  lemma MintRangeExtend(base: map<nat, Token>, to: Address, lo: nat, hi: nat)
    requires 0 < lo <= hi
    ensures base + MintRange(to, lo, hi) == (base + MintRange(to, lo, hi - 1))[hi := MintedToken(to, hi)]
  {
  }

  /**
   * Every minted token goes to OWNER, the contract's creator. The records of
   * the new ids are written before the checks on OWNER's balance; if one of
   * those fails, the host discards the records along with the rest.
   */
  function Mint(s: State, count: u64, auth: set<Address>): Result<State> {
    if s.supply + count > U64_MAX then Failure(Overflow)
    else if OWNER !in auth then Failure(Unauthorized)
    else if s.supply + count == 0 then Failure(TokenIdOutOfBounds)
    else if s.supply + count > MAX_SUPPLY then Failure(TokenIdOutOfBounds)
    else Credit(s.(tokens := s.tokens + MintRange(OWNER, s.supply + 1, s.supply + count)), OWNER, count)
  }

  /** The end of mint: `to`'s balance grows by `count`, within u64 and below ADDRESS_CAP, and so does supply. */
  function Credit(s: State, to: Address, count: u64): Result<State>
    requires s.supply + count <= U64_MAX
  {
    if s.BalanceOf(to) + count > U64_MAX then Failure(Overflow)
    else if s.BalanceOf(to) + count >= ADDRESS_CAP then Failure(AddressLimitExceeded)
    else Success(s.(balances := s.balances[to := s.BalanceOf(to) + count], supply := s.supply + count))
  }

  // ---------------------------------------------------------------------------
  // Authorization cascade of transfer and burn

  /**
   * May `caller` act for `acting` on token `id`? Directly, through the token's
   * approval, through the operator record (token owner, caller), or because
   * the host vouches for `hostAccount`.
   */
  predicate Authorized(s: State, id: nat, acting: Address, caller: Address, hostAccount: Address, auth: set<Address>)
    requires id in s.tokens
  {
    || caller == acting
    || (id in s.approvals && s.approvals[id] == caller)
    || s.IsApprovedForAll(s.tokens[id].owner, caller)
    || hostAccount in auth
  }

  // ---------------------------------------------------------------------------
  // Lifecycle

  /** The one allowed sale of a token. Balances are written `to` first and `from` last. */
  function Transfer(s: State, from: Address, to: Address, id: nat, caller: Address, auth: set<Address>): Result<State> {
    if id !in s.tokens then Failure(NonexistentToken)
    else
      var t := s.tokens[id];
      if t.owner != from then Failure(FromNotOwner)
      else if t.bought then Failure(AlreadyBought)
      else if !Authorized(s, id, from, caller, from, auth) then Failure(TransferNotAuthorized)
      else if s.BalanceOf(from) == 0 then Failure(Underflow)
      else if s.BalanceOf(to) + 1 > U64_MAX then Failure(Overflow)
      else
        Success(s.(approvals := s.approvals - {id},
                   tokens := s.tokens[id := t.(owner := to, bought := true, claimed := false, boughtBy := to)],
                   balances := s.balances[to := s.BalanceOf(to) + 1][from := s.BalanceOf(from) - 1]))
  }

  /** Hands a token to the burn sink, debiting its buyer of record. */
  function Burn(s: State, id: nat, caller: Address, auth: set<Address>): Result<State> {
    if id !in s.tokens then Failure(NonexistentToken)
    else
      var t := s.tokens[id];
      var buyer := t.boughtBy;
      if !Authorized(s, id, buyer, caller, caller, auth) then Failure(TransferNotAuthorized)
      else if s.BalanceOf(buyer) == 0 then Failure(Underflow)
      else if s.BalanceOf(BTK_ADDRESS) + 1 > U64_MAX then Failure(Overflow)
      else
        Success(s.(approvals := s.approvals - {id},
                   tokens := s.tokens[id := t.(owner := BTK_ADDRESS)],
                   balances := s.balances[BTK_ADDRESS := s.BalanceOf(BTK_ADDRESS) + 1][buyer := s.BalanceOf(buyer) - 1]))
  }

  function ClaimTokens(s: State, id: nat, auth: set<Address>): Result<State> {
    if id !in s.tokens then Failure(NonexistentToken)
    else if s.tokens[id].claimed then Failure(AlreadyClaimed)
    else if BTK_ADDRESS !in auth then Failure(Unauthorized)
    else Success(s.(tokens := s.tokens[id := s.tokens[id].(claimed := true)]))
  }

  function Approve(s: State, approver: Address, to: Address, id: nat, auth: set<Address>): Result<State> {
    if approver !in auth then Failure(Unauthorized)
    else if id !in s.tokens then Failure(NonexistentToken)
    else
      var owner := s.tokens[id].owner;
      if owner == to then Failure(ApproveToOwner)
      else if owner != approver && (owner, approver) !in s.operators then Failure(OperatorRecordMissing)
      else if owner != approver && !s.operators[(owner, approver)] then Failure(ApproverNotOperator)
      else Success(s.(approvals := s.approvals[id := to]))
  }

  /** Stores the record under (operator, approver): the reverse of the order every lookup uses. */
  function SetApprovalForAll(s: State, approver: Address, operator: Address, approved: bool, auth: set<Address>): Result<State> {
    if approver !in auth then Failure(Unauthorized)
    else if approver == operator then Failure(ApproveToSelf)
    else Success(s.(operators := s.operators[(operator, approver) := approved]))
  }

  // ---------------------------------------------------------------------------
  // Sequences of calls

  /** One call of a state-changing entry point, with the host's answers for it. */
  datatype Call =
    | SetRoyaltiesCall(royalties: seq<Royalty>, auth: set<Address>)
    | TransferOwnershipCall(newOwner: Address, auth: set<Address>)
    | MintCall(count: u64, auth: set<Address>)
    | BurnCall(id: nat, caller: Address, auth: set<Address>)
    | ClaimTokensCall(id: nat, auth: set<Address>)
    | TransferCall(from: Address, to: Address, id: nat, caller: Address, auth: set<Address>)
    | ApproveCall(approver: Address, to: Address, id: nat, auth: set<Address>)
    | SetApprovalForAllCall(approver: Address, operator: Address, approved: bool, auth: set<Address>)

  function Apply(s: State, c: Call): Result<State> {
    match c
    case SetRoyaltiesCall(rs, auth) => SetRoyalties(s, rs, auth)
    case TransferOwnershipCall(o, auth) => TransferOwnership(s, o, auth)
    case MintCall(n, auth) => Mint(s, n, auth)
    case BurnCall(id, caller, auth) => Burn(s, id, caller, auth)
    case ClaimTokensCall(id, auth) => ClaimTokens(s, id, auth)
    case TransferCall(from, to, id, caller, auth) => Transfer(s, from, to, id, caller, auth)
    case ApproveCall(approver, to, id, auth) => Approve(s, approver, to, id, auth)
    case SetApprovalForAllCall(approver, op, ok, auth) => SetApprovalForAll(s, approver, op, ok, auth)
  }

  /** The state after a sequence of calls, each committed or rolled back. */
  function Run(s: State, calls: seq<Call>): State
    decreases |calls|
  {
    if calls == [] then s else Run(Commit(s, Apply(s, calls[0])), calls[1..])
  }
}
