# Bitkoin NFT collection: a Dafny model

This project models the `Collections` contract of the Bitkoin NFT collection,
a non-fungible-token ledger that runs on the Koinos blockchain. The contract
mints a fixed supply of at most 10 tokens to its creator (`OWNER`). Each token
carries a Bitkoin valuation tier. A token may be sold (transferred) exactly
once. The external claims address (`BTK_ADDRESS`) may mark a token claimed,
before or after its sale (claim_tokens does not look at the sale flag), and a
token may be burned into that same address. Approvals let a spender
or an operator act for an owner. The contract also keeps a royalty table,
capped at 10000 basis points, and an owner who may change that table or hand
ownership over.

The model has two layers:

- `Ledger` (ledger.dfy) holds the persistent state as one value, `Ledger.State`.
  Each entry point is a function from the state before the call to the new
  state or the error that aborts it. The checks come in the contract's order,
  so the reported error is the one the contract raises first.
- `Contract.Collections` (collections.dfy) is the contract object. Its tables
  are map fields. Its methods update those fields step by step, in the
  contract's order, and each method is proved to end in the state that the
  matching `Ledger` function describes. Each method also keeps the invariant
  `Invariants.Wf`.

The host's side of a call is passed in as arguments:

- `caller` is the account `System.getCaller` reports.
- `auth` is the set of accounts the host vouches for. `requireAuthority(a)`
  passes and `checkAuthority(a)` answers true exactly when `a` is in `auth`.

When a call aborts, the host discards every write that call made. `Ledger.Commit`
models this. Where the contract writes before a later check, the class method
puts back what it wrote on the failing path:

- mint writes the token records before checking OWNER's balance;
- transfer and burn clear the token approval before checking balances.

Besides the per-call contracts, the project proves the following.

- `Lifecycle`: for each entry point, exactly when it completes and what it
  writes. It also covers the authorization cascade, resale blocking, the
  blocking of claims once a sold token is claimed (a sale clears the flag, so
  an unsold token's claim does not last) and the valuation tiers.
- `Invariants`: every call keeps ids equal to 1..supply, supply within
  MAX_SUPPLY, each token's tier value, no buyer on unsold tokens, and the
  royalty cap. No call undoes a sale, removes a token or lowers supply. These
  facts hold after any sequence of calls from deployment.
- `Balances`: a balance equals the number of tokens owned. Mint, a transfer
  between two different accounts, a burn of a token that its buyer still owns
  when that buyer is not BTK_ADDRESS, and every other call keep this
  consistency. Each of the following breaks it, shown with a concrete run:
  - a transfer to oneself;
  - a second burn of the same token;
  - a burn whose buyer of record is BTK_ADDRESS itself;
  - a burn of an unsold token once the empty address holds a balance.

The model follows the code literally, including in these places:

- The large valuation goes to ids strictly below `MAX_LARGE_BTK_SUPPLY`
  (assembly/Collections.ts:225). With the value 3, ids 1 and 2 are large and
  id 3 is standard.
- `owner()` returns the stored owner as it is, which is empty until
  `transfer_ownership` first runs. The owner-only checks fall back to `OWNER`
  in that case.
- `set_approval_for_all` stores its record under (operator, approver). Every
  lookup reads the pair as (owner, operator). So the record authorizes the
  approver over the operator's tokens, not the other way round
  (`Lifecycle.OperatorRecordIsReversed`).
- Burn debits the token's buyer of record and never checks that the buyer
  still owns the token, that the token was sold, or that the buyer is not the
  sink. Transfer debits and credits the same account when
  `from == to`. Balance consistency therefore holds only under the conditions
  the `Balances` lemmas state, not for every sequence of calls.
- In burn, the host is asked about the caller, not about the buyer
  (`Lifecycle.BurnHostCheckIsOnCaller`).
- `get_approved` aborts on a missing token (a null dereference) as well as on
  a bought one.

## Model

| member | source | states |
|---|---|---|
| Ledger.EffectiveOwner | assembly/Collections.ts:513-521 | the account owner-only calls need: the stored owner, or OWNER while none is stored |
| Ledger.SetRoyalties | assembly/Collections.ts:39-65 | checks in order: owner authority (Unauthorized), the u64 running sum (Overflow), the 10000 cap (RoyaltyExceeded); then replaces the royalty table |
| Ledger.TransferOwnership | assembly/Collections.ts:72-92 | owner authority (Unauthorized), then the stored owner is replaced |
| Ledger.TierValue | assembly/Collections.ts:225 | the value mint gives an id: LARGE below MAX_LARGE_BTK_SUPPLY, STANDARD from it on |
| Ledger.Mint | assembly/Collections.ts:187-256 | checks in order: supply+count in u64 (Overflow), OWNER's authority (Unauthorized), supply+count above 0 and at most MAX_SUPPLY (TokenIdOutOfBounds); then writes the records supply+1..supply+count owned by OWNER and finishes with Ledger.Credit |
| Ledger.Credit | assembly/Collections.ts:242-253 | OWNER's balance plus count in u64 (Overflow) and below 201 (AddressLimitExceeded); then balance and supply grow by count |
| Ledger.Authorized | assembly/Collections.ts:377-396 | the cascade of transfer and burn: the caller is the acting account, holds the token approval, holds the operator record (token owner, caller), or the host vouches for the given account |
| Ledger.Transfer | assembly/Collections.ts:359-429 | checks in order: token exists (NonexistentToken), from owns it (FromNotOwner), unsold (AlreadyBought), cascade on from (TransferNotAuthorized), from's debit (Underflow), to's credit (Overflow); then clears the approval, sells the token to `to` and writes to's balance before from's |
| Ledger.Burn | assembly/Collections.ts:258-320 | checks in order: token exists, cascade on the buyer with the host asked about the caller, the buyer's debit (Underflow), the sink's credit (Overflow); then clears the approval, gives the token to BTK_ADDRESS and writes the sink's balance before the buyer's |
| Ledger.ClaimTokens | assembly/Collections.ts:322-357 | checks in order: token exists, unclaimed (AlreadyClaimed), BTK_ADDRESS authority; then sets the claimed flag |
| Ledger.Approve | assembly/Collections.ts:431-474 | checks in order: approver authority, token exists, spender is not the owner (ApproveToOwner), and for a non-owner approver the record (owner, approver) exists (OperatorRecordMissing) and is true (ApproverNotOperator); then sets the token approval |
| Ledger.SetApprovalForAll | assembly/Collections.ts:476-508 | approver authority, approver differs from operator (ApproveToSelf); then writes the record under (operator, approver) |
| Ledger.State.GetApproved | assembly/Collections.ts:169-183 | aborts on a missing token (NullToken) and on a bought one (AlreadyBought); otherwise the approval or the empty address |
| Contract.RoyaltiesTotal | assembly/Collections.ts:45-51 | the running sum with a checked add succeeds exactly when the royalty total fits in u64, and then returns that total; otherwise it fails with Overflow |
| Ledger.TotalOfPrefix | assembly/Collections.ts:47-51 | a prefix of the royalty table never sums to more than the whole table, so the first overflowing partial sum means the whole total overflows |
| Contract.Collections.constructor | assembly/Collections.ts:12-15 | the host's empty storage at deployment: no owner stored, no royalties, no tokens, no balances and no approvals, and it satisfies Wf (the constructor at these lines runs on every call and only binds the contract id and the storage handle) |
| Contract.Collections.TotalSupply | assembly/Collections.ts:29-32 | returns the stored supply, which never exceeds MAX_SUPPLY under Wf |
| Contract.Collections.Royalties | assembly/Collections.ts:34-37 | returns the stored royalty table, whose total stays within 10000 under Wf |
| Contract.Collections.Owner | assembly/Collections.ts:67-70 | returns the stored owner as it is, which is empty while none has been stored |
| Contract.Collections.BalanceOf | assembly/Collections.ts:94-98 | returns the stored balance, or 0 for an unseen account |
| Contract.Collections.OwnerOf | assembly/Collections.ts:102-110 | returns the token's owner, or the empty address for a missing token |
| Contract.Collections.GetBoughtBy | assembly/Collections.ts:112-120 | returns the token's buyer, which is empty for every unsold token under Wf |
| Contract.Collections.IsApprovedForAll | assembly/Collections.ts:124-133 | returns the operator record stored under (owner, operator), or false when there is none |
| Contract.Collections.IsBought | assembly/Collections.ts:135-144 | true exactly when the token exists and has been sold |
| Contract.Collections.IsClaimed | assembly/Collections.ts:146-155 | true exactly when the token exists and has been claimed |
| Contract.Collections.BitkoinValueOf | assembly/Collections.ts:158-167 | returns the token's valuation, 0 for a missing token, and the tier value of its id for every minted id under Wf |
| Contract.Collections.GetApproved | assembly/Collections.ts:169-183 | aborts on a missing or bought token; otherwise returns the approval or the empty address |
| Lifecycle.GetApprovedSpec | assembly/Collections.ts:169-183 | get_approved succeeds exactly for an existing, unsold token, and then reports its approval or the empty address |
| Contract.Collections.CheckOwner | assembly/Collections.ts:513-521 | passes exactly when the host vouches for the stored owner, or for OWNER while none is stored; otherwise fails with Unauthorized |
| Contract.Collections.SetRoyalties | assembly/Collections.ts:39-65 | keeps Wf; reports and commits what Ledger.SetRoyalties decides, and leaves the state unchanged when it aborts |
| Lifecycle.SetRoyaltiesSpec | assembly/Collections.ts:39-65 | set_royalties completes exactly when the effective owner is vouched for and the total is at most 10000; it then replaces only the royalty table; with the owner vouched for, a total above 10000 that fits in u64 is refused with RoyaltyExceeded |
| Lifecycle.RoyaltyCapScenario | assembly/Collections.ts:52 | a table summing to 10000 is accepted and one summing to 10001 is refused with RoyaltyExceeded |
| Contract.Collections.TransferOwnership | assembly/Collections.ts:72-92 | keeps Wf; reports and commits what Ledger.TransferOwnership decides |
| Lifecycle.TransferOwnershipSpec | assembly/Collections.ts:72-92 | completes exactly when the host vouches for the stored owner, or for OWNER while none is stored; it then replaces only the stored owner |
| Contract.Collections.CascadeApproves | assembly/Collections.ts:377-396 | the cascade's answer equals Ledger.Authorized: token approval, then the operator record (owner, caller), then the host's word |
| Contract.Collections.SaveMintedTokens | assembly/Collections.ts:218-240 | the loop writes exactly the records for ids start..last, each owned by the recipient, unsold, unclaimed and carrying its tier value; no other table changes |
| Ledger.MintRangeExtend | assembly/Collections.ts:218-240 | the records for lo..hi are the records for lo..hi-1 plus the record for hi, which is what each loop step adds |
| Contract.Collections.Mint | assembly/Collections.ts:187-256 | keeps Wf; reports what Ledger.Mint decides; commits its writes on success and leaves the state unchanged, token records included, when it aborts |
| Contract.Collections.CreditMinted | assembly/Collections.ts:242-253 | credits the recipient with count and raises supply by count, or aborts with Overflow or AddressLimitExceeded and changes nothing |
| Lifecycle.MintSpec | assembly/Collections.ts:187-256 | mint completes exactly when OWNER is vouched for, 0 < supply+count <= MAX_SUPPLY and OWNER's new balance stays below 201; it then writes each new id to OWNER with its tier value, adds count to OWNER's balance and supply, and changes nothing else |
| Lifecycle.MintZeroIsNoOp | assembly/Collections.ts:208-211 | mint(0) on a non-empty collection completes and leaves supply, tokens and balances as they were |
| Lifecycle.MintScenario | assembly/Collections.ts:208-253 | two mints of 3 from deployment value ids 1-2 large and ids 3-6 standard and end with supply 6 and OWNER's balance 6; a further mint of 5 fails with TokenIdOutOfBounds |
| Contract.Collections.Transfer | assembly/Collections.ts:359-429 | keeps Wf; reports what Ledger.Transfer decides; commits its writes on success and puts back the cleared approval when it aborts |
| Lifecycle.TransferSpec | assembly/Collections.ts:359-429 | transfer completes exactly when the token exists, is owned by from, is unsold, the cascade approves, and the balances allow it; it then sells the token to `to`, clears its approval and claim, moves one unit of balance, and changes nothing else |
| Lifecycle.SecondTransferFails | assembly/Collections.ts:372-375 | the transfer right after a sale fails, with AlreadyBought when it names the buyer as from and FromNotOwner otherwise |
| Lifecycle.ResaleBlockedAfterAnyCalls | assembly/Collections.ts:375 | after a sale from a Wf state, whatever sequence of calls follows, no transfer of that token completes, whoever calls it |
| Lifecycle.TransferReopensClaim | assembly/Collections.ts:403 | a sale resets the claimed flag, so the claims address may claim the token again |
| Lifecycle.TransferClearsApproval | assembly/Collections.ts:377-398 | after a sale the token approval is gone, get_approved aborts, and operator records are untouched |
| Lifecycle.ApprovedSpenderMayTransfer | assembly/Collections.ts:377-384 | the holder of the token approval may sell it, whatever the operator records and the host say |
| Lifecycle.StrangerMayNotTransfer | assembly/Collections.ts:377-396 | a caller with no approval, no operator record and no host backing for from is refused with TransferNotAuthorized |
| Contract.Collections.Burn | assembly/Collections.ts:258-320 | keeps Wf; reports what Ledger.Burn decides; commits its writes on success and puts back the cleared approval when it aborts |
| Lifecycle.BurnSpec | assembly/Collections.ts:258-320 | burn completes exactly when the token exists, the cascade approves for its buyer, and the balances allow it; it then hands the token to the sink, keeps its flags, debits the buyer, credits the sink, and changes nothing else |
| Lifecycle.BurnHostCheckIsOnCaller | assembly/Collections.ts:270-289 | a caller the host vouches for may burn any token whose buyer's balance allows it |
| Lifecycle.ClaimStillPossibleAfterBurn | assembly/Collections.ts:295 | burn leaves the claimed flag alone, so an unclaimed token can still be claimed after it is burned |
| Lifecycle.BurnUnsoldFails | assembly/Collections.ts:268-299 | an unsold token has no buyer, so its burn debits the empty address and aborts while that balance is 0 |
| Contract.Collections.ClaimTokens | assembly/Collections.ts:322-357 | keeps Wf; reports and commits what Ledger.ClaimTokens decides |
| Lifecycle.ClaimTokensSpec | assembly/Collections.ts:322-357 | claim_tokens completes exactly when the token exists, is unclaimed and the claims address is vouched for; it then sets only the claimed flag |
| Lifecycle.SecondClaimFails | assembly/Collections.ts:332-333 | the claim right after a claim of the same token fails with AlreadyClaimed |
| Lifecycle.StepKeepsClaimedSold | assembly/Collections.ts:375 | no call, completed or aborted, lets a sold and claimed token out of that state: only a sale clears the flag (:403) and a sold token cannot be sold again |
| Lifecycle.RunKeepsClaimedSold | assembly/Collections.ts:322-429 | a sold and claimed token stays so across any sequence of calls from a Wf state |
| Lifecycle.ClaimBlockedAfterSale | assembly/Collections.ts:332-333 | once a sold token is claimed, every later claim of it fails with AlreadyClaimed, whatever calls come in between |
| Contract.Collections.Approve | assembly/Collections.ts:431-474 | keeps Wf; reports and commits what Ledger.Approve decides |
| Lifecycle.ApproveSpec | assembly/Collections.ts:431-474 | approve completes exactly when the approver is vouched for, the token exists, the spender is not its owner, and the approver is the owner or holds the operator record (owner, approver); it then rewrites only the token approval |
| Contract.Collections.SetApprovalForAll | assembly/Collections.ts:476-508 | keeps Wf; reports and commits what Ledger.SetApprovalForAll decides |
| Lifecycle.SetApprovalForAllSpec | assembly/Collections.ts:476-508 | completes exactly when the approver is vouched for and differs from the operator; it then stores the record under (operator, approver), present even when `approved` is false, and every other record keeps its presence and its value, so approve's OperatorRecordMissing / ApproverNotOperator distinction is preserved; nothing else changes |
| Lifecycle.OperatorRecordIsReversed | assembly/Collections.ts:492 | approving operator C for account A lets A act on C's tokens through the cascade, and leaves the record (A, C) as it was, present or absent, with its value |
| Invariants.EmptyWf | assembly/Collections.ts:12-15 | the empty storage the contract starts from at deployment satisfies Wf |
| Invariants.MintKeepsWf | assembly/Collections.ts:187-256 | a completed mint keeps ids equal to 1..supply, supply within MAX_SUPPLY, tier values and empty buyers on unsold tokens |
| Invariants.TransferKeepsWf | assembly/Collections.ts:359-429 | transfer, completed or aborted, keeps Wf |
| Invariants.BurnKeepsWf | assembly/Collections.ts:258-320 | burn, completed or aborted, keeps Wf |
| Invariants.StepKeepsWf | assembly/Collections.ts:39-508 | every state-changing entry point keeps Wf, whether it completes or aborts |
| Invariants.StepGrows | assembly/Collections.ts:39-508 | no call lowers supply, removes a token, changes a token's value or unsells a sold token |
| Invariants.RunKeepsWf | assembly/Collections.ts:39-508 | Wf holds after any sequence of calls that starts in a Wf state |
| Invariants.RunGrows | assembly/Collections.ts:39-508 | across any sequence of calls, supply never decreases and sold tokens stay sold with their value |
| Invariants.SupplyBounded | assembly/Collections.ts:208-211 | from deployment, after any calls, supply is at most MAX_SUPPLY and no later calls lower it |
| Balances.EmptyConsistent | assembly/Collections.ts:12-15 | in the empty storage at deployment, balances match token ownership |
| Balances.OwnedAfterMint | assembly/Collections.ts:218-240 | the new records add exactly the ids supply+1..hi to the recipient's owned set and leave every other account's set as it was |
| Balances.OwnedCountAfterMint | assembly/Collections.ts:218-240 | so the recipient owns hi-supply more tokens and every other account as many as before |
| Balances.CreditKeepsConsistent | assembly/Collections.ts:242-253 | writing the new records and crediting their count to the recipient keeps every balance equal to the owned count |
| Balances.MintKeepsConsistent | assembly/Collections.ts:187-256 | a completed mint keeps every balance equal to the number of tokens owned |
| Balances.TransferKeepsConsistent | assembly/Collections.ts:398-417 | a transfer between two different accounts keeps every balance equal to the number of tokens owned |
| Balances.BurnKeepsConsistent | assembly/Collections.ts:291-308 | a burn of a token that its buyer still owns, when that buyer is not BTK_ADDRESS, keeps every balance equal to the number of tokens owned |
| Balances.OtherCallsKeepConsistent | assembly/Collections.ts:39-508 | royalties, ownership, claims and approvals never touch tokens' owners or balances, so they keep consistency |
| Balances.SelfTransferBreaksConsistency | assembly/Collections.ts:406-417 | selling a freshly minted token from OWNER to OWNER leaves OWNER's balance one below the number of tokens it owns |
| Balances.BurnTwiceUndercounts | assembly/Collections.ts:291-308 | burning the same token twice debits its buyer twice while the buyer loses only one token, so consistency breaks |
| Balances.SinkBuyerBurnBreaksConsistency | assembly/Collections.ts:298-308 | after mint 1 and a sale of token 1 to BTK_ADDRESS, the sink's burn of it credits and then debits the same balance, leaving it at 0 while the sink owns the token |
| Balances.UnsoldBurnBreaksConsistency | assembly/Collections.ts:268-308 | after mint 2 and a sale of token 1 to the empty address, burning unsold token 2 debits the empty address, which still owns token 1 with balance 0 |
| Balances.DoubleBurnBreaksConsistency | assembly/Collections.ts:258-320 | after mint 2, a sale of both tokens to one buyer, and two burns of token 1, the buyer's balance no longer matches its tokens |

## Left out

- The name, symbol and uri getters (assembly/Collections.ts:17-27) return constant strings and are not modelled.
- Events emitted through System.event are not modelled.
- The dispatch of entry points and the protobuf encoding of arguments and results (assembly/index.ts) are not part of this model.
- The storage layer (assembly/State.ts) is not part of this model; its tables are maps with default reads. The model assumes that `saveApprovedOperator` and `getApprovedOperator` key a record by their two address arguments in the order given; the reversed-record reading of `set_approval_for_all` rests on that assumption.
- Deployment is not modelled as a call: the state a contract starts from is the host's empty storage (`Ledger.Empty`, built by `Contract.Collections.constructor`). The TypeScript constructor runs on every call and only binds the contract id and the storage handle.
- Signatures and the host's authority check are not modelled; the host's answer is the `auth` set.
- The mint-fee branch (assembly/Collections.ts:196-199) is left out because MINT_FEE is false.
- The contract-id authority branch (assembly/Collections.ts:203-206) is left out because OWNER is not empty.
- The external token payment that the mint fee would make is left out with that branch.
- Token ids are natural numbers. The contract keys tokens by decimal strings, so an id string that is not the canonical form of a minted id (such as "01") would read as a missing token; such strings are not represented.
- OWNER and BTK_ADDRESS are written out as their Base58-decoded bytes; Base58 decoding is not modelled.
- Abort messages and the failure codes the host reports are not modelled; the `Error` value names the reason instead.
- u64 arithmetic: SafeMath add and sub abort on overflow and underflow; these are modelled as the Overflow and Underflow errors, and all other integers are unbounded.
