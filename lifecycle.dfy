/**
 * What each entry point promises: exactly when it completes, and what it
 * writes when it does (and that it writes nothing else).
 */
module Lifecycle {
  import opened Types
  import opened Constants
  import opened Ledger
  import Invariants

  // ---------------------------------------------------------------------------
  // Configuration

  /** Only the effective owner may replace the royalties; the sum is capped at 10000 basis points. */
  lemma SetRoyaltiesSpec(s: State, royalties: seq<Royalty>, auth: set<Address>)
    ensures var r := SetRoyalties(s, royalties, auth);
      && (r.Success? <==> EffectiveOwner(s.config) in auth && Total(royalties) <= ROYALTY_CAP)
      && (r.Success? ==> r.value == s.(config := Config(s.config.owner, royalties)))
      && (EffectiveOwner(s.config) in auth && ROYALTY_CAP < Total(royalties) <= U64_MAX ==> r == Failure(RoyaltyExceeded))
  {
  }

  /** While no owner is stored, owner-only calls need OWNER's authority; afterwards the stored owner's. */
  lemma TransferOwnershipSpec(s: State, newOwner: Address, auth: set<Address>)
    ensures var r := TransferOwnership(s, newOwner, auth);
      && (r.Success? <==> (if |s.config.owner| == 0 then OWNER else s.config.owner) in auth)
      && (r.Success? ==> r.value == s.(config := Config(newOwner, s.config.royalties)))
  {
  }

  /** A royalty table summing to exactly 10000 is accepted and one summing to 10001 is not. */
  lemma RoyaltyCapScenario(s: State, a: Address, b: Address)
    requires |s.config.owner| == 0
    ensures SetRoyalties(s, [Royalty(a, 6000), Royalty(b, 4000)], {OWNER}).Success?
    ensures SetRoyalties(s, [Royalty(a, 6000), Royalty(b, 4001)], {OWNER}) == Failure(RoyaltyExceeded)
  {
    var ok := [Royalty(a, 6000), Royalty(b, 4000)];
    var over := [Royalty(a, 6000), Royalty(b, 4001)];
    var first := [Royalty(a, 6000)];
    assert first[..0] == [];
    assert Total(first) == 6000;
    assert ok[..1] == first && over[..1] == first;
    assert Total(ok) == 10000;
    assert Total(over) == 10001;
  }

  // ---------------------------------------------------------------------------
  // Minting

  /** mint: when it completes, and the exact records, balance and supply it writes. */
  lemma MintSpec(s: State, count: u64, auth: set<Address>)
    ensures var r := Mint(s, count, auth);
      && (r.Success? <==>
            && OWNER in auth
            && 0 < s.supply + count <= MAX_SUPPLY
            && s.BalanceOf(OWNER) + count < ADDRESS_CAP)
      && (r.Success? ==>
            var t := r.value;
            && t.supply == s.supply + count
            && t.BalanceOf(OWNER) == s.BalanceOf(OWNER) + count
            && (forall a :: a != OWNER ==> t.BalanceOf(a) == s.BalanceOf(a))
            && (forall id :: s.supply < id <= s.supply + count ==>
                  && id in t.tokens
                  && t.tokens[id].owner == OWNER
                  && !t.tokens[id].bought && !t.tokens[id].claimed
                  && t.tokens[id].boughtBy == []
                  && (t.tokens[id].bitkoinValue == LARGE_BTK_VALUE <==> id < MAX_LARGE_BTK_SUPPLY)
                  && (t.tokens[id].bitkoinValue != LARGE_BTK_VALUE ==> t.tokens[id].bitkoinValue == STANDARD_BTK_VALUE))
            && (forall id :: id in s.tokens && !(s.supply < id <= s.supply + count) ==>
                  id in t.tokens && t.tokens[id] == s.tokens[id])
            && (forall id :: id in t.tokens ==> id in s.tokens || s.supply < id <= s.supply + count)
            && t.approvals == s.approvals && t.operators == s.operators && t.config == s.config)
  {
  }

  /** mint(0) on a non-empty collection completes and changes nothing a getter can see. */
  lemma MintZeroIsNoOp(s: State, auth: set<Address>)
    requires OWNER in auth && 0 < s.supply <= MAX_SUPPLY && s.BalanceOf(OWNER) < ADDRESS_CAP
    ensures var r := Mint(s, 0, auth);
      && r.Success?
      && r.value.supply == s.supply
      && r.value.tokens == s.tokens
      && (forall a :: r.value.BalanceOf(a) == s.BalanceOf(a))
  {
    assert MintRange(OWNER, s.supply + 1, s.supply) == map[];
  }

  /**
   * Two mints of three from a fresh contract: ids 1 and 2 get the large value,
   * id 3 and ids 4 to 6 the standard one; supply and OWNER's balance end at 6.
   */
  lemma MintScenario()
    ensures Mint(Empty, 3, {OWNER}).Success?
    ensures var s1 := Mint(Empty, 3, {OWNER}).value;
      && s1.BitkoinValueOf(1) == LARGE_BTK_VALUE
      && s1.BitkoinValueOf(2) == LARGE_BTK_VALUE
      && s1.BitkoinValueOf(3) == STANDARD_BTK_VALUE
      && Mint(s1, 3, {OWNER}).Success?
      && var s2 := Mint(s1, 3, {OWNER}).value;
      && (forall id :: 4 <= id <= 6 ==> s2.BitkoinValueOf(id) == STANDARD_BTK_VALUE)
      && s2.supply == 6
      && s2.BalanceOf(OWNER) == 6
      && Mint(s2, 5, {OWNER}) == Failure(TokenIdOutOfBounds)
  {
    MintSpec(Empty, 3, {OWNER});
    var s1 := Mint(Empty, 3, {OWNER}).value;
    MintSpec(s1, 3, {OWNER});
  }

  // ---------------------------------------------------------------------------
  // Transfer

  /** transfer: when it completes, and the exact writes of the sale. */
  lemma TransferSpec(s: State, from: Address, to: Address, id: nat, caller: Address, auth: set<Address>)
    ensures var r := Transfer(s, from, to, id, caller, auth);
      && (r.Success? <==>
            && id in s.tokens
            && s.tokens[id].owner == from
            && !s.tokens[id].bought
            && Authorized(s, id, from, caller, from, auth)
            && s.BalanceOf(from) > 0
            && s.BalanceOf(to) < U64_MAX)
      && (r.Success? ==>
            var t := r.value;
            && t.tokens[id] == Token(to, true, false, to, s.tokens[id].bitkoinValue)
            && id !in t.approvals
            && (forall other :: other != id ==>
                  && (other in t.tokens <==> other in s.tokens)
                  && (other in s.tokens ==> t.tokens[other] == s.tokens[other])
                  && (other in t.approvals <==> other in s.approvals)
                  && (other in s.approvals ==> t.approvals[other] == s.approvals[other]))
            && t.tokens.Keys == s.tokens.Keys
            && (from != to ==> t.BalanceOf(from) == s.BalanceOf(from) - 1 && t.BalanceOf(to) == s.BalanceOf(to) + 1)
            && (from == to ==> t.BalanceOf(from) == s.BalanceOf(from) - 1)
            && (forall a :: a != from && a != to ==> t.BalanceOf(a) == s.BalanceOf(a))
            && t.supply == s.supply && t.operators == s.operators && t.config == s.config)
  {
  }

  /** The transfer right after a sale fails, whoever calls it: AlreadyBought when it names the buyer as from, FromNotOwner otherwise. */
  lemma SecondTransferFails(s: State, from: Address, to: Address, id: nat, caller: Address, auth: set<Address>,
                            from2: Address, to2: Address, caller2: Address, auth2: set<Address>)
    requires Transfer(s, from, to, id, caller, auth).Success?
    ensures var t := Transfer(s, from, to, id, caller, auth).value;
      Transfer(t, from2, to2, id, caller2, auth2) == Failure(if from2 == to then AlreadyBought else FromNotOwner)
  {
  }

  /** Resale stays blocked: whatever calls follow a sale, no later transfer of that token completes. */
  lemma ResaleBlockedAfterAnyCalls(s: State, from: Address, to: Address, id: nat, caller: Address, auth: set<Address>,
                                   calls: seq<Call>, from2: Address, to2: Address, caller2: Address, auth2: set<Address>)
    requires Invariants.Wf(s) && Transfer(s, from, to, id, caller, auth).Success?
    ensures var t := Transfer(s, from, to, id, caller, auth).value;
      Transfer(Run(t, calls), from2, to2, id, caller2, auth2).Failure?
  {
    var t := Transfer(s, from, to, id, caller, auth).value;
    Invariants.TransferKeepsWf(s, from, to, id, caller, auth);
    Invariants.RunGrows(t, calls);
  }

  /** A sale clears the claimed flag, so a token claimed before its sale can be claimed again. */
  lemma TransferReopensClaim(s: State, from: Address, to: Address, id: nat, caller: Address, auth: set<Address>)
    requires Transfer(s, from, to, id, caller, auth).Success?
    ensures ClaimTokens(Transfer(s, from, to, id, caller, auth).value, id, {BTK_ADDRESS}).Success?
  {
  }

  /** After a sale the token approval is gone, and get_approved aborts since the token is bought. */
  lemma TransferClearsApproval(s: State, from: Address, to: Address, id: nat, caller: Address, auth: set<Address>)
    requires Transfer(s, from, to, id, caller, auth).Success?
    ensures var t := Transfer(s, from, to, id, caller, auth).value;
      id !in t.approvals && t.GetApproved(id) == Failure(AlreadyBought) && t.operators == s.operators
  {
  }

  // ---------------------------------------------------------------------------
  // Authorization cascade

  /** A spender holding the token's approval may sell it, whatever the operator records and the host say. */
  lemma ApprovedSpenderMayTransfer(s: State, from: Address, to: Address, id: nat, spender: Address, auth: set<Address>)
    requires id in s.tokens && s.tokens[id].owner == from && !s.tokens[id].bought
    requires id in s.approvals && s.approvals[id] == spender
    requires s.BalanceOf(from) > 0 && s.BalanceOf(to) < U64_MAX
    ensures Transfer(s, from, to, id, spender, auth).Success?
  {
  }

  /** A caller with no approval, no operator record and no host backing for `from` is refused. */
  lemma StrangerMayNotTransfer(s: State, from: Address, to: Address, id: nat, stranger: Address, auth: set<Address>)
    requires id in s.tokens && s.tokens[id].owner == from && !s.tokens[id].bought
    requires stranger != from
    requires !(id in s.approvals && s.approvals[id] == stranger)
    requires !s.IsApprovedForAll(from, stranger)
    requires from !in auth
    ensures Transfer(s, from, to, id, stranger, auth) == Failure(TransferNotAuthorized)
  {
  }

  /** In burn the host is asked about the caller, so a caller the host vouches for may burn any token it can pay for. */
  lemma BurnHostCheckIsOnCaller(s: State, id: nat, caller: Address)
    requires id in s.tokens
    requires s.BalanceOf(s.tokens[id].boughtBy) > 0 && s.BalanceOf(BTK_ADDRESS) < U64_MAX
    ensures Burn(s, id, caller, {caller}).Success?
  {
  }

  // ---------------------------------------------------------------------------
  // Burn

  /** burn: when it completes, and that it only moves the token to the sink and its buyer's unit of balance with it. */
  lemma BurnSpec(s: State, id: nat, caller: Address, auth: set<Address>)
    ensures var r := Burn(s, id, caller, auth);
      && (r.Success? <==>
            && id in s.tokens
            && Authorized(s, id, s.tokens[id].boughtBy, caller, caller, auth)
            && s.BalanceOf(s.tokens[id].boughtBy) > 0
            && s.BalanceOf(BTK_ADDRESS) < U64_MAX)
      && (r.Success? ==>
            var t := r.value;
            var old_ := s.tokens[id];
            && t.tokens[id] == old_.(owner := BTK_ADDRESS)
            && t.tokens[id].bought == old_.bought
            && t.tokens[id].claimed == old_.claimed
            && t.tokens[id].boughtBy == old_.boughtBy
            && id !in t.approvals
            && (forall other :: other != id ==>
                  && (other in t.tokens <==> other in s.tokens)
                  && (other in s.tokens ==> t.tokens[other] == s.tokens[other])
                  && (other in t.approvals <==> other in s.approvals)
                  && (other in s.approvals ==> t.approvals[other] == s.approvals[other]))
            && t.tokens.Keys == s.tokens.Keys
            && t.BalanceOf(old_.boughtBy) == s.BalanceOf(old_.boughtBy) - 1
            && (old_.boughtBy != BTK_ADDRESS ==> t.BalanceOf(BTK_ADDRESS) == s.BalanceOf(BTK_ADDRESS) + 1)
            && (forall a :: a != old_.boughtBy && a != BTK_ADDRESS ==> t.BalanceOf(a) == s.BalanceOf(a))
            && t.supply == s.supply && t.operators == s.operators && t.config == s.config)
  {
  }

  /** burn leaves the claimed flag alone, so a token burned before it was claimed can still be claimed. */
  lemma ClaimStillPossibleAfterBurn(s: State, id: nat, caller: Address, auth: set<Address>)
    requires Burn(s, id, caller, auth).Success? && !s.tokens[id].claimed
    ensures ClaimTokens(Burn(s, id, caller, auth).value, id, {BTK_ADDRESS}).Success?
  {
  }

  /** A token never sold has no buyer, so burning it debits the empty address, which aborts when that balance is 0. */
  lemma BurnUnsoldFails(s: State, id: nat, caller: Address, auth: set<Address>)
    requires id in s.tokens && s.tokens[id].boughtBy == [] && s.BalanceOf([]) == 0
    ensures !Burn(s, id, caller, auth).Success?
  {
  }

  // ---------------------------------------------------------------------------
  // Claim

  /** claim_tokens: when it completes, and that it only sets the claimed flag. */
  lemma ClaimTokensSpec(s: State, id: nat, auth: set<Address>)
    ensures var r := ClaimTokens(s, id, auth);
      && (r.Success? <==> id in s.tokens && !s.tokens[id].claimed && BTK_ADDRESS in auth)
      && (r.Success? ==>
            && r.value.tokens == s.tokens[id := s.tokens[id].(claimed := true)]
            && r.value.balances == s.balances && r.value.approvals == s.approvals
            && r.value.operators == s.operators && r.value.supply == s.supply && r.value.config == s.config)
  {
  }

  /** Right after a claim, a second claim of the same token fails, whoever the host vouches for. */
  lemma SecondClaimFails(s: State, id: nat, auth: set<Address>, auth2: set<Address>)
    requires ClaimTokens(s, id, auth).Success?
    ensures ClaimTokens(ClaimTokens(s, id, auth).value, id, auth2) == Failure(AlreadyClaimed)
  {
  }

  /** The token is sold and claimed: only a sale clears the flag, and a sold token cannot be sold again. */
  ghost predicate ClaimedSold(s: State, id: nat) {
    id in s.tokens && s.tokens[id].bought && s.tokens[id].claimed
  }

  /** No call, completed or aborted, lets a sold and claimed token out of that state. */
  lemma StepKeepsClaimedSold(s: State, id: nat, c: Call)
    requires Invariants.Wf(s) && ClaimedSold(s, id)
    ensures ClaimedSold(Commit(s, Apply(s, c)), id)
  {
    if c.MintCall? && Apply(s, c).Success? {
      assert id !in MintRange(OWNER, s.supply + 1, s.supply + c.count);
    }
  }

  lemma {:induction false} RunKeepsClaimedSold(s: State, id: nat, calls: seq<Call>)
    requires Invariants.Wf(s) && ClaimedSold(s, id)
    ensures ClaimedSold(Run(s, calls), id)
    decreases |calls|
  {
    if calls != [] {
      StepKeepsClaimedSold(s, id, calls[0]);
      Invariants.StepKeepsWf(s, calls[0]);
      RunKeepsClaimedSold(Commit(s, Apply(s, calls[0])), id, calls[1..]);
    }
  }

  /** Once a sold token is claimed, no later claim of it completes, whatever calls come in between. */
  lemma ClaimBlockedAfterSale(s: State, id: nat, auth: set<Address>, calls: seq<Call>, auth2: set<Address>)
    requires Invariants.Wf(s) && ClaimTokens(s, id, auth).Success? && s.tokens[id].bought
    ensures ClaimTokens(Run(ClaimTokens(s, id, auth).value, calls), id, auth2) == Failure(AlreadyClaimed)
  {
    var t := ClaimTokens(s, id, auth).value;
    Invariants.StepKeepsWf(s, ClaimTokensCall(id, auth));
    assert Commit(s, Apply(s, ClaimTokensCall(id, auth))) == t;
    RunKeepsClaimedSold(t, id, calls);
  }

  // ---------------------------------------------------------------------------
  // Approvals

  /**
   * approve: the approver must be vouched for by the host and be the owner or
   * hold the operator record (owner, approver); the bought flag is not looked at.
   * Only the token's approval changes.
   */
  lemma ApproveSpec(s: State, approver: Address, to: Address, id: nat, auth: set<Address>)
    ensures var r := Approve(s, approver, to, id, auth);
      && (r.Success? <==>
            && approver in auth
            && id in s.tokens
            && s.tokens[id].owner != to
            && (s.tokens[id].owner == approver || s.IsApprovedForAll(s.tokens[id].owner, approver)))
      && (r.Success? ==>
            && r.value.approvals == s.approvals[id := to]
            && r.value.tokens == s.tokens && r.value.balances == s.balances
            && r.value.operators == s.operators && r.value.supply == s.supply && r.value.config == s.config)
  {
  }

  /** set_approval_for_all writes one record, under (operator, approver). */
  lemma SetApprovalForAllSpec(s: State, approver: Address, operator: Address, approved: bool, auth: set<Address>)
    ensures var r := SetApprovalForAll(s, approver, operator, approved, auth);
      && (r.Success? <==> approver in auth && approver != operator)
      && (r.Success? ==>
            && (operator, approver) in r.value.operators
            && r.value.IsApprovedForAll(operator, approver) == approved
            && (forall k :: k != (operator, approver) ==>
                  && (k in r.value.operators <==> k in s.operators)
                  && (k in s.operators ==> r.value.operators[k] == s.operators[k]))
            && r.value.tokens == s.tokens && r.value.balances == s.balances
            && r.value.approvals == s.approvals && r.value.supply == s.supply && r.value.config == s.config)
  {
  }

  /**
   * Because the record is written under (operator, approver) and read as
   * (owner, caller), approving operator C for account A lets A, not C, act on
   * C's tokens through the cascade.
   */
  lemma OperatorRecordIsReversed(s: State, a: Address, c: Address, auth: set<Address>, id: nat, acting: Address, host: Address, hostAuth: set<Address>)
    requires SetApprovalForAll(s, a, c, true, auth).Success?
    requires id in s.tokens && s.tokens[id].owner == c
    ensures var t := SetApprovalForAll(s, a, c, true, auth).value;
      && Authorized(t, id, acting, a, host, hostAuth)
      && ((a, c) in t.operators <==> (a, c) in s.operators)
      && ((a, c) in s.operators ==> t.operators[(a, c)] == s.operators[(a, c)])
  {
  }

  /** get_approved aborts exactly on a missing or a bought token, and otherwise reports the approval or the empty address. */
  lemma GetApprovedSpec(s: State, id: nat)
    ensures s.GetApproved(id).Success? <==> id in s.tokens && !s.tokens[id].bought
    ensures s.GetApproved(id).Success? && id in s.approvals ==> s.GetApproved(id).value == s.approvals[id]
    ensures s.GetApproved(id).Success? && id !in s.approvals ==> s.GetApproved(id).value == []
  {
  }
}
