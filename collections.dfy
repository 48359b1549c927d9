/**
 * The contract object. Its tables are fields that the entry points update in
 * place, step by step and in the contract's order; each entry point is proved
 * to end in the state the matching Ledger function describes, and to keep the
 * Wf invariant. A call that aborts after writing (mint writes its tokens before
 * its last checks, transfer and burn clear the approval before theirs) puts
 * back what it wrote, as the host does when it discards a failed call.
 */
module Contract {
  import opened Types
  import opened Constants
  import Ledger
  import Invariants

  /** set_royalties' loop: the running sum with a checked add, which aborts on the first overflow. */
  method RoyaltiesTotal(royalties: seq<Royalty>) returns (r: Result<u64>)
    ensures r.Success? <==> Ledger.Total(royalties) <= U64_MAX
    ensures r.Success? ==> r.value == Ledger.Total(royalties)
    ensures r.Failure? ==> r.error == Overflow
  {
    var total: u64 := 0;
    var i := 0;
    while i < |royalties|
      invariant 0 <= i <= |royalties|
      invariant total == Ledger.Total(royalties[..i])
    {
      assert royalties[..i + 1][..i] == royalties[..i];
      if total + royalties[i].amount > U64_MAX {
        Ledger.TotalOfPrefix(royalties, i + 1);
        return Failure(Overflow);
      }
      total := total + royalties[i].amount;
      i := i + 1;
    }
    assert royalties[..i] == royalties;
    return Success(total);
  }

  class Collections {
    var config: Config
    var supply: u64
    var tokens: map<nat, Token>
    var balances: map<Address, u64>
    var approvals: map<nat, Address>
    var operators: map<(Address, Address), bool>

    /** The tables as one Ledger value. */
    ghost function Model(): Ledger.State
      reads this
    {
      Ledger.State(config, supply, tokens, balances, approvals, operators)
    }

    ghost predicate Valid()
      reads this
    {
      Invariants.Wf(Model())
    }

    /** A freshly deployed contract: no owner stored, no royalties, no tokens. */
    constructor ()
      ensures Valid() && Model() == Ledger.Empty
    {
      config := Config([], []);
      supply := 0;
      tokens := map[];
      balances := map[];
      approvals := map[];
      operators := map[];
    }

    // -------------------------------------------------------------------------
    // Read-only entry points

    function TotalSupply(): (r: u64)
      reads this
      ensures r == Model().supply
      ensures Valid() ==> r <= MAX_SUPPLY
    {
      supply
    }

    function Royalties(): (r: seq<Royalty>)
      reads this
      ensures r == Model().config.royalties
      ensures Valid() ==> Ledger.Total(r) <= ROYALTY_CAP
    {
      config.royalties
    }

    /** The stored owner as it is: empty while none has been stored. */
    function Owner(): (r: Address)
      reads this
      ensures r == Model().config.owner
    {
      config.owner
    }

    function BalanceOf(owner: Address): (r: u64)
      reads this
      ensures r == Model().BalanceOf(owner)
    {
      if owner in balances then balances[owner] else 0
    }

    function OwnerOf(id: nat): (r: Address)
      reads this
      ensures r == Model().OwnerOf(id)
    {
      if id in tokens then tokens[id].owner else []
    }

    function GetBoughtBy(id: nat): (r: Address)
      reads this
      ensures r == Model().BoughtBy(id)
      ensures Valid() && !Model().IsBought(id) ==> r == []
    {
      if id in tokens then tokens[id].boughtBy else []
    }

    function IsApprovedForAll(owner: Address, operator: Address): (r: bool)
      reads this
      ensures r == Model().IsApprovedForAll(owner, operator)
    {
      if (owner, operator) in operators then operators[(owner, operator)] else false
    }

    function IsBought(id: nat): (r: bool)
      reads this
      ensures r == Model().IsBought(id)
    {
      if id in tokens then tokens[id].bought else false
    }

    function IsClaimed(id: nat): (r: bool)
      reads this
      ensures r == Model().IsClaimed(id)
    {
      if id in tokens then tokens[id].claimed else false
    }

    function BitkoinValueOf(id: nat): (r: u64)
      reads this
      ensures r == Model().BitkoinValueOf(id)
      ensures Valid() && 1 <= id <= Model().supply ==> r == Ledger.TierValue(id)
    {
      if id in tokens then tokens[id].bitkoinValue else 0
    }

    function GetApproved(id: nat): (r: Result<Address>)
      reads this
      ensures r == Model().GetApproved(id)
    {
      if id !in tokens then Failure(NullToken)
      else if tokens[id].bought then Failure(AlreadyBought)
      else if id in approvals then Success(approvals[id])
      else Success([])
    }

    // -------------------------------------------------------------------------
    // Configuration

    /** requireAuthority of the stored owner, or of OWNER while none is stored. */
    method CheckOwner(auth: set<Address>) returns (r: Outcome)
      ensures r.Pass? <==> Ledger.EffectiveOwner(config) in auth
      ensures r.Fail? ==> r.error == Unauthorized
    {
      var currentOwner := if |config.owner| > 0 then config.owner else OWNER;
      r := if currentOwner in auth then Pass else Fail(Unauthorized);
    }

    method SetRoyalties(royalties: seq<Royalty>, auth: set<Address>) returns (r: Outcome)
      requires Valid()
      modifies this
      ensures Valid()
      ensures r == Ledger.Status(Ledger.SetRoyalties(old(Model()), royalties, auth))
      ensures Model() == Ledger.Commit(old(Model()), Ledger.SetRoyalties(old(Model()), royalties, auth))
    {
      r := CheckOwner(auth);
      if r.Fail? {
        return;
      }
      var total := RoyaltiesTotal(royalties);
      if total.Failure? {
        return Fail(total.error);
      }
      if total.value > ROYALTY_CAP {
        return Fail(RoyaltyExceeded);
      }
      config := config.(royalties := royalties);
    }

    method TransferOwnership(newOwner: Address, auth: set<Address>) returns (r: Outcome)
      requires Valid()
      modifies this
      ensures Valid()
      ensures r == Ledger.Status(Ledger.TransferOwnership(old(Model()), newOwner, auth))
      ensures Model() == Ledger.Commit(old(Model()), Ledger.TransferOwnership(old(Model()), newOwner, auth))
    {
      r := CheckOwner(auth);
      if r.Fail? {
        return;
      }
      config := config.(owner := newOwner);
    }

    // -------------------------------------------------------------------------
    // Lifecycle

    /**
     * The authorization cascade transfer and burn run when the caller is not
     * the acting address: the token approval, then the operator record
     * (token owner, caller), then the host's word on `hostAccount`.
     */
    method CascadeApproves(id: nat, acting: Address, caller: Address, hostAccount: Address, auth: set<Address>)
      returns (approved: bool)
      requires id in tokens && caller != acting
      ensures approved == Ledger.Authorized(Model(), id, acting, caller, hostAccount, auth)
    {
      approved := false;
      if id in approvals {
        approved := approvals[id] == caller;
      }
      if !approved {
        var owner := tokens[id].owner;
        if (owner, caller) in operators {
          approved := operators[(owner, caller)];
        }
        if !approved {
          approved := hostAccount in auth;
        }
      }
    }

    /** mint's loop: writes a record owned by `to` for every id start..last, one at a time. */
    method SaveMintedTokens(to: Address, start: nat, last: nat)
      requires 0 < start <= last + 1
      modifies this
      ensures tokens == old(tokens) + Ledger.MintRange(to, start, last)
      ensures Model() == old(Model()).(tokens := tokens)
    {
      var index := start;
      while index <= last
        invariant start <= index <= last + 1
        invariant tokens == old(tokens) + Ledger.MintRange(to, start, index - 1)
        invariant config == old(config) && supply == old(supply) && balances == old(balances)
        invariant approvals == old(approvals) && operators == old(operators)
      {
        var value := if index < MAX_LARGE_BTK_SUPPLY then LARGE_BTK_VALUE else STANDARD_BTK_VALUE;
        assert Token(to, false, false, [], value) == Ledger.MintedToken(to, index);
        Ledger.MintRangeExtend(old(tokens), to, start, index);
        tokens := tokens[index := Token(to, false, false, [], value)];
        index := index + 1;
      }
    }

    method Mint(count: u64, auth: set<Address>) returns (r: Outcome)
      requires Valid()
      modifies this
      ensures Valid()
      ensures r == Ledger.Status(Ledger.Mint(old(Model()), count, auth))
      ensures Model() == Ledger.Commit(old(Model()), Ledger.Mint(old(Model()), count, auth))
    {
      ghost var s0 := Model();
      var to := OWNER;
      var balance := BalanceOf(to);
      if supply + count > U64_MAX {
        return Fail(Overflow);
      }
      var newSupply: u64 := supply + count;
      if to !in auth {
        return Fail(Unauthorized);
      }
      if newSupply == 0 || newSupply > MAX_SUPPLY {
        return Fail(TokenIdOutOfBounds);
      }
      var saved := tokens;
      SaveMintedTokens(to, supply + 1, newSupply);
      ghost var written := Model();
      assert Ledger.Mint(s0, count, auth) == Ledger.Credit(written, to, count);
      r := CreditMinted(to, balance, count);
      if r.Fail? {
        tokens := saved;
        assert Model() == s0;
      } else {
        Invariants.MintKeepsWf(s0, count, auth);
      }
    }

    /** The end of mint: credits `to` with `count` tokens and raises supply, or aborts. */
    method CreditMinted(to: Address, balance: u64, count: u64) returns (r: Outcome)
      requires balance == Model().BalanceOf(to) && supply + count <= U64_MAX
      modifies this
      ensures r == Ledger.Status(Ledger.Credit(old(Model()), to, count))
      ensures Model() == Ledger.Commit(old(Model()), Ledger.Credit(old(Model()), to, count))
    {
      if balance + count > U64_MAX {
        return Fail(Overflow);
      }
      var newBalance: u64 := balance + count;
      if newBalance >= ADDRESS_CAP {
        return Fail(AddressLimitExceeded);
      }
      supply := supply + count;
      balances := balances[to := newBalance];
      r := Pass;
    }

    method Burn(id: nat, caller: Address, auth: set<Address>) returns (r: Outcome)
      requires Valid()
      modifies this
      ensures Valid()
      ensures r == Ledger.Status(Ledger.Burn(old(Model()), id, caller, auth))
      ensures Model() == Ledger.Commit(old(Model()), Ledger.Burn(old(Model()), id, caller, auth))
    {
      ghost var s0 := Model();
      if id !in tokens {
        return Fail(NonexistentToken);
      }
      var token := tokens[id];
      var buyer := token.boughtBy;
      if caller != buyer {
        var approved := CascadeApproves(id, buyer, caller, caller, auth);
        if !approved {
          return Fail(TransferNotAuthorized);
        }
      }
      assert Ledger.Authorized(s0, id, buyer, caller, caller, auth);
      ghost var outcome := Ledger.Burn(s0, id, caller, auth);
      var saved := approvals;
      approvals := approvals - {id};
      token := token.(owner := BTK_ADDRESS);
      var balanceFrom := BalanceOf(buyer);
      if balanceFrom == 0 {
        assert outcome == Failure(Underflow);
        approvals := saved;
        assert Model() == s0;
        return Fail(Underflow);
      }
      balanceFrom := balanceFrom - 1;
      var balanceTo := BalanceOf(BTK_ADDRESS);
      if balanceTo + 1 > U64_MAX {
        assert outcome == Failure(Overflow);
        approvals := saved;
        assert Model() == s0;
        return Fail(Overflow);
      }
      balanceTo := balanceTo + 1;
      tokens := tokens[id := token];
      balances := balances[BTK_ADDRESS := balanceTo];
      balances := balances[buyer := balanceFrom];
      r := Pass;
      assert outcome == Success(Model());
      Invariants.BurnKeepsWf(s0, id, caller, auth);
    }

    method ClaimTokens(id: nat, auth: set<Address>) returns (r: Outcome)
      requires Valid()
      modifies this
      ensures Valid()
      ensures r == Ledger.Status(Ledger.ClaimTokens(old(Model()), id, auth))
      ensures Model() == Ledger.Commit(old(Model()), Ledger.ClaimTokens(old(Model()), id, auth))
    {
      if id !in tokens {
        return Fail(NonexistentToken);
      }
      var token := tokens[id];
      if token.claimed {
        return Fail(AlreadyClaimed);
      }
      if BTK_ADDRESS !in auth {
        return Fail(Unauthorized);
      }
      tokens := tokens[id := token.(claimed := true)];
      r := Pass;
    }

    method Transfer(from: Address, to: Address, id: nat, caller: Address, auth: set<Address>) returns (r: Outcome)
      requires Valid()
      modifies this
      ensures Valid()
      ensures r == Ledger.Status(Ledger.Transfer(old(Model()), from, to, id, caller, auth))
      ensures Model() == Ledger.Commit(old(Model()), Ledger.Transfer(old(Model()), from, to, id, caller, auth))
    {
      ghost var s0 := Model();
      if id !in tokens {
        return Fail(NonexistentToken);
      }
      var token := tokens[id];
      if token.owner != from {
        return Fail(FromNotOwner);
      }
      if token.bought {
        return Fail(AlreadyBought);
      }
      if caller != from {
        var approved := CascadeApproves(id, from, caller, from, auth);
        if !approved {
          return Fail(TransferNotAuthorized);
        }
      }
      assert Ledger.Authorized(s0, id, from, caller, from, auth);
      ghost var outcome := Ledger.Transfer(s0, from, to, id, caller, auth);
      var saved := approvals;
      approvals := approvals - {id};
      token := token.(owner := to, bought := true, claimed := false, boughtBy := to);
      var balanceFrom := BalanceOf(from);
      if balanceFrom == 0 {
        assert outcome == Failure(Underflow);
        approvals := saved;
        assert Model() == s0;
        return Fail(Underflow);
      }
      balanceFrom := balanceFrom - 1;
      var balanceTo := BalanceOf(to);
      if balanceTo + 1 > U64_MAX {
        assert outcome == Failure(Overflow);
        approvals := saved;
        assert Model() == s0;
        return Fail(Overflow);
      }
      balanceTo := balanceTo + 1;
      tokens := tokens[id := token];
      balances := balances[to := balanceTo];
      balances := balances[from := balanceFrom];
      r := Pass;
      assert outcome == Success(Model());
      Invariants.TransferKeepsWf(s0, from, to, id, caller, auth);
    }

    method Approve(approver: Address, to: Address, id: nat, auth: set<Address>) returns (r: Outcome)
      requires Valid()
      modifies this
      ensures Valid()
      ensures r == Ledger.Status(Ledger.Approve(old(Model()), approver, to, id, auth))
      ensures Model() == Ledger.Commit(old(Model()), Ledger.Approve(old(Model()), approver, to, id, auth))
    {
      if approver !in auth {
        return Fail(Unauthorized);
      }
      if id !in tokens {
        return Fail(NonexistentToken);
      }
      var owner := tokens[id].owner;
      if owner == to {
        return Fail(ApproveToOwner);
      }
      if owner != approver {
        if (owner, approver) !in operators {
          return Fail(OperatorRecordMissing);
        }
        if !operators[(owner, approver)] {
          return Fail(ApproverNotOperator);
        }
      }
      approvals := approvals[id := to];
      r := Pass;
    }

    method SetApprovalForAll(approver: Address, operator: Address, approved: bool, auth: set<Address>) returns (r: Outcome)
      requires Valid()
      modifies this
      ensures Valid()
      ensures r == Ledger.Status(Ledger.SetApprovalForAll(old(Model()), approver, operator, approved, auth))
      ensures Model() == Ledger.Commit(old(Model()), Ledger.SetApprovalForAll(old(Model()), approver, operator, approved, auth))
    {
      if approver !in auth {
        return Fail(Unauthorized);
      }
      if approver == operator {
        return Fail(ApproveToSelf);
      }
      operators := operators[(operator, approver) := approved];
      r := Pass;
    }
  }
}
