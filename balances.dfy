/**
 * The balance table against the token table. A balance is meant to be the
 * number of tokens its account owns; mint keeps that, and transfer and burn
 * keep it under conditions the contract does not check. Concrete call
 * sequences show each way it breaks: a transfer to oneself, a second burn of
 * one token, a burn by the sink as buyer, and a burn of an unsold token.
 */
module Balances {
  import opened Types
  import opened Constants
  import opened Ledger
  import opened Invariants

  /** The ids whose record in `tokens` names `a` as owner. */
  ghost function OwnedIn(tokens: map<nat, Token>, a: Address): set<nat> {
    set id | id in tokens && tokens[id].owner == a
  }

  ghost function Owned(s: State, a: Address): set<nat> {
    OwnedIn(s.tokens, a)
  }

  /** Every account's balance is the number of tokens it owns. */
  ghost predicate Consistent(s: State) {
    forall a :: s.BalanceOf(a) == |Owned(s, a)|
  }

  /** The ids lo+1..hi. */
  ghost function Span(lo: nat, hi: nat): set<nat>
    decreases hi
  {
    if hi <= lo then {} else Span(lo, hi - 1) + {hi}
  }

  lemma {:induction false} SpanFacts(lo: nat, hi: nat)
    requires lo <= hi
    ensures |Span(lo, hi)| == hi - lo
    ensures forall id :: id in Span(lo, hi) <==> lo < id <= hi
    decreases hi
  {
    if lo < hi {
      SpanFacts(lo, hi - 1);
    }
  }

  /** Rewriting one existing record moves `id` into the new owner's set and out of everyone else's. */
  lemma OwnedAfterWrite(tokens: map<nat, Token>, id: nat, tok: Token, a: Address)
    requires id in tokens
    ensures OwnedIn(tokens[id := tok], a) ==
      if tok.owner == a then OwnedIn(tokens, a) + {id} else OwnedIn(tokens, a) - {id}
  {
  }

  lemma EmptyConsistent()
    ensures Consistent(Empty)
  {
    forall a ensures Empty.BalanceOf(a) == |Owned(Empty, a)| {
      assert Owned(Empty, a) == {};
    }
  }

  /** Adding the records of ids supply+1..hi gives them all to `to` and leaves everyone else's set alone. */
  lemma OwnedAfterMint(tokens: map<nat, Token>, to: Address, supply: nat, hi: nat, a: Address)
    requires supply <= hi
    requires forall id :: id in tokens ==> id <= supply
    ensures OwnedIn(tokens + MintRange(to, supply + 1, hi), a) ==
      if a == to then OwnedIn(tokens, a) + Span(supply, hi) else OwnedIn(tokens, a)
  {
    SpanFacts(supply, hi);
  }

  /** ... so `to` owns hi - supply more tokens and everyone else as many as before. */
  lemma OwnedCountAfterMint(tokens: map<nat, Token>, to: Address, supply: nat, hi: nat, a: Address)
    requires supply <= hi
    requires forall id :: id in tokens ==> id <= supply
    ensures |OwnedIn(tokens + MintRange(to, supply + 1, hi), a)| ==
      if a == to then |OwnedIn(tokens, a)| + (hi - supply) else |OwnedIn(tokens, a)|
  {
    OwnedAfterMint(tokens, to, supply, hi, a);
    SpanFacts(supply, hi);
    var before, added := OwnedIn(tokens, a), Span(supply, hi);
    assert before !! added;
    assert |before + added| == |before| + |added|;
  }

  /** Adding the records of supply+1..supply+count for `to` and crediting `to` with count units keeps balances right. */
  lemma CreditKeepsConsistent(s: State, t: State, to: Address, count: u64)
    requires Consistent(s)
    requires forall id :: id in s.tokens ==> id <= s.supply
    requires s.BalanceOf(to) + count <= U64_MAX
    requires t.tokens == s.tokens + MintRange(to, s.supply + 1, s.supply + count)
    requires t.balances == s.balances[to := s.BalanceOf(to) + count]
    ensures Consistent(t)
  {
    forall a ensures t.BalanceOf(a) == |Owned(t, a)| {
      assert s.BalanceOf(a) == |Owned(s, a)|;
      OwnedCountAfterMint(s.tokens, to, s.supply, s.supply + count, a);
    }
  }

  /** mint credits OWNER with exactly as many tokens as it creates for OWNER. */
  lemma MintKeepsConsistent(s: State, count: u64, auth: set<Address>)
    requires forall id :: id in s.tokens ==> id <= s.supply
    requires Consistent(s) && Mint(s, count, auth).Success?
    ensures Consistent(Mint(s, count, auth).value)
  {
    CreditKeepsConsistent(s, Mint(s, count, auth).value, OWNER, count);
  }

  /** A sale between two different accounts moves one unit of balance along with the token. */
  lemma TransferKeepsConsistent(s: State, from: Address, to: Address, id: nat, caller: Address, auth: set<Address>)
    requires Consistent(s) && from != to && Transfer(s, from, to, id, caller, auth).Success?
    ensures Consistent(Transfer(s, from, to, id, caller, auth).value)
  {
    var t := Transfer(s, from, to, id, caller, auth).value;
    var tok := s.tokens[id].(owner := to, bought := true, claimed := false, boughtBy := to);
    assert t.tokens == s.tokens[id := tok];
    forall a ensures t.BalanceOf(a) == |Owned(t, a)| {
      assert s.BalanceOf(a) == |Owned(s, a)|;
      OwnedAfterWrite(s.tokens, id, tok, a);
      if a == from {
        assert id in Owned(s, a);
      } else if a == to {
        assert id !in Owned(s, a);
      }
    }
  }

  /**
   * A burn keeps balances right when the buyer of record still owns the token
   * and is not the sink itself.
   */
  lemma BurnKeepsConsistent(s: State, id: nat, caller: Address, auth: set<Address>)
    requires Consistent(s) && Burn(s, id, caller, auth).Success?
    requires s.tokens[id].owner == s.tokens[id].boughtBy != BTK_ADDRESS
    ensures Consistent(Burn(s, id, caller, auth).value)
  {
    var t := Burn(s, id, caller, auth).value;
    var buyer := s.tokens[id].boughtBy;
    var tok := s.tokens[id].(owner := BTK_ADDRESS);
    assert t.tokens == s.tokens[id := tok];
    forall a ensures t.BalanceOf(a) == |Owned(t, a)| {
      assert s.BalanceOf(a) == |Owned(s, a)|;
      OwnedAfterWrite(s.tokens, id, tok, a);
      if a == buyer {
        assert id in Owned(s, a);
      } else if a == BTK_ADDRESS {
        assert id !in Owned(s, a);
      }
    }
  }

  /** The calls that touch neither owners nor balances keep the balances right. */
  lemma OtherCallsKeepConsistent(s: State, c: Call)
    requires Consistent(s)
    requires !c.MintCall? && !c.TransferCall? && !c.BurnCall?
    ensures Consistent(Commit(s, Apply(s, c)))
  {
    var t := Commit(s, Apply(s, c));
    assert t.balances == s.balances;
    forall a ensures t.BalanceOf(a) == |Owned(t, a)| {
      assert Owned(t, a) == Owned(s, a);
    }
  }

  /**
   * A sale from an account to itself: both balances are read before either is
   * written, and the debit is written last, so the owner loses a unit of
   * balance while still owning the token.
   */
  lemma SelfTransferBreaksConsistency()
    ensures var s := Mint(Empty, 1, {OWNER}).value;
      && Consistent(s)
      && Transfer(s, OWNER, OWNER, 1, OWNER, {}).Success?
      && var t := Transfer(s, OWNER, OWNER, 1, OWNER, {}).value;
      && t.BalanceOf(OWNER) == 0
      && 1 in Owned(t, OWNER)
      && !Consistent(t)
  {
    EmptyWf();
    EmptyConsistent();
    var s := Mint(Empty, 1, {OWNER}).value;
    MintKeepsConsistent(Empty, 1, {OWNER});
    assert 1 in Owned(s, OWNER);
    var t := Transfer(s, OWNER, OWNER, 1, OWNER, {}).value;
    assert 1 in Owned(t, OWNER);
  }

  /**
   * burn does not check that the token is not already burned: when a buyer
   * burns the same token twice, the buyer's balance drops twice while only
   * one token leaves the buyer's ownership.
   */
  lemma BurnTwiceUndercounts(s: State, id: nat, other: nat, buyer: Address)
    requires Consistent(s) && id in s.tokens && other in s.tokens && id != other
    requires s.tokens[id].owner == buyer && s.tokens[id].boughtBy == buyer && s.tokens[other].owner == buyer
    requires buyer != BTK_ADDRESS && s.BalanceOf(BTK_ADDRESS) + 2 <= U64_MAX
    ensures Burn(s, id, buyer, {}).Success?
    ensures var t := Burn(s, id, buyer, {}).value;
      && Burn(t, id, buyer, {}).Success?
      && var u := Burn(t, id, buyer, {}).value;
      && u.BalanceOf(buyer) == s.BalanceOf(buyer) - 2
      && Owned(u, buyer) == Owned(s, buyer) - {id}
      && other in Owned(u, buyer)
      && !Consistent(u)
  {
    var before := Owned(s, buyer);
    assert id in before && other in before - {id};
    assert |before - {id}| == |before| - 1;
    assert s.BalanceOf(buyer) == |before|;
    var t := Burn(s, id, buyer, {}).value;
    OwnedAfterWrite(s.tokens, id, s.tokens[id].(owner := BTK_ADDRESS), buyer);
    assert Owned(t, buyer) == before - {id};
    var u := Burn(t, id, buyer, {}).value;
    OwnedAfterWrite(t.tokens, id, t.tokens[id].(owner := BTK_ADDRESS), buyer);
    assert Owned(u, buyer) == before - {id};
  }

  /** From a fresh contract: mint two, sell both to one buyer, who then burns the first twice. */
  lemma DoubleBurnBreaksConsistency(buyer: Address)
    requires buyer != OWNER && buyer != BTK_ADDRESS
    ensures var s0 := Mint(Empty, 2, {OWNER}).value;
      && Transfer(s0, OWNER, buyer, 1, OWNER, {}).Success?
      && var s1 := Transfer(s0, OWNER, buyer, 1, OWNER, {}).value;
      && Transfer(s1, OWNER, buyer, 2, OWNER, {}).Success?
      && var s2 := Transfer(s1, OWNER, buyer, 2, OWNER, {}).value;
      && Consistent(s2)
      && Burn(s2, 1, buyer, {}).Success?
      && var s3 := Burn(s2, 1, buyer, {}).value;
      && Burn(s3, 1, buyer, {}).Success?
      && !Consistent(Burn(s3, 1, buyer, {}).value)
  {
    EmptyWf();
    EmptyConsistent();
    MintKeepsConsistent(Empty, 2, {OWNER});
    var s0 := Mint(Empty, 2, {OWNER}).value;
    assert s0.tokens[1].owner == OWNER && s0.tokens[2].owner == OWNER;
    assert Owned(s0, OWNER) == {1, 2};
    TransferKeepsConsistent(s0, OWNER, buyer, 1, OWNER, {});
    var s1 := Transfer(s0, OWNER, buyer, 1, OWNER, {}).value;
    TransferKeepsConsistent(s1, OWNER, buyer, 2, OWNER, {});
    var s2 := Transfer(s1, OWNER, buyer, 2, OWNER, {}).value;
    BurnTwiceUndercounts(s2, 1, 2, buyer);
  }

  /**
   * When the buyer of record is the sink itself, burn's credit and debit land
   * on the same balance and the debit is written last: the sink loses a unit
   * of balance while it keeps the token.
   */
  lemma SinkBuyerBurnBreaksConsistency()
    ensures var s0 := Mint(Empty, 1, {OWNER}).value;
      && Transfer(s0, OWNER, BTK_ADDRESS, 1, OWNER, {}).Success?
      && var s1 := Transfer(s0, OWNER, BTK_ADDRESS, 1, OWNER, {}).value;
      && Consistent(s1)
      && Burn(s1, 1, BTK_ADDRESS, {}).Success?
      && var s2 := Burn(s1, 1, BTK_ADDRESS, {}).value;
      && s2.BalanceOf(BTK_ADDRESS) == 0
      && 1 in Owned(s2, BTK_ADDRESS)
      && !Consistent(s2)
  {
    EmptyWf();
    EmptyConsistent();
    MintKeepsConsistent(Empty, 1, {OWNER});
    var s0 := Mint(Empty, 1, {OWNER}).value;
    assert s0.tokens[1].owner == OWNER;
    TransferKeepsConsistent(s0, OWNER, BTK_ADDRESS, 1, OWNER, {});
    var s1 := Transfer(s0, OWNER, BTK_ADDRESS, 1, OWNER, {}).value;
    var s2 := Burn(s1, 1, BTK_ADDRESS, {}).value;
    assert 1 in Owned(s2, BTK_ADDRESS);
  }

  /**
   * An unsold token has the empty address as buyer of record, so once the
   * empty address holds a balance the token can be burned: the empty
   * address is debited for a token it does not own.
   */
  lemma UnsoldBurnBreaksConsistency()
    ensures var s0 := Mint(Empty, 2, {OWNER}).value;
      && Transfer(s0, OWNER, [], 1, OWNER, {}).Success?
      && var s1 := Transfer(s0, OWNER, [], 1, OWNER, {}).value;
      && Consistent(s1)
      && !s1.tokens[2].bought
      && Burn(s1, 2, OWNER, {OWNER}).Success?
      && var s2 := Burn(s1, 2, OWNER, {OWNER}).value;
      && s2.BalanceOf([]) == 0
      && 1 in Owned(s2, [])
      && !Consistent(s2)
  {
    EmptyWf();
    EmptyConsistent();
    MintKeepsConsistent(Empty, 2, {OWNER});
    var s0 := Mint(Empty, 2, {OWNER}).value;
    assert s0.tokens[1].owner == OWNER && s0.tokens[2].owner == OWNER;
    TransferKeepsConsistent(s0, OWNER, [], 1, OWNER, {});
    var s1 := Transfer(s0, OWNER, [], 1, OWNER, {}).value;
    var s2 := Burn(s1, 2, OWNER, {OWNER}).value;
    assert 1 in Owned(s2, []);
  }
}
