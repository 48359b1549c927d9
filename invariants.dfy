/**
 * Properties of the contract state that every call keeps, and that therefore
 * hold after any sequence of calls from a freshly deployed contract.
 */
module Invariants {
  import opened Types
  import opened Constants
  import opened Ledger

  /**
   * The ids in use are exactly 1..supply, supply stays within MAX_SUPPLY,
   * every token carries its tier's value, an unsold token has no buyer, and
   * the royalties stay within 10000 basis points.
   */
  ghost predicate Wf(s: State) {
    && s.supply <= MAX_SUPPLY
    && (forall id :: id in s.tokens <==> 1 <= id <= s.supply)
    && (forall id :: id in s.tokens ==> s.tokens[id].bitkoinValue == TierValue(id))
    && (forall id :: id in s.tokens && !s.tokens[id].bought ==> s.tokens[id].boughtBy == [])
    && Total(s.config.royalties) <= ROYALTY_CAP
  }

  /**
   * What no call ever undoes: supply does not shrink, no token disappears,
   * a token's value never changes and a sold token stays sold.
   */
  ghost predicate Grows(s: State, t: State) {
    && s.supply <= t.supply
    && (forall id :: id in s.tokens ==>
          && id in t.tokens
          && t.tokens[id].bitkoinValue == s.tokens[id].bitkoinValue
          && (s.tokens[id].bought ==> t.tokens[id].bought))
  }

  lemma EmptyWf()
    ensures Wf(Empty)
  {
  }

  lemma MintKeepsWf(s: State, count: u64, auth: set<Address>)
    requires Wf(s) && Mint(s, count, auth).Success?
    ensures Wf(Mint(s, count, auth).value)
  {
    var t := Mint(s, count, auth).value;
    forall id | id in t.tokens
      ensures t.tokens[id].bitkoinValue == TierValue(id)
      ensures !t.tokens[id].bought ==> t.tokens[id].boughtBy == []
    {
      if s.supply < id <= s.supply + count {
        assert t.tokens[id] == MintedToken(OWNER, id);
      }
    }
  }

  lemma TransferKeepsWf(s: State, from: Address, to: Address, id: nat, caller: Address, auth: set<Address>)
    requires Wf(s)
    ensures Wf(Commit(s, Transfer(s, from, to, id, caller, auth)))
  {
  }

  lemma BurnKeepsWf(s: State, id: nat, caller: Address, auth: set<Address>)
    requires Wf(s)
    ensures Wf(Commit(s, Burn(s, id, caller, auth)))
  {
  }

  /** Every state-changing call keeps Wf. */
  lemma StepKeepsWf(s: State, c: Call)
    requires Wf(s)
    ensures Wf(Commit(s, Apply(s, c)))
  {
    match c
    case MintCall(count, auth) =>
      if Mint(s, count, auth).Success? {
        MintKeepsWf(s, count, auth);
      }
    case TransferCall(from, to, id, caller, auth) =>
      TransferKeepsWf(s, from, to, id, caller, auth);
    case BurnCall(id, caller, auth) =>
      BurnKeepsWf(s, id, caller, auth);
    case _ =>
  }

  lemma StepGrows(s: State, c: Call)
    requires Wf(s)
    ensures Grows(s, Commit(s, Apply(s, c)))
  {
    if Apply(s, c).Success? && c.MintCall? {
      var t := Mint(s, c.count, c.auth).value;
      forall id | id in s.tokens
        ensures id in t.tokens && t.tokens[id] == s.tokens[id]
      {
        assert id !in MintRange(OWNER, s.supply + 1, s.supply + c.count);
      }
    }
  }

  lemma GrowsTransitive(s: State, t: State, u: State)
    requires Grows(s, t) && Grows(t, u)
    ensures Grows(s, u)
  {
  }

  /** Wf holds after any sequence of calls that starts where it holds. */
  lemma {:induction false} RunKeepsWf(s: State, calls: seq<Call>)
    requires Wf(s)
    ensures Wf(Run(s, calls))
    decreases |calls|
  {
    if calls != [] {
      StepKeepsWf(s, calls[0]);
      RunKeepsWf(Commit(s, Apply(s, calls[0])), calls[1..]);
    }
  }

  /** Across any sequence of calls, supply never decreases and sold tokens stay sold with their value. */
  lemma {:induction false} RunGrows(s: State, calls: seq<Call>)
    requires Wf(s)
    ensures Grows(s, Run(s, calls))
    decreases |calls|
  {
    if calls != [] {
      var next := Commit(s, Apply(s, calls[0]));
      StepGrows(s, calls[0]);
      StepKeepsWf(s, calls[0]);
      RunGrows(next, calls[1..]);
      GrowsTransitive(s, next, Run(next, calls[1..]));
    }
  }

  /** From deployment on, supply stays within 0..MAX_SUPPLY and never decreases. */
  lemma SupplyBounded(calls: seq<Call>, more: seq<Call>)
    ensures Run(Empty, calls).supply <= MAX_SUPPLY
    ensures Run(Empty, calls).supply <= Run(Run(Empty, calls), more).supply
  {
    EmptyWf();
    RunKeepsWf(Empty, calls);
    RunGrows(Run(Empty, calls), more);
  }
}
