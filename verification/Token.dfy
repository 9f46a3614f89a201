// The token that the contract calls through `TokenClient`: a plain balance ledger. A transfer goes through iff the
// amount is not negative, the sender can pay and the receiver accepts; a refused transfer changes nothing.
module Token {
  import opened Wrappers

  newtype byte = x: int | 0 <= x < 256

  datatype Address = Account(key: seq<byte>) | Contract(hash: seq<byte>)

  type Ledger = map<Address, int>

  // Who may hold the token, and how much of it.
  datatype Policy = Policy(authorized: Address -> bool, limit: Address -> int)

  function Balance(ledger: Ledger, who: Address): int {
    if who in ledger then ledger[who] else 0
  }

  predicate Accepts(policy: Policy, ledger: Ledger, to: Address, amount: int) {
    policy.authorized(to) && Balance(ledger, to) + amount <= policy.limit(to)
  }

  // Debit, then credit, and roll back if the receiver refuses.
  function Transfer(policy: Policy, ledger: Ledger, from: Address, to: Address, amount: int): Option<Ledger> {
    if amount < 0 || Balance(ledger, from) < amount then
      None
    else
      var debited := ledger[from := Balance(ledger, from) - amount];
      if Accepts(policy, debited, to, amount) then
        Some(debited[to := Balance(debited, to) + amount])
      else
        None
  }

  ghost predicate NonNegative(ledger: Ledger) {
    forall who <- ledger :: ledger[who] >= 0
  }

  ghost function Supply(ledger: Ledger): int
    decreases |ledger|
  {
    if ledger == map[] then
      0
    else
      var who :| who in ledger;
      ledger[who] + Supply(ledger - {who})
  }

  // `Supply` does not depend on which account is picked first.
  lemma {:induction false} SupplyWithout(ledger: Ledger, who: Address)
    requires who in ledger
    ensures Supply(ledger) == ledger[who] + Supply(ledger - {who})
    decreases |ledger|
  {
    var first :| first in ledger && Supply(ledger) == ledger[first] + Supply(ledger - {first});
    if first != who {
      SupplyWithout(ledger - {first}, who);
      SupplyWithout(ledger - {who}, first);
      assert ledger - {first} - {who} == ledger - {who} - {first};
    }
  }

  lemma SupplyUpdate(ledger: Ledger, who: Address, amount: int)
    ensures Supply(ledger[who := amount]) == Supply(ledger) - Balance(ledger, who) + amount
  {
    SupplyWithout(ledger[who := amount], who);
    if who in ledger {
      SupplyWithout(ledger, who);
      assert ledger[who := amount] - {who} == ledger - {who};
    } else {
      assert ledger[who := amount] - {who} == ledger;
    }
  }

  // When a transfer goes through, in the fields of the ledger and the policy. To oneself, the debit comes first.
  lemma TransferIff(policy: Policy, ledger: Ledger, from: Address, to: Address, amount: int)
    ensures Transfer(policy, ledger, from, to, amount).Some?
       <==> && 0 <= amount <= (if from in ledger then ledger[from] else 0)
            && policy.authorized(to)
            && (if to in ledger then ledger[to] else 0) + (if from == to then 0 else amount) <= policy.limit(to)
  {
  }

  // One transfer keeps the supply and every balance's sign, and moves `amount` and nothing else.
  lemma TransferMoves(policy: Policy, ledger: Ledger, from: Address, to: Address, amount: int)
    requires Transfer(policy, ledger, from, to, amount).Some?
    ensures var after := Transfer(policy, ledger, from, to, amount).value;
            && Supply(after) == Supply(ledger)
            && (NonNegative(ledger) ==> NonNegative(after))
            && (from == to ==> forall who :: Balance(after, who) == Balance(ledger, who))
            && (from != to ==> Balance(after, from) == Balance(ledger, from) - amount)
            && (from != to ==> Balance(after, to) == Balance(ledger, to) + amount)
            && (forall who :: who != from && who != to ==> Balance(after, who) == Balance(ledger, who))
  {
    var debited := ledger[from := Balance(ledger, from) - amount];
    SupplyUpdate(ledger, from, Balance(ledger, from) - amount);
    SupplyUpdate(debited, to, Balance(debited, to) + amount);
  }

  // The token contract as the batch contract sees it.
  class TokenClient {
    const policy: Policy
    var ledger: Ledger

    constructor (policy: Policy, ledger: Ledger)
      ensures this.policy == policy && this.ledger == ledger
    {
      this.policy := policy;
      this.ledger := ledger;
    }

    method TryTransfer(from: Address, to: Address, amount: int) returns (ok: bool)
      modifies this
      ensures ok <==>
                && 0 <= amount <= Balance(old(ledger), from)
                && policy.authorized(to)
                && Balance(old(ledger), to) + (if from == to then 0 else amount) <= policy.limit(to)
      ensures ok == Transfer(policy, old(ledger), from, to, amount).Some?
      ensures ledger == if ok then Transfer(policy, old(ledger), from, to, amount).value else old(ledger)
    {
      var spendable := Balance(ledger, from);
      if amount < 0 || spendable < amount {
        return false;
      }
      var before := ledger;
      ledger := ledger[from := spendable - amount];
      if !Accepts(policy, ledger, to, amount) {
        ledger := before;
        return false;
      }
      ledger := ledger[to := Balance(ledger, to) + amount];
      return true;
    }
  }
}
