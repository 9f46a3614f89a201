// When the order of a faucet batch matters.
module BatchOrder {
  import opened Token
  import opened BatchTransfer

  ghost predicate SameBalances(x: Ledger, y: Ledger) {
    forall who :: Balance(x, who) == Balance(y, who)
  }

  // Every reordering of the batch leaves every account with the same balance.
  ghost predicate OrderIrrelevant(policy: Policy, ledger: Ledger, sender: Address, receivers: seq<Receiver>) {
    forall other: seq<Receiver> | multiset(other) == multiset(receivers) ::
      SameBalances(Exec(policy, ledger, sender, other).ledger, Exec(policy, ledger, sender, receivers).ledger)
  }

  // ---------- Reorderings ----------

  lemma {:induction false} OccursOnce(receivers: seq<Receiver>, r: Receiver)
    requires forall i, j | 0 <= i < j < |receivers| :: receivers[i] != receivers[j]
    ensures multiset(receivers)[r] <= 1
  {
    if receivers != [] {
      var n := |receivers| - 1;
      assert receivers == receivers[..n] + [receivers[n]];
      OccursOnce(receivers[..n], r);
    }
  }

  lemma ReorderedBatch(sender: Address, receivers: seq<Receiver>, other: seq<Receiver>, amount: int)
    requires FaucetBatch(sender, receivers, amount) && multiset(other) == multiset(receivers)
    ensures FaucetBatch(sender, other, amount)
    ensures forall r :: r in other <==> r in receivers
  {
    forall r ensures r in other <==> r in receivers {
      assert r in multiset(other) <==> r in multiset(receivers);
    }
    forall i | 0 <= i < |other| ensures other[i] in receivers {
      assert other[i] in other;
    }
    forall i, j | 0 <= i < j < |other| ensures other[i].to != other[j].to {
      if other[i].to == other[j].to {
        assert other[i] == other[j];
        assert other == other[..j] + other[j..];
        assert other[i] in other[..j] && other[j] in other[j..];
        OccursOnce(receivers, other[i]);
        assert false;
      }
    }
  }

  ghost function AcceptingSet(policy: Policy, ledger: Ledger, receivers: seq<Receiver>): set<Receiver> {
    set r | r in receivers && Accepts(policy, ledger, r.to, r.amount)
  }

  lemma {:induction false} AcceptingIsSize(policy: Policy, ledger: Ledger, receivers: seq<Receiver>)
    requires forall i, j | 0 <= i < j < |receivers| :: receivers[i] != receivers[j]
    ensures Accepting(policy, ledger, receivers) == |AcceptingSet(policy, ledger, receivers)|
  {
    if receivers != [] {
      var n := |receivers| - 1;
      var rest, last := receivers[..n], receivers[n];
      AcceptingIsSize(policy, ledger, rest);
      assert receivers == rest + [last];
      AcceptingSetSnoc(policy, ledger, rest, last);
    }
  }

  lemma AcceptingSetSnoc(policy: Policy, ledger: Ledger, rest: seq<Receiver>, last: Receiver)
    requires last !in rest
    ensures |AcceptingSet(policy, ledger, rest + [last])|
            == |AcceptingSet(policy, ledger, rest)| + if Accepts(policy, ledger, last.to, last.amount) then 1 else 0
  {
    var before, after := AcceptingSet(policy, ledger, rest), AcceptingSet(policy, ledger, rest + [last]);
    if Accepts(policy, ledger, last.to, last.amount) {
      assert after == before + {last};
    } else {
      assert after == before;
    }
  }

  lemma {:induction false} AcceptingPrefix(policy: Policy, ledger: Ledger, receivers: seq<Receiver>, i: nat)
    requires i < |receivers|
    ensures Accepting(policy, ledger, receivers[..i])
            + (if Accepts(policy, ledger, receivers[i].to, receivers[i].amount) then 1 else 0)
            <= Accepting(policy, ledger, receivers)
  {
    var n := |receivers| - 1;
    if i < n {
      AcceptingPrefix(policy, ledger, receivers[..n], i);
      assert receivers[..n][..i] == receivers[..i];
    }
  }

  // No money for anyone, or enough for all.
  ghost predicate AllOrNone(policy: Policy, ledger: Ledger, sender: Address, receivers: seq<Receiver>, amount: int)
    requires amount > 0
  {
    || Balance(ledger, sender) / amount <= 0
    || Accepting(policy, ledger, receivers) <= Balance(ledger, sender) / amount
  }

  ghost predicate PaidAnywhere(policy: Policy, ledger: Ledger, sender: Address, r: Receiver)
    requires r.amount > 0
  {
    Balance(ledger, sender) / r.amount > 0 && Accepts(policy, ledger, r.to, r.amount)
  }

  // Then a receiver's fate does not depend on where it stands.
  lemma FateOf(policy: Policy, ledger: Ledger, sender: Address, receivers: seq<Receiver>, amount: int, i: nat)
    requires FaucetBatch(sender, receivers, amount) && AllOrNone(policy, ledger, sender, receivers, amount)
    requires i < |receivers|
    ensures var o := Exec(policy, ledger, sender, receivers);
            && (o.results[i] <==> PaidAnywhere(policy, ledger, sender, receivers[i]))
            && Balance(o.ledger, receivers[i].to)
               == Balance(ledger, receivers[i].to) + if o.results[i] then amount else 0
  {
    AcceptingPrefix(policy, ledger, receivers, i);
    ClosedForm(policy, ledger, sender, receivers, amount);
    ReceiverBalance(policy, ledger, sender, receivers, amount, i);
  }

  lemma SameAccepting(policy: Policy, ledger: Ledger, sender: Address,
                      receivers: seq<Receiver>, other: seq<Receiver>, amount: int)
    requires FaucetBatch(sender, receivers, amount) && multiset(other) == multiset(receivers)
    ensures Accepting(policy, ledger, other) == Accepting(policy, ledger, receivers)
  {
    ReorderedBatch(sender, receivers, other, amount);
    AcceptingIsSize(policy, ledger, receivers);
    AcceptingIsSize(policy, ledger, other);
    assert AcceptingSet(policy, ledger, other) == AcceptingSet(policy, ledger, receivers);
  }

  lemma SameBalanceOf(policy: Policy, ledger: Ledger, sender: Address,
                      receivers: seq<Receiver>, other: seq<Receiver>, amount: int, who: Address)
    requires FaucetBatch(sender, receivers, amount) && multiset(other) == multiset(receivers)
    requires AllOrNone(policy, ledger, sender, receivers, amount)
    ensures Balance(Exec(policy, ledger, sender, other).ledger, who)
            == Balance(Exec(policy, ledger, sender, receivers).ledger, who)
  {
    ReorderedBatch(sender, receivers, other, amount);
    SameAccepting(policy, ledger, sender, receivers, other, amount);
    if i :| 0 <= i < |receivers| && receivers[i].to == who {
      assert receivers[i] in other;
      var j :| 0 <= j < |other| && other[j] == receivers[i];
      FateOf(policy, ledger, sender, receivers, amount, i);
      FateOf(policy, ledger, sender, other, amount, j);
    } else if who == sender {
      ClosedForm(policy, ledger, sender, receivers, amount);
      ClosedForm(policy, ledger, sender, other, amount);
    } else {
      forall j | 0 <= j < |other| ensures other[j].to != who {
        assert other[j] in receivers;
      }
      BystanderBalance(policy, ledger, sender, receivers, who);
      BystanderBalance(policy, ledger, sender, other, who);
    }
  }

  // A reordering then leaves every balance and every address's outcome as they were.
  lemma OrderIndependence(policy: Policy, ledger: Ledger, sender: Address,
                          receivers: seq<Receiver>, other: seq<Receiver>, amount: int)
    requires FaucetBatch(sender, receivers, amount) && multiset(other) == multiset(receivers)
    requires AllOrNone(policy, ledger, sender, receivers, amount)
    ensures var o, p := Exec(policy, ledger, sender, receivers), Exec(policy, ledger, sender, other);
            && (forall i, j | 0 <= i < |receivers| && 0 <= j < |other| && receivers[i].to == other[j].to ::
                  o.results[i] == p.results[j])
            && SameBalances(p.ledger, o.ledger)
  {
    var o, p := Exec(policy, ledger, sender, receivers), Exec(policy, ledger, sender, other);
    ReorderedBatch(sender, receivers, other, amount);
    SameAccepting(policy, ledger, sender, receivers, other, amount);
    forall i, j | 0 <= i < |receivers| && 0 <= j < |other| && receivers[i].to == other[j].to
      ensures o.results[i] == p.results[j]
    {
      FateOf(policy, ledger, sender, receivers, amount, i);
      FateOf(policy, ledger, sender, other, amount, j);
    }
    forall who ensures Balance(p.ledger, who) == Balance(o.ledger, who) {
      SameBalanceOf(policy, ledger, sender, receivers, other, amount, who);
    }
  }

  lemma {:induction false} AllAcceptIff(policy: Policy, ledger: Ledger, receivers: seq<Receiver>)
    ensures Accepting(policy, ledger, receivers) <= |receivers|
    ensures Accepting(policy, ledger, receivers) == |receivers|
       <==> forall i | 0 <= i < |receivers| :: Accepts(policy, ledger, receivers[i].to, receivers[i].amount)
  {
    if receivers != [] {
      var n := |receivers| - 1;
      AllAcceptIff(policy, ledger, receivers[..n]);
      assert forall i | 0 <= i < n :: receivers[..n][i] == receivers[i];
    }
  }

  // Every receiver accepts in the ledger at the start, and the sender has the amount for each of them.
  ghost predicate EnoughForAll(policy: Policy, ledger: Ledger, sender: Address, receivers: seq<Receiver>, amount: int)
    requires amount > 0
  {
    && (forall i | 0 <= i < |receivers| :: Accepts(policy, ledger, receivers[i].to, amount))
    && |receivers| <= Balance(ledger, sender) / amount
  }

  lemma EnoughIsPaid(policy: Policy, ledger: Ledger, sender: Address, receivers: seq<Receiver>, amount: int, i: nat)
    requires FaucetBatch(sender, receivers, amount) && EnoughForAll(policy, ledger, sender, receivers, amount)
    requires i < |receivers|
    ensures Exec(policy, ledger, sender, receivers).results[i]
  {
    ClosedForm(policy, ledger, sender, receivers, amount);
    AllAcceptIff(policy, ledger, receivers[..i]);
  }

  lemma PaidIsEnough(policy: Policy, ledger: Ledger, sender: Address, receivers: seq<Receiver>, amount: int)
    requires FaucetBatch(sender, receivers, amount) && receivers != []
    requires forall i | 0 <= i < |receivers| :: Paid(policy, ledger, sender, receivers, amount, i)
    ensures EnoughForAll(policy, ledger, sender, receivers, amount)
  {
    var n := |receivers| - 1;
    assert Paid(policy, ledger, sender, receivers, amount, n);
    AllAcceptIff(policy, ledger, receivers);
    AllAcceptIff(policy, ledger, receivers[..n]);
    forall i | 0 <= i < |receivers| ensures Accepts(policy, ledger, receivers[i].to, amount) {
      assert Paid(policy, ledger, sender, receivers, amount, i);
    }
  }

  ghost predicate AllTrue(results: seq<bool>) {
    forall i | 0 <= i < |results| :: results[i]
  }

  // Every transfer of a batch goes through exactly when there is enough for all.
  lemma AllPaidIff(policy: Policy, ledger: Ledger, sender: Address, receivers: seq<Receiver>, amount: int)
    requires FaucetBatch(sender, receivers, amount) && receivers != []
    ensures AllTrue(Exec(policy, ledger, sender, receivers).results)
       <==> EnoughForAll(policy, ledger, sender, receivers, amount)
  {
    var results := Exec(policy, ledger, sender, receivers).results;
    if EnoughForAll(policy, ledger, sender, receivers, amount) {
      forall i | 0 <= i < |receivers| ensures results[i] {
        EnoughIsPaid(policy, ledger, sender, receivers, amount, i);
      }
    }
    if AllTrue(results) {
      ClosedForm(policy, ledger, sender, receivers, amount);
      forall i | 0 <= i < |receivers| ensures Paid(policy, ledger, sender, receivers, amount, i) {
        assert results[i];
      }
      PaidIsEnough(policy, ledger, sender, receivers, amount);
    }
  }

  // The accepting receiver that exactly `before` accepting ones precede.
  lemma {:induction false} AcceptingNumber(policy: Policy, ledger: Ledger, receivers: seq<Receiver>, before: nat)
    returns (i: nat)
    requires before < Accepting(policy, ledger, receivers)
    ensures i < |receivers| && Accepting(policy, ledger, receivers[..i]) == before
    ensures Accepts(policy, ledger, receivers[i].to, receivers[i].amount)
  {
    var n := |receivers| - 1;
    if before < Accepting(policy, ledger, receivers[..n]) {
      i := AcceptingNumber(policy, ledger, receivers[..n], before);
      assert receivers[..n][..i] == receivers[..i];
    } else {
      i := n;
    }
  }

  // With money for some but not for all, swapping the first and the last accepting receiver changes who is paid.
  lemma OrderMatters(policy: Policy, ledger: Ledger, sender: Address, receivers: seq<Receiver>, amount: int)
    requires FaucetBatch(sender, receivers, amount) && !AllOrNone(policy, ledger, sender, receivers, amount)
    ensures !OrderIrrelevant(policy, ledger, sender, receivers)
  {
    var first := AcceptingNumber(policy, ledger, receivers, 0);
    var last := AcceptingNumber(policy, ledger, receivers, Accepting(policy, ledger, receivers) - 1);
    if last < first {
      AcceptingPrefix(policy, ledger, receivers[..first], last);
    }
    SwapChangesWhoIsPaid(policy, ledger, sender, receivers, amount, first, last);
  }

  lemma SwapChangesWhoIsPaid(policy: Policy, ledger: Ledger, sender: Address,
                             receivers: seq<Receiver>, amount: int, first: nat, last: nat)
    requires FaucetBatch(sender, receivers, amount)
    requires first <= last < |receivers|
    requires Paid(policy, ledger, sender, receivers, amount, first)
    requires !Paid(policy, ledger, sender, receivers, amount, last)
    requires Accepts(policy, ledger, receivers[last].to, amount)
    ensures !OrderIrrelevant(policy, ledger, sender, receivers)
  {
    var other := receivers[first := receivers[last]][last := receivers[first]];
    ReorderedBatch(sender, receivers, other, amount);
    assert other[..first] == receivers[..first];
    ReceiverBalance(policy, ledger, sender, receivers, amount, last);
    ReceiverBalance(policy, ledger, sender, other, amount, first);
    assert !SameBalances(Exec(policy, ledger, sender, other).ledger, Exec(policy, ledger, sender, receivers).ledger);
  }

  // The exact condition: order matters precisely when there is money for some accepting receivers but not for all.
  lemma OrderIrrelevantIff(policy: Policy, ledger: Ledger, sender: Address, receivers: seq<Receiver>, amount: int)
    requires FaucetBatch(sender, receivers, amount)
    ensures OrderIrrelevant(policy, ledger, sender, receivers)
       <==> || Balance(ledger, sender) / amount <= 0
            || Accepting(policy, ledger, receivers) <= Balance(ledger, sender) / amount
  {
    if AllOrNone(policy, ledger, sender, receivers, amount) {
      forall other: seq<Receiver> | multiset(other) == multiset(receivers)
        ensures SameBalances(Exec(policy, ledger, sender, other).ledger,
                             Exec(policy, ledger, sender, receivers).ledger)
      {
        OrderIndependence(policy, ledger, sender, receivers, other, amount);
      }
    } else {
      OrderMatters(policy, ledger, sender, receivers, amount);
    }
  }
}
