// The `batch_transfer` contract: transfers in list order, each of which can fail alone.
module BatchTransfer {
  import opened Token

  datatype Receiver = Receiver(to: Address, amount: int)

  datatype Outcome = Outcome(ledger: Ledger, results: seq<bool>)

  // What the contract leaves in the ledger and returns.
  function Exec(policy: Policy, ledger: Ledger, sender: Address, receivers: seq<Receiver>): (o: Outcome)
    ensures |o.results| == |receivers|
    decreases |receivers|
  {
    if receivers == [] then
      Outcome(ledger, [])
    else
      var n := |receivers| - 1;
      var before := Exec(policy, ledger, sender, receivers[..n]);
      match Transfer(policy, before.ledger, sender, receivers[n].to, receivers[n].amount)
      case Some(after) => Outcome(after, before.results + [true])
      case None => Outcome(before.ledger, before.results + [false])
  }

  method BatchTransfer(client: TokenClient, sender: Address, receivers: seq<Receiver>) returns (results: seq<bool>)
    modifies client
    ensures Outcome(client.ledger, results) == Exec(client.policy, old(client.ledger), sender, receivers)
  {
    results := [];
    for i := 0 to |receivers|
      invariant Outcome(client.ledger, results) == Exec(client.policy, old(client.ledger), sender, receivers[..i])
    {
      assert receivers[..i + 1][..i] == receivers[..i];
      var ok := client.TryTransfer(sender, receivers[i].to, receivers[i].amount);
      results := results + [ok];
    }
    assert receivers[..|receivers|] == receivers;
  }

  // ---------- Position and concatenation ----------

  // Result i is the fate of transfer i in the ledger that the first i transfers leave.
  lemma {:induction false} ResultAt(policy: Policy, ledger: Ledger, sender: Address, receivers: seq<Receiver>, i: nat)
    requires i < |receivers|
    ensures Exec(policy, ledger, sender, receivers).results[i]
       <==> Transfer(policy, Exec(policy, ledger, sender, receivers[..i]).ledger, sender,
                     receivers[i].to, receivers[i].amount).Some?
    ensures Exec(policy, ledger, sender, receivers).results[..i] == Exec(policy, ledger, sender, receivers[..i]).results
    decreases |receivers|
  {
    var n := |receivers| - 1;
    if i < n {
      ResultAt(policy, ledger, sender, receivers[..n], i);
      assert receivers[..n][..i] == receivers[..i];
    }
  }

  // A concatenation is its first part and then its second.
  lemma {:induction false} ExecAppend(policy: Policy, ledger: Ledger, sender: Address,
                                      xs: seq<Receiver>, ys: seq<Receiver>)
    ensures var first := Exec(policy, ledger, sender, xs);
            var second := Exec(policy, first.ledger, sender, ys);
            Exec(policy, ledger, sender, xs + ys) == Outcome(second.ledger, first.results + second.results)
    decreases |ys|
  {
    if ys == [] {
      assert xs + ys == xs;
    } else {
      var n := |ys| - 1;
      ExecAppend(policy, ledger, sender, xs, ys[..n]);
      assert (xs + ys)[..|xs + ys| - 1] == xs + ys[..n];
      assert (xs + ys)[|xs + ys| - 1] == ys[n];
    }
  }

  // ---------- Conservation ----------

  // What the successful transfers to `who` add up to.
  function Credited(receivers: seq<Receiver>, results: seq<bool>, who: Address): int
    requires |results| == |receivers|
  {
    if receivers == [] then
      0
    else
      var n := |receivers| - 1;
      Credited(receivers[..n], results[..n], who)
      + (if results[n] && receivers[n].to == who then receivers[n].amount else 0)
  }

  // What the successful transfers to anyone but `who` add up to.
  function Spent(receivers: seq<Receiver>, results: seq<bool>, who: Address): int
    requires |results| == |receivers|
  {
    if receivers == [] then
      0
    else
      var n := |receivers| - 1;
      Spent(receivers[..n], results[..n], who)
      + (if results[n] && receivers[n].to != who then receivers[n].amount else 0)
  }

  // For any list, with duplicates and the sender itself allowed.
  lemma {:induction false} Conservation(policy: Policy, ledger: Ledger, sender: Address, receivers: seq<Receiver>)
    ensures var o := Exec(policy, ledger, sender, receivers);
            && Supply(o.ledger) == Supply(ledger)
            && (NonNegative(ledger) ==> NonNegative(o.ledger))
            && Balance(o.ledger, sender) == Balance(ledger, sender) - Spent(receivers, o.results, sender)
            && forall who :: who != sender ==>
                 Balance(o.ledger, who) == Balance(ledger, who) + Credited(receivers, o.results, who)
    decreases |receivers|
  {
    if receivers != [] {
      var n := |receivers| - 1;
      var before := Exec(policy, ledger, sender, receivers[..n]);
      Conservation(policy, ledger, sender, receivers[..n]);
      assert Exec(policy, ledger, sender, receivers).results[..n] == before.results;
      var last := receivers[n];
      if Transfer(policy, before.ledger, sender, last.to, last.amount).Some? {
        TransferMoves(policy, before.ledger, sender, last.to, last.amount);
      }
    }
  }

  // Nobody ends above its balance at the start, other than an authorised account that stays within its limit.
  lemma {:induction false} LimitsHold(policy: Policy, ledger: Ledger, sender: Address, receivers: seq<Receiver>)
    ensures var after := Exec(policy, ledger, sender, receivers).ledger;
            forall who ::
              || Balance(after, who) <= Balance(ledger, who)
              || (policy.authorized(who) && Balance(after, who) <= policy.limit(who))
    decreases |receivers|
  {
    if receivers != [] {
      var n := |receivers| - 1;
      var before, last := Exec(policy, ledger, sender, receivers[..n]), receivers[n];
      LimitsHold(policy, ledger, sender, receivers[..n]);
      TransferIff(policy, before.ledger, sender, last.to, last.amount);
      if Transfer(policy, before.ledger, sender, last.to, last.amount).Some? {
        TransferMoves(policy, before.ledger, sender, last.to, last.amount);
      }
    }
  }

  // ---------- Closed form under a tight balance ----------

  // Constant positive amount, distinct receivers, none of them the sender: what the faucet's queue hands over.
  ghost predicate FaucetBatch(sender: Address, receivers: seq<Receiver>, amount: int) {
    && amount > 0
    && (forall i | 0 <= i < |receivers| :: receivers[i].amount == amount && receivers[i].to != sender)
    && (forall i, j | 0 <= i < j < |receivers| :: receivers[i].to != receivers[j].to)
  }

  function Accepting(policy: Policy, ledger: Ledger, receivers: seq<Receiver>): nat {
    if receivers == [] then
      0
    else
      var n := |receivers| - 1;
      Accepting(policy, ledger, receivers[..n])
      + (if Accepts(policy, ledger, receivers[n].to, receivers[n].amount) then 1 else 0)
  }

  // Receiver i is paid iff it accepts at the start and fewer than balance / amount accepting receivers precede it.
  ghost predicate Paid(policy: Policy, ledger: Ledger, sender: Address, receivers: seq<Receiver>, amount: int, i: nat)
    requires amount > 0 && i < |receivers|
  {
    && Accepts(policy, ledger, receivers[i].to, amount)
    && Accepting(policy, ledger, receivers[..i]) < Balance(ledger, sender) / amount
  }

  function Min(x: int, y: int): int {
    if x < y then x else y
  }

  function Max(x: int, y: int): int {
    if x < y then y else x
  }

  // How many of them the sender's balance pays for.
  function PaidCount(policy: Policy, ledger: Ledger, sender: Address, receivers: seq<Receiver>, amount: int): nat
    requires amount > 0
  {
    Min(Accepting(policy, ledger, receivers), Max(0, Balance(ledger, sender) / amount))
  }

  lemma CanPayOneMore(balance: int, amount: int, paid: nat)
    requires amount > 0
    ensures balance - amount * paid >= amount <==> paid < balance / amount
    ensures amount * (paid + 1) == amount * paid + amount
  {
    var q, r := balance / amount, balance % amount;
    assert balance == amount * q + r;
    if paid < q {
      assert amount * (paid + 1) <= amount * q;
    } else {
      assert amount * q <= amount * paid;
    }
  }

  lemma {:induction false} CreditedAbsent(receivers: seq<Receiver>, results: seq<bool>, who: Address)
    requires |results| == |receivers|
    requires forall i | 0 <= i < |receivers| :: receivers[i].to != who
    ensures Credited(receivers, results, who) == 0
  {
    if receivers != [] {
      CreditedAbsent(receivers[..|receivers| - 1], results[..|receivers| - 1], who);
    }
  }

  lemma {:induction false} CreditedOnce(sender: Address, receivers: seq<Receiver>, results: seq<bool>,
                                        amount: int, i: nat)
    requires |results| == |receivers| && i < |receivers| && FaucetBatch(sender, receivers, amount)
    ensures Credited(receivers, results, receivers[i].to) == if results[i] then amount else 0
  {
    var n := |receivers| - 1;
    if i < n {
      CreditedOnce(sender, receivers[..n], results[..n], amount, i);
    } else {
      CreditedAbsent(receivers[..n], results[..n], receivers[n].to);
    }
  }

  // One more receiver: it is paid iff it accepts at the start and the money left after the paid ones still covers it.
  lemma LastReceiver(policy: Policy, ledger: Ledger, sender: Address, receivers: seq<Receiver>, amount: int)
    requires receivers != [] && FaucetBatch(sender, receivers, amount)
    requires var rest := receivers[..|receivers| - 1];
             Balance(Exec(policy, ledger, sender, rest).ledger, sender)
             == Balance(ledger, sender) - amount * PaidCount(policy, ledger, sender, rest, amount)
    ensures var o := Exec(policy, ledger, sender, receivers);
            && (o.results[|receivers| - 1] <==> Paid(policy, ledger, sender, receivers, amount, |receivers| - 1))
            && Balance(o.ledger, sender)
               == Balance(ledger, sender) - amount * PaidCount(policy, ledger, sender, receivers, amount)
  {
    var n := |receivers| - 1;
    var rest, last := receivers[..n], receivers[n].to;
    var before := Exec(policy, ledger, sender, rest);
    var paid := PaidCount(policy, ledger, sender, rest, amount);
    var affordable := Balance(ledger, sender) / amount;
    assert Balance(before.ledger, last) == Balance(ledger, last) by {
      Conservation(policy, ledger, sender, rest);
      CreditedAbsent(rest, before.results, last);
    }
    CanPayOneMore(Balance(ledger, sender), amount, paid);
    assert paid < affordable <==> Accepting(policy, ledger, rest) < affordable;
    LastTransfer(policy, ledger, before.ledger, sender, last, amount);
  }

  // A transfer to an account whose balance is still what it was at the start.
  lemma LastTransfer(policy: Policy, start: Ledger, ledger: Ledger, sender: Address, to: Address, amount: int)
    requires amount > 0 && to != sender && Balance(ledger, to) == Balance(start, to)
    ensures var after := Transfer(policy, ledger, sender, to, amount);
            && (after.Some? <==> Balance(ledger, sender) >= amount && Accepts(policy, start, to, amount))
            && (after.Some? ==> Balance(after.value, sender) == Balance(ledger, sender) - amount)
  {
  }

  // Which receivers of a faucet batch are paid, and every balance afterwards.
  lemma {:induction false} ClosedForm(policy: Policy, ledger: Ledger, sender: Address,
                                      receivers: seq<Receiver>, amount: int)
    requires FaucetBatch(sender, receivers, amount)
    ensures var o := Exec(policy, ledger, sender, receivers);
            && (forall i | 0 <= i < |receivers| :: o.results[i] <==> Paid(policy, ledger, sender, receivers, amount, i))
            && Balance(o.ledger, sender)
               == Balance(ledger, sender) - amount * PaidCount(policy, ledger, sender, receivers, amount)
    decreases |receivers|
  {
    if receivers != [] {
      var n := |receivers| - 1;
      var rest := receivers[..n];
      ClosedForm(policy, ledger, sender, rest, amount);
      LastReceiver(policy, ledger, sender, receivers, amount);
      forall i | 0 <= i < n
        ensures Exec(policy, ledger, sender, receivers).results[i]
           <==> Paid(policy, ledger, sender, receivers, amount, i)
      {
        assert rest[..i] == receivers[..i];
        assert Exec(policy, ledger, sender, receivers).results[i] == Exec(policy, ledger, sender, rest).results[i];
      }
    }
  }

  lemma ReceiverBalance(policy: Policy, ledger: Ledger, sender: Address,
                        receivers: seq<Receiver>, amount: int, i: nat)
    requires FaucetBatch(sender, receivers, amount) && i < |receivers|
    ensures Balance(Exec(policy, ledger, sender, receivers).ledger, receivers[i].to)
            == Balance(ledger, receivers[i].to)
               + if Paid(policy, ledger, sender, receivers, amount, i) then amount else 0
  {
    var o := Exec(policy, ledger, sender, receivers);
    ClosedForm(policy, ledger, sender, receivers, amount);
    Conservation(policy, ledger, sender, receivers);
    CreditedOnce(sender, receivers, o.results, amount, i);
  }

  lemma BystanderBalance(policy: Policy, ledger: Ledger, sender: Address, receivers: seq<Receiver>, who: Address)
    requires who != sender && forall i | 0 <= i < |receivers| :: receivers[i].to != who
    ensures Balance(Exec(policy, ledger, sender, receivers).ledger, who) == Balance(ledger, who)
  {
    Conservation(policy, ledger, sender, receivers);
    CreditedAbsent(receivers, Exec(policy, ledger, sender, receivers).results, who);
  }
}
