// Tokens credited against "Ok" answers sent, account by account, over every run.
module FaucetAccounts {
  import opened Wrappers
  import opened Token
  import opened Codec
  import opened Queue
  import opened Batch
  import opened Faucet
  import opened FaucetLog
  import opened FaucetMoney
  import opened Counting
  import Contract = BatchTransfer

  predicate For(config: Config, address: string, who: Address) {
    config.decode(address) == Some(who)
  }

  // ---------- Counting within one batch ----------

  function WinFlags(config: Config, entries: seq<PendingEntry>, results: seq<bool>, who: Address): seq<bool> {
    seq(|entries|, i requires 0 <= i < |entries| =>
      i < |results| && results[i] && For(config, entries[i].address, who))
  }

  // Transfers to `who` that went through.
  function Wins(config: Config, entries: seq<PendingEntry>, results: seq<bool>, who: Address): nat {
    Count(WinFlags(config, entries, results, who))
  }

  function MissFlags(config: Config, entries: seq<PendingEntry>, results: seq<bool>, who: Address): seq<bool> {
    seq(|entries|, i requires 0 <= i < |entries| =>
      i < |results| && !results[i] && For(config, entries[i].address, who))
  }

  function OkFlags(config: Config, submission: Submission, entries: seq<PendingEntry>, who: Address): seq<bool> {
    seq(|entries|, i requires 0 <= i < |entries| =>
      AnswerOf(submission, entries, i).Success? && For(config, entries[i].address, who))
  }

  // What a batch's record says about one account: transfers that went through, those of them in a batch reported
  // as failed, "Ok" answers, and "Ok" answers to transfers that did not go through.
  function PaidIn(config: Config, r: Record, who: Address): nat {
    match r.fate
    case Confirmed(_, _, _, results) => Wins(config, r.batch, results, who)
    case Failed(_, Some(results)) => Wins(config, r.batch, results, who)
    case Failed(_, None) => 0
  }

  function LateIn(config: Config, r: Record, who: Address): nat {
    if r.fate.Failed? then PaidIn(config, r, who) else 0
  }

  function OkIn(config: Config, r: Record, who: Address): nat {
    Count(OkFlags(config, SubmissionOf(r), r.batch, who))
  }

  function OverIn(config: Config, r: Record, who: Address): nat {
    if r.fate.Confirmed? && !Readable(r.fate.meta) then
      Count(MissFlags(config, r.batch, r.fate.results, who))
    else
      0
  }

  ghost predicate GoodRecord(r: Record) {
    r.fate.Confirmed? ==> |r.fate.results| == |r.batch| && Honest(r.fate.meta, r.fate.results)
  }

  lemma RecordBalances(config: Config, r: Record, who: Address)
    requires GoodRecord(r)
    ensures OkIn(config, r, who) + LateIn(config, r, who) == PaidIn(config, r, who) + OverIn(config, r, who)
  {
    var ok := OkFlags(config, SubmissionOf(r), r.batch, who);
    match r.fate
    case Confirmed(hash, envelopeXdr, meta, results) =>
      var wins := WinFlags(config, r.batch, results, who);
      if Readable(meta) {
        AnswersAgreeIff(hash, envelopeXdr, meta, r.batch, results);
        assert ok == wins;
      } else {
        CountSplit(ok, wins, MissFlags(config, r.batch, results, who));
      }
    case Failed(_, _) =>
      CountZero(ok);
  }

  // ---------- Summing over batches ----------

  function Total(history: seq<Record>, f: Record -> nat): nat {
    if history == [] then 0 else Total(history[..|history| - 1], f) + f(history[|history| - 1])
  }

  function PaidBy(config: Config, who: Address): Record -> nat {
    (r: Record) => PaidIn(config, r, who)
  }

  function LateBy(config: Config, who: Address): Record -> nat {
    (r: Record) => LateIn(config, r, who)
  }

  function OkBy(config: Config, who: Address): Record -> nat {
    (r: Record) => OkIn(config, r, who)
  }

  function OverBy(config: Config, who: Address): Record -> nat {
    (r: Record) => OverIn(config, r, who)
  }

  lemma TotalSnoc(history: seq<Record>, r: Record, f: Record -> nat)
    ensures Total(history + [r], f) == Total(history, f) + f(r)
  {
    assert (history + [r])[..|history + [r]| - 1] == history;
  }

  lemma {:induction false} TotalUpdate(history: seq<Record>, k: nat, r: Record, f: Record -> nat)
    requires k < |history|
    ensures Total(history[k := r], f) == Total(history, f) - f(history[k]) + f(r)
  {
    var n := |history| - 1;
    if k < n {
      TotalUpdate(history[..n], k, r, f);
      assert history[k := r][..n] == history[..n][k := r];
    } else {
      assert history[k := r][..n] == history[..n];
    }
  }

  lemma {:induction false} TotalBalances(config: Config, history: seq<Record>, who: Address)
    requires forall k | 0 <= k < |history| :: GoodRecord(history[k])
    ensures Total(history, OkBy(config, who)) + Total(history, LateBy(config, who))
            == Total(history, PaidBy(config, who)) + Total(history, OverBy(config, who))
  {
    if history != [] {
      TotalBalances(config, history[..|history| - 1], who);
      RecordBalances(config, history[|history| - 1], who);
    }
  }

  lemma {:induction false} TotalZero(history: seq<Record>, f: Record -> nat)
    ensures Total(history, f) == 0 <==> forall k | 0 <= k < |history| :: f(history[k]) == 0
  {
    if history != [] {
      var n := |history| - 1;
      TotalZero(history[..n], f);
      assert forall k | 0 <= k < n :: history[k] == history[..n][k];
    }
  }

  // ---------- Transfers that went through ----------

  function PhaseWins(config: Config, phase: Phase, who: Address): nat {
    if phase.Applied? then Wins(config, phase.batch, phase.results, who) else 0
  }

  // Every verdict of the chain is accounted for by a record or by the batch that was just applied.
  ghost predicate WinsInv(config: Config, s: State, who: Address) {
    |s.verdicts| == |s.chain| &&
    Wins(config, s.chain, s.verdicts, who)
    == Total(s.history, PaidBy(config, who)) + PhaseWins(config, s.phase, who)
  }

  lemma WinsAppend(config: Config, xs: seq<PendingEntry>, rs: seq<bool>, ys: seq<PendingEntry>, ss: seq<bool>,
                   who: Address)
    requires |rs| == |xs| && |ss| == |ys|
    ensures Wins(config, xs + ys, rs + ss, who) == Wins(config, xs, rs, who) + Wins(config, ys, ss, who)
  {
    assert WinFlags(config, xs + ys, rs + ss, who) == WinFlags(config, xs, rs, who) + WinFlags(config, ys, ss, who);
    CountAppend(WinFlags(config, xs, rs, who), WinFlags(config, ys, ss, who));
  }

  lemma SettleKeepsWins(config: Config, s: State, k: nat, who: Address)
    requires WinsInv(config, s, who) && Step(config, s, Settle(k)).Some?
    ensures WinsInv(config, Step(config, s, Settle(k)).value, who)
  {
    var s' := Step(config, s, Settle(k)).value;
    WinsAppend(config, s.chain, s.verdicts, s.history[k].batch, s'.history[k].fate.applied.value, who);
    TotalUpdate(s.history, k, s'.history[k], PaidBy(config, who));
  }

  lemma StepKeepsWins(config: Config, s: State, e: Event, who: Address)
    requires WinsInv(config, s, who) && Step(config, s, e).Some?
    ensures WinsInv(config, Step(config, s, e).value, who)
  {
    var s' := Step(config, s, e).value;
    match e
    case Apply =>
      WinsAppend(config, s.chain, s.verdicts, s.phase.batch, s'.phase.results, who);
    case Settle(k) => SettleKeepsWins(config, s, k, who);
    case Confirm(_, _, _) => TotalSnoc(s.history, s'.history[|s.history|], PaidBy(config, who));
    case Fail(_) => TotalSnoc(s.history, s'.history[|s.history|], PaidBy(config, who));
    case Request(_) =>
    case Drain =>
    case Respond =>
    case Finish =>
  }

  lemma {:induction false} ReachableWins(config: Config, start: Ledger, events: seq<Event>, s: State, who: Address)
    requires Reaches(config, start, events, s)
    ensures WinsInv(config, s, who)
    decreases |events|
  {
    if events != [] {
      var n := |events| - 1;
      var before := Run(config, Init(start), events[..n]).value;
      ReachableWins(config, start, events[..n], before, who);
      StepKeepsWins(config, before, events[n], who);
    }
  }

  lemma {:induction false} CreditedIsWins(config: Config, entries: seq<PendingEntry>, results: seq<bool>, who: Address)
    requires AllDecode(config, entries) && |results| == |entries|
    ensures Contract.Credited(Receivers(config, entries), results, who)
            == config.amount * Wins(config, entries, results, who)
  {
    if entries != [] {
      var n := |entries| - 1;
      CreditedIsWins(config, entries[..n], results[..n], who);
      assert Receivers(config, entries)[..n] == Receivers(config, entries[..n]);
      assert WinFlags(config, entries, results, who)[..n] == WinFlags(config, entries[..n], results[..n], who);
      var wins := Wins(config, entries[..n], results[..n], who);
      assert config.amount * (wins + 1) == config.amount * wins + config.amount;
    }
  }

  // Transfers to `who` that went through, in all batches.
  function AllPaid(config: Config, s: State, who: Address): nat {
    Total(s.history, PaidBy(config, who)) + PhaseWins(config, s.phase, who)
  }

  // What an account gained since the start, in units of the faucet's amount.
  lemma GainIsWins(config: Config, start: Ledger, s: State, who: Address)
    requires ChainInv(config, start, s) && WinsInv(config, s, who) && who != config.funder
    ensures Balance(s.ledger, who) - Balance(start, who)
            == config.amount * AllPaid(config, s, who)
  {
    Contract.Conservation(config.policy, start, config.funder, Receivers(config, s.chain));
    CreditedIsWins(config, s.chain, s.verdicts, who);
  }

  // ---------- Answers that were sent ----------

  function SentFlags(config: Config, accepted: seq<string>, replies: seq<Reply>, who: Address): seq<bool> {
    seq(|replies|, i requires 0 <= i < |replies| =>
      && replies[i].answer.Success?
      && replies[i].responder < |accepted|
      && For(config, accepted[replies[i].responder], who))
  }

  // "Ok" answers to requests for `who`.
  function OkAnswers(config: Config, accepted: seq<string>, replies: seq<Reply>, who: Address): nat {
    Count(SentFlags(config, accepted, replies, who))
  }

  lemma OkAnswersAppend(config: Config, accepted: seq<string>, xs: seq<Reply>, ys: seq<Reply>, who: Address)
    ensures OkAnswers(config, accepted, xs + ys, who)
            == OkAnswers(config, accepted, xs, who) + OkAnswers(config, accepted, ys, who)
  {
    assert SentFlags(config, accepted, xs + ys, who)
           == SentFlags(config, accepted, xs, who) + SentFlags(config, accepted, ys, who);
    CountAppend(SentFlags(config, accepted, xs, who), SentFlags(config, accepted, ys, who));
  }

  lemma {:induction false} OkAnswersTotal(config: Config, accepted: seq<string>, history: seq<Record>, who: Address)
    requires Flat(history) <= Numbered(accepted)
    ensures OkAnswers(config, accepted, AllReplies(history), who) == Total(history, OkBy(config, who))
  {
    if history != [] {
      var n := |history| - 1;
      var last := history[n];
      var before := Flat(history[..n]);
      assert before <= Numbered(accepted);
      OkAnswersTotal(config, accepted, history[..n], who);
      var replies := Replies(SubmissionOf(last), last.batch);
      OkAnswersAppend(config, accepted, AllReplies(history[..n]), replies, who);
      forall i | 0 <= i < |last.batch|
        ensures last.batch[i].responder < |accepted| && accepted[last.batch[i].responder] == last.batch[i].address
      {
        assert Flat(history)[|before| + i] == last.batch[i];
        assert Numbered(accepted)[|before| + i] == last.batch[i];
      }
      assert SentFlags(config, accepted, replies, who) == OkFlags(config, SubmissionOf(last), last.batch, who);
    }
  }

  // ---------- Accounting ----------

  // The "Ok" answers that the current batch is still owed.
  function OkOwed(config: Config, s: State, who: Address): nat
    requires s.phase.Answering? ==> s.phase.next <= |s.phase.batch|
  {
    OkAnswers(config, s.accepted, Owed(s.phase), who)
  }

  // The same in numbers of transfers, and for the funder too.
  lemma AnswerCounts(config: Config, start: Ledger, events: seq<Event>, s: State, who: Address)
    requires Reaches(config, start, events, s)
    ensures s.phase.Answering? ==> s.phase.next <= |s.phase.batch|
    ensures OkAnswers(config, s.accepted, s.sent, who) + OkOwed(config, s, who) + Total(s.history, LateBy(config, who))
            == Total(s.history, PaidBy(config, who)) + Total(s.history, OverBy(config, who))
  {
    ReachableInv(config, start, events, s);
    var served := Flat(s.history) + Unrecorded(s.phase);
    assert Flat(s.history) <= served <= served + s.pending;
    OkAnswersTotal(config, s.accepted, s.history, who);
    OkAnswersAppend(config, s.accepted, s.sent, Owed(s.phase), who);
    TotalBalances(config, s.history, who);
  }

  // "Ok" answers sent or owed for `who`, and transfers to it that no "Ok" speaks of: those of batches reported as
  // failed and of a batch applied but not reported yet.
  function AllTold(config: Config, s: State, who: Address): nat
    requires s.phase.Answering? ==> s.phase.next <= |s.phase.batch|
  {
    OkAnswers(config, s.accepted, s.sent, who) + OkOwed(config, s, who)
    + Total(s.history, LateBy(config, who)) + PhaseWins(config, s.phase, who)
  }

  // "Ok" answers given to transfers that did not go through.
  function Overclaimed(config: Config, s: State, who: Address): nat {
    Total(s.history, OverBy(config, who))
  }

  // In every reachable state, for every account but the funder: the tokens it gained and the amount for each "Ok" given
  // to a transfer that did not go through are the amount for each "Ok" and each transfer that no "Ok" speaks of.
  lemma Accounting(config: Config, start: Ledger, events: seq<Event>, s: State, who: Address)
    requires Reaches(config, start, events, s) && who != config.funder
    ensures s.phase.Answering? ==> s.phase.next <= |s.phase.batch|
    ensures Balance(s.ledger, who) - Balance(start, who) + config.amount * Overclaimed(config, s, who)
            == config.amount * AllTold(config, s, who)
  {
    ReachableTokenInv(config, start, events, s);
    ReachableWins(config, start, events, s, who);
    GainIsWins(config, start, s, who);
    AnswerCounts(config, start, events, s, who);
    Factor(config.amount, AllPaid(config, s, who), Overclaimed(config, s, who), AllTold(config, s, who));
  }

  lemma Factor(a: int, x: int, y: int, sum: int)
    requires sum == x + y
    ensures a * x + a * y == a * sum
  {
  }

  lemma NothingOwedAtRest(config: Config, s: State, who: Address)
    requires s.phase.Idle?
    ensures OkOwed(config, s, who) == 0 && PhaseWins(config, s.phase, who) == 0
  {
    assert SentFlags(config, s.accepted, [], who) == [];
  }

  // With readable meta, between batches: an account's gain outside the batches reported as failed is the amount for
  // each "Ok" answer it was sent.
  lemma AccountingAtRest(config: Config, start: Ledger, events: seq<Event>, s: State, who: Address)
    requires Reaches(config, start, events, s) && who != config.funder
    requires s.phase.Idle? && AllReadable(s.history)
    ensures Balance(s.ledger, who) - Balance(start, who) - config.amount * Total(s.history, LateBy(config, who))
            == config.amount * OkAnswers(config, s.accepted, s.sent, who)
  {
    Accounting(config, start, events, s, who);
    NothingOwedAtRest(config, s, who);
    TotalZero(s.history, OverBy(config, who));
    Factor(config.amount, OkAnswers(config, s.accepted, s.sent, who), Total(s.history, LateBy(config, who)),
           AllTold(config, s, who));
  }

  lemma {:induction false} NegativeAmountsFail(policy: Policy, ledger: Ledger, sender: Address,
                                               receivers: seq<Contract.Receiver>)
    requires forall i | 0 <= i < |receivers| :: receivers[i].amount < 0
    ensures forall i | 0 <= i < |receivers| :: !Contract.Exec(policy, ledger, sender, receivers).results[i]
  {
    if receivers != [] {
      NegativeAmountsFail(policy, ledger, sender, receivers[..|receivers| - 1]);
    }
  }

  lemma NegativeAmountPaysNobody(config: Config, start: Ledger, s: State, who: Address)
    requires ChainInv(config, start, s) && config.amount < 0
    ensures Wins(config, s.chain, s.verdicts, who) == 0
  {
    NegativeAmountsFail(config.policy, start, config.funder, Receivers(config, s.chain));
    CountZero(WinFlags(config, s.chain, s.verdicts, who));
  }

  // With readable meta, at every moment and for any amount: "Ok" answers never claim more than was credited.
  lemma OkNeverOverclaims(config: Config, start: Ledger, events: seq<Event>, s: State, who: Address)
    requires Reaches(config, start, events, s) && who != config.funder && AllReadable(s.history)
    ensures config.amount * OkAnswers(config, s.accepted, s.sent, who) <= Balance(s.ledger, who) - Balance(start, who)
  {
    AnswerCounts(config, start, events, s, who);
    TotalZero(s.history, OverBy(config, who));
    ReachableTokenInv(config, start, events, s);
    ReachableWins(config, start, events, s, who);
    GainIsWins(config, start, s, who);
    var ok := OkAnswers(config, s.accepted, s.sent, who);
    var paid := AllPaid(config, s, who);
    if config.amount >= 0 {
      AtMostTimes(config.amount, ok, paid);
    } else {
      NegativeAmountPaysNobody(config, start, s, who);
      assert ok == 0 && paid == 0;
    }
  }

  lemma AtMostTimes(a: nat, x: nat, y: nat)
    requires x <= y
    ensures a * x <= a * y
  {
    Factor(a, x, y - x, y);
  }

  // No batch that was confirmed with unreadable meta contains a failed transfer, other than to the funder itself.
  ghost predicate NoHiddenFailure(config: Config, history: seq<Record>) {
    forall k, i | 0 <= k < |history| && history[k].fate.Confirmed? && !Readable(history[k].fate.meta)
                  && 0 <= i < |history[k].batch| && i < |history[k].fate.results| ::
      history[k].fate.results[i] || For(config, history[k].batch[i].address, config.funder)
  }

  lemma OverIsHidden(config: Config, history: seq<Record>, who: Address)
    requires NoHiddenFailure(config, history) && who != config.funder
    ensures Total(history, OverBy(config, who)) == 0
  {
    forall k | 0 <= k < |history| ensures OverIn(config, history[k], who) == 0 {
      var r := history[k];
      if r.fate.Confirmed? {
        CountZero(MissFlags(config, r.batch, r.fate.results, who));
      }
    }
    TotalZero(history, OverBy(config, who));
  }

  lemma HiddenIsOver(config: Config, history: seq<Record>) returns (who: Address)
    requires !NoHiddenFailure(config, history)
    requires forall k | 0 <= k < |history| :: AllDecode(config, history[k].batch)
    ensures who != config.funder && Total(history, OverBy(config, who)) > 0
  {
    var k, i :| 0 <= k < |history| && history[k].fate.Confirmed? && !Readable(history[k].fate.meta)
                && 0 <= i < |history[k].batch| && i < |history[k].fate.results|
                && !(history[k].fate.results[i] || For(config, history[k].batch[i].address, config.funder));
    var r := history[k];
    who := config.decode(r.batch[i].address).value;
    assert MissFlags(config, r.batch, r.fate.results, who)[i];
    CountZero(MissFlags(config, r.batch, r.fate.results, who));
    TotalZero(history, OverBy(config, who));
  }

  ghost predicate AnswersMatchBalances(config: Config, start: Ledger, s: State) {
    forall who | who != config.funder ::
      Balance(s.ledger, who) - Balance(start, who) == config.amount * OkAnswers(config, s.accepted, s.sent, who)
  }

  // Transfers that went through in batches reported as failed.
  function PaidLate(config: Config, s: State, who: Address): nat {
    Total(s.history, LateBy(config, who))
  }

  lemma BalanceAtRest(config: Config, start: Ledger, events: seq<Event>, s: State, who: Address)
    requires Reaches(config, start, events, s) && s.phase.Idle? && who != config.funder
    ensures Balance(s.ledger, who) - Balance(start, who) + config.amount * Overclaimed(config, s, who)
            == config.amount * OkAnswers(config, s.accepted, s.sent, who) + config.amount * PaidLate(config, s, who)
  {
    Accounting(config, start, events, s, who);
    NothingOwedAtRest(config, s, who);
    Factor(config.amount, OkAnswers(config, s.accepted, s.sent, who), PaidLate(config, s, who),
           AllTold(config, s, who));
  }

  // In every idle state of every run: the answers match the balances of all accounts exactly when each account has as
  // many false "Ok" answers as late payments. The two cancel, so this says less than that every answer is true.
  lemma AnswersMatchBalancesIff(config: Config, start: Ledger, events: seq<Event>, s: State)
    requires Reaches(config, start, events, s) && s.phase.Idle?
    ensures AnswersMatchBalances(config, start, s)
       <==> || config.amount == 0
            || forall who | who != config.funder :: Overclaimed(config, s, who) == PaidLate(config, s, who)
  {
    forall who | who != config.funder
      ensures Balance(s.ledger, who) - Balance(start, who) == config.amount * OkAnswers(config, s.accepted, s.sent, who)
         <==> config.amount == 0 || Overclaimed(config, s, who) == PaidLate(config, s, who)
    {
      BalanceAtRest(config, start, events, s, who);
      SameMultiple(config.amount, Overclaimed(config, s, who), PaidLate(config, s, who));
    }
  }

  lemma SameMultiple(a: int, x: int, y: int)
    ensures a * x == a * y <==> a == 0 || x == y
  {
    if x != y && a != 0 {
      assert a * (x - y) != 0;
    }
  }

  // Where no batch reported as failed was applied, that is: no failed transfer was hidden by unreadable meta.
  lemma NothingHiddenIff(config: Config, start: Ledger, events: seq<Event>, s: State)
    requires Reaches(config, start, events, s) && s.phase.Idle? && config.amount > 0
    requires forall k | 0 <= k < |s.history| && s.history[k].fate.Failed? :: s.history[k].fate.applied.None?
    ensures AnswersMatchBalances(config, start, s) <==> NoHiddenFailure(config, s.history)
  {
    AnswersMatchBalancesIff(config, start, events, s);
    forall who ensures PaidLate(config, s, who) == 0 {
      TotalZero(s.history, LateBy(config, who));
    }
    if NoHiddenFailure(config, s.history) {
      forall who | who != config.funder ensures Overclaimed(config, s, who) == 0 {
        OverIsHidden(config, s.history, who);
      }
    } else {
      EveryBatchIsGood(config, start, events, s);
      var who := HiddenIsOver(config, s.history);
      assert Overclaimed(config, s, who) > 0;
    }
  }

  // ---------- No account gains more than was asked for ----------

  function RequestFlags(config: Config, entries: seq<PendingEntry>, who: Address): seq<bool> {
    seq(|entries|, i requires 0 <= i < |entries| => For(config, entries[i].address, who))
  }

  // Requests for `who`.
  function Requests(config: Config, entries: seq<PendingEntry>, who: Address): nat {
    Count(RequestFlags(config, entries, who))
  }

  lemma RequestsAppend(config: Config, xs: seq<PendingEntry>, ys: seq<PendingEntry>, who: Address)
    ensures Requests(config, xs + ys, who) == Requests(config, xs, who) + Requests(config, ys, who)
  {
    assert RequestFlags(config, xs + ys, who) == RequestFlags(config, xs, who) + RequestFlags(config, ys, who);
    CountAppend(RequestFlags(config, xs, who), RequestFlags(config, ys, who));
  }

  lemma TakeOut(ys: seq<PendingEntry>, y: PendingEntry) returns (j: nat)
    requires y in multiset(ys)
    ensures j < |ys| && ys[j] == y && ys == ys[..j] + [y] + ys[j + 1..]
    ensures multiset(ys) == multiset(ys[..j] + ys[j + 1..]) + multiset{y}
  {
    assert y in ys;
    j :| 0 <= j < |ys| && ys[j] == y;
    assert ys == ys[..j] + [y] + ys[j + 1..];
  }

  lemma {:induction false} FewerRequests(config: Config, xs: seq<PendingEntry>, ys: seq<PendingEntry>, who: Address)
    requires multiset(xs) <= multiset(ys)
    ensures Requests(config, xs, who) <= Requests(config, ys, who)
    decreases |xs|
  {
    if xs != [] {
      var n := |xs| - 1;
      var front, last := xs[..n], xs[n];
      assert xs == front + [last];
      assert last in multiset(ys);
      var j := TakeOut(ys, last);
      var rest := ys[..j] + ys[j + 1..];
      assert multiset(xs) == multiset(front) + multiset{last};
      forall e ensures multiset(front)[e] <= multiset(rest)[e] {
        assert multiset(xs)[e] <= multiset(ys)[e];
      }
      FewerRequests(config, front, rest, who);
      RequestsAppend(config, front, [last], who);
      RequestsAppend(config, ys[..j], ys[j + 1..], who);
      RequestsAppend(config, ys[..j] + [last], ys[j + 1..], who);
      RequestsAppend(config, ys[..j], [last], who);
    }
  }

  lemma {:induction false} WinsAreRequests(config: Config, entries: seq<PendingEntry>, results: seq<bool>, who: Address)
    requires |results| == |entries|
    ensures Wins(config, entries, results, who) <= Requests(config, entries, who)
  {
    CountSplit(RequestFlags(config, entries, who), WinFlags(config, entries, results, who),
               MissFlags(config, entries, results, who));
  }

  // At every moment of every run, whatever is late or repeated: an account has gained at most the amount for each
  // accepted request for it.
  lemma GainIsBounded(config: Config, start: Ledger, events: seq<Event>, s: State, who: Address)
    requires Reaches(config, start, events, s) && who != config.funder && config.amount >= 0
    ensures Balance(s.ledger, who) - Balance(start, who)
            <= config.amount * Requests(config, Numbered(s.accepted), who)
  {
    ReachableTokenInv(config, start, events, s);
    ReachableWins(config, start, events, s, who);
    GainIsWins(config, start, s, who);
    ChainIsAccepted(config, start, s);
    WinsAreRequests(config, s.chain, s.verdicts, who);
    FewerRequests(config, s.chain, Numbered(s.accepted), who);
    AtMostTimes(config.amount, AllPaid(config, s, who), Requests(config, Numbered(s.accepted), who));
  }

  // ---------- Both ways to be told wrong happen ----------

  lemma RefusedAlone(config: Config, start: Ledger, entry: PendingEntry)
    requires config.decode(entry.address).Some? && Balance(start, config.funder) < config.amount
    ensures Transfers(config, start, [entry]) == Contract.Outcome(start, [false])
  {
    var receivers := Receivers(config, [entry]);
    assert receivers[..0] == [];
    assert Contract.Exec(config.policy, start, config.funder, receivers[..0]) == Contract.Outcome(start, []);
  }

  lemma UnreadIsAnsweredOk(config: Config, s: State, entry: PendingEntry, hash: string, envelopeXdr: string)
    requires s.phase == Applied([entry], [false])
    ensures var s' := Run(config, s, [Confirm(hash, envelopeXdr, Some(OtherMeta)), Respond, Finish]);
            && s'.Some? && s'.value.phase.Idle? && s'.value.ledger == s.ledger
            && s'.value.sent == s.sent + [Reply(entry.responder, Success(SuccessResponse(true, hash, envelopeXdr)))]
  {
    RunThree(config, s, Confirm(hash, envelopeXdr, Some(OtherMeta)), Respond, Finish);
  }

  // And hidden failures do happen: a funder that cannot pay, and meta of another version than V3.
  lemma HiddenFailureHappens(config: Config, start: Ledger, address: string, hash: string, envelopeXdr: string)
    requires config.maxSize > 0 && Balance(start, config.funder) < config.amount && config.decode(address).Some?
    ensures var s := Run(config, Init(start), [Request(address), Drain, Apply]
                                              + [Confirm(hash, envelopeXdr, Some(OtherMeta)), Respond, Finish]);
            && s.Some? && s.value.phase.Idle? && s.value.ledger == start
            && s.value.sent == [Reply(0, Success(SuccessResponse(true, hash, envelopeXdr)))]
  {
    var entry := PendingEntry(address, 0);
    RunThree(config, Init(start), Request(address), Drain, Apply);
    RefusedAlone(config, start, entry);
    var requested := Requested(config, Init(start), address);
    assert requested == Init(start).(accepted := [address], pending := [entry]);
    var applied := Run(config, Init(start), [Request(address), Drain, Apply]);
    assert applied.Some? && applied.value.phase == Applied([entry], [false]);
    UnreadIsAnsweredOk(config, applied.value, entry, hash, envelopeXdr);
    RunAppend(config, Init(start), [Request(address), Drain, Apply],
              [Confirm(hash, envelopeXdr, Some(OtherMeta)), Respond, Finish]);
  }

  lemma PaidAlone(config: Config, start: Ledger, entry: PendingEntry)
    requires config.decode(entry.address).Some?
    requires Transfer(config.policy, start, config.funder, config.decode(entry.address).value, config.amount).Some?
    ensures var to := config.decode(entry.address).value;
            var after := Transfer(config.policy, start, config.funder, to, config.amount);
            Transfers(config, start, [entry]) == Contract.Outcome(after.value, [true])
  {
    var receivers := Receivers(config, [entry]);
    assert receivers[..0] == [];
    assert Contract.Exec(config.policy, start, config.funder, receivers[..0]) == Contract.Outcome(start, []);
  }

  lemma ErrorIsAnswered(config: Config, s: State, entry: PendingEntry, error: string)
    requires s.phase == Applied([entry], [true])
    ensures var s' := Run(config, s, [Fail(error), Respond, Finish]);
            && s'.Some? && s'.value.phase.Idle? && s'.value.ledger == s.ledger
            && s'.value.history == s.history + [Record([entry], Failed(error, Some([true])))]
            && s'.value.sent
               == s.sent + [Reply(entry.responder, Failure(Internal("Batch transfer failed: " + error)))]
  {
    RunThree(config, s, Fail(error), Respond, Finish);
  }

  // The other way round: a funder that can pay, and an error after the chain has applied the batch. The request is told
  // 500 and its tokens have moved; nothing was hidden by unreadable meta.
  lemma LateFailureHappens(config: Config, start: Ledger, address: string, error: string)
    requires config.maxSize > 0 && config.decode(address).Some?
    requires Transfer(config.policy, start, config.funder, config.decode(address).value, config.amount).Some?
    ensures var s := Run(config, Init(start), [Request(address), Drain, Apply] + [Fail(error), Respond, Finish]);
            && s.Some? && s.value.phase.Idle? && NoHiddenFailure(config, s.value.history)
            && Some(s.value.ledger)
               == Transfer(config.policy, start, config.funder, config.decode(address).value, config.amount)
            && s.value.sent == [Reply(0, Failure(Internal("Batch transfer failed: " + error)))]
  {
    var entry := PendingEntry(address, 0);
    RunThree(config, Init(start), Request(address), Drain, Apply);
    PaidAlone(config, start, entry);
    var requested := Requested(config, Init(start), address);
    assert requested == Init(start).(accepted := [address], pending := [entry]);
    var applied := Run(config, Init(start), [Request(address), Drain, Apply]);
    assert applied.Some? && applied.value.phase == Applied([entry], [true]);
    ErrorIsAnswered(config, applied.value, entry, error);
    RunAppend(config, Init(start), [Request(address), Drain, Apply], [Fail(error), Respond, Finish]);
  }

  // ---------- The batch in flight ----------

  // The queue's duplicate check makes every drained batch one of distinct receivers, so the closed form applies:
  // its first paying places go to the earliest accepting requests.
  lemma DrainedBatchIsPaidInOrder(config: Config, start: Ledger, events: seq<Event>, s: State)
    requires Reaches(config, start, events, s) && s.phase.InFlight? && config.amount > 0
    requires forall i | 0 <= i < |s.phase.batch| :: !For(config, s.phase.batch[i].address, config.funder)
    ensures AllDecode(config, s.phase.batch)
    ensures Contract.FaucetBatch(config.funder, Receivers(config, s.phase.batch), config.amount)
    ensures var receivers := Receivers(config, s.phase.batch);
            var s' := Step(config, s, Apply);
            && s'.Some? && s'.value.phase.Applied? && |s'.value.phase.results| == |receivers|
            && forall i | 0 <= i < |receivers| ::
                 s'.value.phase.results[i]
                 <==> Contract.Paid(config.policy, s.ledger, config.funder, receivers, config.amount, i)
  {
    ReachableInv(config, start, events, s);
    Contract.ClosedForm(config.policy, s.ledger, config.funder, Receivers(config, s.phase.batch), config.amount);
  }
}
