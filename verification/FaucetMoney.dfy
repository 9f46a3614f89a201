// What every run of the faucet keeps about tokens: answers against balances, and batches against one at a time.
module FaucetMoney {
  import opened Token
  import opened Codec
  import opened Queue
  import opened Batch
  import opened Faucet
  import opened FaucetLog
  import Contract = BatchTransfer

  // ---------- The chain's own order ----------

  // The ledger and all verdicts are those of one contract run over everything the chain has processed.
  ghost predicate ChainInv(config: Config, start: Ledger, s: State) {
    && AllDecode(config, s.chain)
    && Transfers(config, start, s.chain) == Contract.Outcome(s.ledger, s.verdicts)
  }

  lemma TransfersAppend(config: Config, start: Ledger, xs: seq<PendingEntry>, ys: seq<PendingEntry>)
    requires AllDecode(config, xs) && AllDecode(config, ys)
    ensures AllDecode(config, xs + ys)
    ensures var first := Transfers(config, start, xs);
            var second := Transfers(config, first.ledger, ys);
            Transfers(config, start, xs + ys)
            == Contract.Outcome(second.ledger, first.results + second.results)
  {
    assert Receivers(config, xs + ys) == Receivers(config, xs) + Receivers(config, ys);
    Contract.ExecAppend(config.policy, start, config.funder, Receivers(config, xs), Receivers(config, ys));
  }

  lemma StepKeepsChain(config: Config, start: Ledger, s: State, e: Event)
    requires ChainInv(config, start, s) && Step(config, s, e).Some?
    ensures ChainInv(config, start, Step(config, s, e).value)
  {
    match e
    case Apply => TransfersAppend(config, start, s.chain, s.phase.batch);
    case Settle(k) => TransfersAppend(config, start, s.chain, s.history[k].batch);
    case _ =>
  }

  // ---------- Serving one request at a time ----------

  // The simple faucet: one contract call for each request, in order.
  function OneAtATime(config: Config, start: Ledger, addresses: seq<string>): (o: Contract.Outcome)
    requires forall i | 0 <= i < |addresses| :: config.decode(addresses[i]).Some?
    ensures |o.results| == |addresses|
  {
    if addresses == [] then
      Contract.Outcome(start, [])
    else
      var n := |addresses| - 1;
      var before := OneAtATime(config, start, addresses[..n]);
      var single := Transfers(config, before.ledger, [PendingEntry(addresses[n], n)]);
      Contract.Outcome(single.ledger, before.results + single.results)
  }

  lemma SingleTransfer(config: Config, start: Ledger, x: PendingEntry, y: PendingEntry)
    requires x.address == y.address && config.decode(x.address).Some?
    ensures Transfers(config, start, [x]) == Transfers(config, start, [y])
  {
    assert Receivers(config, [x]) == Receivers(config, [y]);
  }

  lemma {:induction false} BatchIsOneAtATime(config: Config, start: Ledger, entries: seq<PendingEntry>)
    requires AllDecode(config, entries)
    ensures OneAtATime(config, start, Addresses(entries)) == Transfers(config, start, entries)
  {
    if entries == [] {
      assert Receivers(config, entries) == [];
    } else {
      var n := |entries| - 1;
      BatchIsOneAtATime(config, start, entries[..n]);
      assert Addresses(entries)[..n] == Addresses(entries[..n]);
      var last := [entries[n]];
      TransfersAppend(config, start, entries[..n], last);
      assert entries[..n] + last == entries;
      SingleTransfer(config, Transfers(config, start, entries[..n]).ledger,
                     PendingEntry(entries[n].address, n), entries[n]);
    }
  }

  // ---------- Runs in which every batch is confirmed ----------

  ghost predicate AllConfirmed(history: seq<Record>) {
    forall k | 0 <= k < |history| :: history[k].fate.Confirmed?
  }

  ghost predicate AllReadable(history: seq<Record>) {
    forall k | 0 <= k < |history| && history[k].fate.Confirmed? :: Readable(history[k].fate.meta)
  }

  function Results(history: seq<Record>): seq<bool>
    requires AllConfirmed(history)
  {
    if history == [] then
      []
    else
      Results(history[..|history| - 1]) + history[|history| - 1].fate.results
  }

  // Then the chain's order is the faucet's.
  ghost predicate OrderInv(s: State) {
    AllConfirmed(s.history) ==>
      && s.chain == Flat(s.history) + (if s.phase.Applied? then s.phase.batch else [])
      && s.verdicts == Results(s.history) + (if s.phase.Applied? then s.phase.results else [])
  }

  lemma ResultsSnoc(history: seq<Record>, r: Record)
    requires AllConfirmed(history) && r.fate.Confirmed?
    ensures Results(history + [r]) == Results(history) + r.fate.results
  {
    assert (history + [r])[..|history + [r]| - 1] == history;
  }

  lemma ConfirmKeepsOrder(s: State, s': State, r: Record)
    requires OrderInv(s) && r.fate.Confirmed? && s.phase == Applied(r.batch, r.fate.results)
    requires s'.history == s.history + [r] && !s'.phase.Applied?
    requires s'.chain == s.chain && s'.verdicts == s.verdicts
    ensures OrderInv(s')
  {
    FlatSnoc(s.history, r);
    if AllConfirmed(s'.history) {
      assert forall k | 0 <= k < |s.history| :: s.history[k] == s'.history[k];
      ResultsSnoc(s.history, r);
    }
  }

  lemma StepKeepsOrder(config: Config, s: State, e: Event)
    requires OrderInv(s) && Step(config, s, e).Some?
    ensures OrderInv(Step(config, s, e).value)
  {
    var s' := Step(config, s, e).value;
    match e
    case Confirm(_, _, _) => ConfirmKeepsOrder(s, s', s'.history[|s.history|]);
    case Fail(_) => assert !AllConfirmed(s'.history) by { assert s'.history[|s.history|].fate.Failed?; }
    case Settle(k) => assert !AllConfirmed(s'.history) by { assert s'.history[k].fate.Failed?; }
    case Request(_) =>
    case Drain =>
    case Apply =>
    case Respond =>
    case Finish =>
  }

  // ---------- Nothing is processed twice ----------

  // The entries of the batches that were given up and that the chain has not applied.
  function GivenUp(history: seq<Record>): seq<PendingEntry> {
    if history == [] then
      []
    else
      var last := history[|history| - 1];
      GivenUp(history[..|history| - 1])
      + if last.fate.Failed? && last.fate.applied.None? then last.batch else []
  }

  // The batch that the chain has applied but the faucet has not recorded.
  function JustApplied(phase: Phase): seq<PendingEntry> {
    if phase.Applied? then phase.batch else []
  }

  // What the chain has processed and what it was given in vain are the recorded batches and the one just applied.
  ghost predicate OnceInv(s: State) {
    multiset(s.chain) + multiset(GivenUp(s.history))
    == multiset(Flat(s.history)) + multiset(JustApplied(s.phase))
  }

  lemma GivenUpSnoc(history: seq<Record>, r: Record)
    ensures GivenUp(history + [r])
            == GivenUp(history) + if r.fate.Failed? && r.fate.applied.None? then r.batch else []
  {
    assert (history + [r])[..|history + [r]| - 1] == history;
  }

  lemma {:induction false} GivenUpUpdate(history: seq<Record>, k: nat, r: Record)
    requires k < |history| && history[k].fate.Failed? && history[k].fate.applied.None?
    requires r.fate.Failed? && r.fate.applied.Some?
    ensures multiset(GivenUp(history)) == multiset(GivenUp(history[k := r])) + multiset(history[k].batch)
  {
    var n := |history| - 1;
    if k < n {
      GivenUpUpdate(history[..n], k, r);
      assert history[k := r][..n] == history[..n][k := r];
    } else {
      assert history[k := r][..n] == history[..n];
    }
  }

  lemma ClosingKeepsOnce(s: State, s': State, r: Record)
    requires OnceInv(s) && s'.history == s.history + [r] && s'.chain == s.chain && !s'.phase.Applied?
    requires if s.phase.Applied? then r.batch == s.phase.batch && (r.fate.Confirmed? || r.fate.applied.Some?)
             else r.fate.Failed? && r.fate.applied.None?
    ensures OnceInv(s')
  {
    FlatSnoc(s.history, r);
    GivenUpSnoc(s.history, r);
    var chain, flat, batch := multiset(s.chain), multiset(Flat(s.history)), multiset(r.batch);
    assert multiset(Flat(s.history) + r.batch) == flat + batch;
    if s.phase.Applied? {
      assert GivenUp(s'.history) == GivenUp(s.history);
    } else {
      assert GivenUp(s'.history) == GivenUp(s.history) + r.batch;
      assert chain + (multiset(GivenUp(s.history)) + batch) == chain + multiset(GivenUp(s.history)) + batch;
    }
    assert multiset(JustApplied(s'.phase)) == multiset{};
  }

  lemma ApplyKeepsOnce(s: State, s': State)
    requires OnceInv(s) && !s.phase.Applied? && s'.phase.Applied? && s'.history == s.history
    requires s'.chain == s.chain + s'.phase.batch
    ensures OnceInv(s')
  {
    var chain, givenUp, batch := multiset(s.chain), multiset(GivenUp(s.history)), multiset(s'.phase.batch);
    assert multiset(s.chain + s'.phase.batch) == chain + batch;
    assert chain + batch + givenUp == chain + givenUp + batch;
  }

  lemma SettleKeepsOnce(config: Config, s: State, k: nat)
    requires OnceInv(s) && Step(config, s, Settle(k)).Some?
    ensures OnceInv(Step(config, s, Settle(k)).value)
  {
    var r := Step(config, s, Settle(k)).value.history[k];
    FlatUpdate(s.history, k, r);
    GivenUpUpdate(s.history, k, r);
    assert multiset(s.chain + r.batch) == multiset(s.chain) + multiset(r.batch);
  }

  lemma StepKeepsOnce(config: Config, s: State, e: Event)
    requires OnceInv(s) && Step(config, s, e).Some?
    ensures OnceInv(Step(config, s, e).value)
  {
    var s' := Step(config, s, e).value;
    match e
    case Confirm(_, _, _) => ClosingKeepsOnce(s, s', s'.history[|s.history|]);
    case Fail(_) => ClosingKeepsOnce(s, s', s'.history[|s.history|]);
    case Settle(k) => SettleKeepsOnce(config, s, k);
    case Apply => ApplyKeepsOnce(s, s');
    case Request(_) =>
    case Drain =>
    case Respond =>
    case Finish =>
  }

  // ---------- The invariant ----------

  ghost predicate TokenInv(config: Config, start: Ledger, s: State) {
    Inv(config, s) && ChainInv(config, start, s) && OrderInv(s) && OnceInv(s)
  }

  lemma {:induction false} ReachableTokenInv(config: Config, start: Ledger, events: seq<Event>, s: State)
    requires Reaches(config, start, events, s)
    ensures TokenInv(config, start, s)
    decreases |events|
  {
    ReachableInv(config, start, events, s);
    if events == [] {
      assert Receivers(config, s.chain) == [];
    } else {
      var n := |events| - 1;
      var before := Run(config, Init(start), events[..n]).value;
      ReachableTokenInv(config, start, events[..n], before);
      StepKeepsChain(config, start, before, events[n]);
      StepKeepsOrder(config, before, events[n]);
      StepKeepsOnce(config, before, events[n]);
    }
  }

  lemma ChainIsAccepted(config: Config, start: Ledger, s: State)
    requires TokenInv(config, start, s)
    ensures multiset(s.chain) <= multiset(Numbered(s.accepted))
  {
    var flat, drained := Flat(s.history), Unrecorded(s.phase);
    assert multiset(flat + drained + s.pending) == multiset(flat) + multiset(drained) + multiset(s.pending);
    Included(multiset(s.chain), multiset(GivenUp(s.history)), multiset(flat),
             multiset(JustApplied(s.phase)), multiset(drained), multiset(s.pending));
  }

  lemma Included(chain: multiset<PendingEntry>, givenUp: multiset<PendingEntry>, flat: multiset<PendingEntry>,
                 applied: multiset<PendingEntry>, drained: multiset<PendingEntry>, pending: multiset<PendingEntry>)
    requires chain + givenUp == flat + applied && applied <= drained
    ensures chain <= flat + drained + pending
  {
    forall e ensures chain[e] <= (flat + drained + pending)[e] {
      assert chain[e] + givenUp[e] == (chain + givenUp)[e] == flat[e] + applied[e];
    }
  }

  // Whatever fails, times out or is applied late: the ledger is that of serving the requests which the chain
  // processed one at a time, in the chain's order; and these are accepted requests, none of them processed twice.
  lemma SerialEquivalence(config: Config, start: Ledger, events: seq<Event>, s: State)
    requires Reaches(config, start, events, s)
    ensures AllDecode(config, s.chain)
    ensures OneAtATime(config, start, Addresses(s.chain)) == Contract.Outcome(s.ledger, s.verdicts)
    ensures multiset(s.chain) <= multiset(Numbered(s.accepted))
  {
    ReachableTokenInv(config, start, events, s);
    ChainIsAccepted(config, start, s);
    BatchIsOneAtATime(config, start, s.chain);
  }

  // No run makes or destroys tokens or overdraws an account, and the funder pays exactly for the transfers to others
  // that went through.
  lemma TokensAreConserved(config: Config, start: Ledger, events: seq<Event>, s: State)
    requires Reaches(config, start, events, s)
    ensures Supply(s.ledger) == Supply(start)
    ensures NonNegative(start) ==> NonNegative(s.ledger)
    ensures AllDecode(config, s.chain) && |s.verdicts| == |s.chain|
    ensures Balance(start, config.funder) - Balance(s.ledger, config.funder)
            == Contract.Spent(Receivers(config, s.chain), s.verdicts, config.funder)
  {
    ReachableTokenInv(config, start, events, s);
    Contract.Conservation(config.policy, start, config.funder, Receivers(config, s.chain));
  }

  // No run leaves an account above where it started, other than an authorised one that stays within its limit.
  lemma LimitsHoldOverRuns(config: Config, start: Ledger, events: seq<Event>, s: State, who: Address)
    requires Reaches(config, start, events, s)
    ensures || Balance(s.ledger, who) <= Balance(start, who)
            || (config.policy.authorized(who) && Balance(s.ledger, who) <= config.policy.limit(who))
  {
    ReachableTokenInv(config, start, events, s);
    Contract.LimitsHold(config.policy, start, config.funder, Receivers(config, s.chain));
  }

  // ---------- Batching refines one at a time ----------

  // How many accepted requests the chain has processed when every batch was confirmed.
  lemma ChainIsPrefix(config: Config, start: Ledger, s: State)
    requires TokenInv(config, start, s) && AllConfirmed(s.history)
    ensures |s.chain| <= |s.accepted| && s.chain == Numbered(s.accepted)[..|s.chain|]
    ensures Addresses(s.chain) == s.accepted[..|s.chain|]
    ensures forall i | 0 <= i < |s.chain| :: config.decode(s.accepted[i]).Some?
  {
    var rest := BehindTheChain(s);
    NumberedPrefix(s.accepted, s.chain, rest);
    DecodedAddresses(config, s.chain, s.accepted);
  }

  lemma BehindTheChain(s: State) returns (rest: seq<PendingEntry>)
    requires LogInv(s) && OrderInv(s) && AllConfirmed(s.history)
    ensures s.chain + rest == Numbered(s.accepted)
  {
    var flat, drained := Flat(s.history), Unrecorded(s.phase);
    if s.phase.Applied? {
      rest := s.pending;
    } else {
      rest := drained + s.pending;
      assert flat + drained + s.pending == flat + rest;
      assert flat + [] == flat;
    }
  }

  lemma DecodedAddresses(config: Config, xs: seq<PendingEntry>, log: seq<string>)
    requires AllDecode(config, xs) && |xs| <= |log|
    requires forall i | 0 <= i < |xs| :: xs[i].address == log[i]
    ensures forall i | 0 <= i < |xs| :: config.decode(log[i]).Some?
  {
    forall i | 0 <= i < |xs| ensures config.decode(log[i]).Some? {
      assert xs[i].address == log[i];
    }
  }

  lemma NumberedPrefix(log: seq<string>, xs: seq<PendingEntry>, ys: seq<PendingEntry>)
    requires xs + ys == Numbered(log)
    ensures |xs| <= |log| && xs == Numbered(log)[..|xs|] && Addresses(xs) == log[..|xs|]
    ensures forall i | 0 <= i < |xs| :: xs[i].address == log[i]
  {
    forall i | 0 <= i < |xs| ensures xs[i] == PendingEntry(log[i], i) {
      assert Numbered(log)[i] == (xs + ys)[i];
    }
  }

  lemma {:induction false} RepliesCarryResults(config: Config, history: seq<Record>)
    requires AllConfirmed(history) && AllReadable(history)
    requires forall k | 0 <= k < |history| ::
               |history[k].fate.results| == |history[k].batch| && Honest(history[k].fate.meta, history[k].fate.results)
    ensures |Results(history)| == |AllReplies(history)|
    ensures forall i | 0 <= i < |AllReplies(history)| :: AllReplies(history)[i].answer.Success? <==> Results(history)[i]
  {
    if history != [] {
      var n := |history| - 1;
      var last := history[n];
      RepliesCarryResults(config, history[..n]);
      AnswersAgreeIff(last.fate.hash, last.fate.envelopeXdr, last.fate.meta, last.batch, last.fate.results);
    }
  }

  lemma AnswersAreVerdicts(config: Config, start: Ledger, s: State)
    requires TokenInv(config, start, s) && AllConfirmed(s.history) && AllReadable(s.history)
    ensures |s.sent| <= |s.chain| == |s.verdicts|
    ensures forall i | 0 <= i < |s.sent| :: s.sent[i].answer.Success? <==> s.verdicts[i]
    ensures s.phase.Idle? && s.pending == [] ==> |s.sent| == |s.chain| == |s.accepted|
  {
    RepliesCarryResults(config, s.history);
    RepliesFollowEntries(s.history);
    forall i | 0 <= i < |s.sent| ensures s.sent[i].answer.Success? <==> s.verdicts[i] {
      assert s.sent[i] == AllReplies(s.history)[i];
    }
  }

  // With every batch confirmed and readable, the ledger and every answer are those of the simple faucet,
  // wherever the drains cut the accepted requests.
  lemma BatchingRefinesOneAtATime(config: Config, start: Ledger, events: seq<Event>, s: State)
    requires Reaches(config, start, events, s)
    requires AllConfirmed(s.history) && AllReadable(s.history)
    ensures |s.sent| <= |s.chain| <= |s.accepted|
    ensures forall i | 0 <= i < |s.chain| :: config.decode(s.accepted[i]).Some?
    ensures OneAtATime(config, start, s.accepted[..|s.chain|]).ledger == s.ledger
    ensures forall i | 0 <= i < |s.sent| ::
              s.sent[i].answer.Success? <==> OneAtATime(config, start, s.accepted[..|s.chain|]).results[i]
    ensures s.phase.Idle? && s.pending == [] ==> |s.sent| == |s.chain| == |s.accepted|
  {
    ReachableTokenInv(config, start, events, s);
    SerialEquivalence(config, start, events, s);
    ChainIsPrefix(config, start, s);
    AnswersAreVerdicts(config, start, s);
  }

  // So two runs that accepted the same requests and came to rest agree on every balance and every outcome.
  lemma CutsDoNotMatter(config: Config, start: Ledger, xs: seq<Event>, s: State, ys: seq<Event>, t: State)
    requires Reaches(config, start, xs, s) && AllConfirmed(s.history) && AllReadable(s.history)
    requires Reaches(config, start, ys, t) && AllConfirmed(t.history) && AllReadable(t.history)
    requires s.phase.Idle? && s.pending == [] && t.phase.Idle? && t.pending == []
    requires s.accepted == t.accepted
    ensures s.ledger == t.ledger && |s.sent| == |t.sent|
    ensures forall i | 0 <= i < |s.sent| :: s.sent[i].answer.Success? == t.sent[i].answer.Success?
  {
    BatchingRefinesOneAtATime(config, start, xs, s);
    BatchingRefinesOneAtATime(config, start, ys, t);
  }
}
