// When what the faucet tells each request is true: over every run, whatever is lost, late or unreadable.
module FaucetTruth {
  import opened Wrappers
  import opened Token
  import opened Codec
  import opened Queue
  import opened Batch
  import opened Faucet
  import opened FaucetLog
  import opened BatchOrder
  import opened BatchTransfer
  import opened Counting
  import Money = FaucetMoney
  import Accounts = FaucetAccounts

  // ---------- Whose transfer went through ----------

  // The requests whose transfers succeeded.
  function PaidRequests(entries: seq<PendingEntry>, results: seq<bool>): set<nat>
    requires |results| == |entries|
  {
    set i | 0 <= i < |entries| && results[i] :: entries[i].responder
  }

  lemma PaidAppend(xs: seq<PendingEntry>, rs: seq<bool>, ys: seq<PendingEntry>, ss: seq<bool>)
    requires |rs| == |xs| && |ss| == |ys|
    ensures PaidRequests(xs + ys, rs + ss) == PaidRequests(xs, rs) + PaidRequests(ys, ss)
  {
    forall q ensures q in PaidRequests(xs + ys, rs + ss) <==> q in PaidRequests(xs, rs) + PaidRequests(ys, ss) {
      if i :| 0 <= i < |xs| && rs[i] && xs[i].responder == q {
        assert (xs + ys)[i].responder == q && (rs + ss)[i];
      }
      if i :| 0 <= i < |ys| && ss[i] && ys[i].responder == q {
        assert (xs + ys)[|xs| + i].responder == q && (rs + ss)[|xs| + i];
      }
    }
  }

  // By the chain's own account.
  ghost predicate WentThrough(s: State, request: nat)
    requires |s.verdicts| == |s.chain|
  {
    request in PaidRequests(s.chain, s.verdicts)
  }

  // What became of a batch on the chain; nothing, as long as it is not applied.
  function ResultsOn(r: Record): (results: seq<bool>)
    requires Sized(r)
    ensures |results| == |r.batch|
  {
    match r.fate
    case Confirmed(_, _, _, results) => results
    case Failed(_, Some(results)) => results
    case Failed(_, None) => seq(|r.batch|, _ => false)
  }

  predicate Sized(r: Record) {
    match r.fate
    case Confirmed(_, _, _, results) => |results| == |r.batch|
    case Failed(_, Some(results)) => |results| == |r.batch|
    case Failed(_, None) => true
  }

  predicate AllSized(history: seq<Record>) {
    forall k | 0 <= k < |history| :: Sized(history[k])
  }

  function ChainResults(history: seq<Record>): (results: seq<bool>)
    requires AllSized(history)
    ensures |results| == |Flat(history)|
  {
    if history == [] then
      []
    else
      ChainResults(history[..|history| - 1]) + ResultsOn(history[|history| - 1])
  }

  lemma NobodyPaid(entries: seq<PendingEntry>)
    ensures PaidRequests(entries, seq(|entries|, _ => false)) == {}
  {
  }

  // The requests paid by a history.
  function PaidIn(history: seq<Record>): set<nat>
    requires AllSized(history)
  {
    if history == [] then
      {}
    else
      var last := history[|history| - 1];
      PaidIn(history[..|history| - 1]) + PaidRequests(last.batch, ResultsOn(last))
  }

  lemma {:induction false} PaidInIsFlat(history: seq<Record>)
    requires AllSized(history)
    ensures PaidIn(history) == PaidRequests(Flat(history), ChainResults(history))
  {
    if history == [] {
      assert PaidRequests([], []) == {};
    } else {
      var front, last := history[..|history| - 1], history[|history| - 1];
      PaidInIsFlat(front);
      PaidAppend(Flat(front), ChainResults(front), last.batch, ResultsOn(last));
    }
  }

  lemma PaidInSnoc(history: seq<Record>, r: Record)
    requires AllSized(history) && Sized(r)
    ensures AllSized(history + [r])
    ensures PaidIn(history + [r]) == PaidIn(history) + PaidRequests(r.batch, ResultsOn(r))
  {
    assert (history + [r])[..|history + [r]| - 1] == history;
  }

  lemma LastTwoUnions(x: set<nat>, y: set<nat>, z: set<nat>)
    ensures x + y + z == x + z + y
  {
  }

  // When the chain applies a batch that was given up, its successes are added.
  lemma {:induction false} LateResults(history: seq<Record>, k: nat, r: Record)
    requires AllSized(history) && k < |history| && Sized(r) && r.batch == history[k].batch
    requires history[k].fate.Failed? && history[k].fate.applied.None?
    ensures AllSized(history[k := r])
    ensures PaidIn(history[k := r]) == PaidIn(history) + PaidRequests(r.batch, ResultsOn(r))
  {
    var n := |history| - 1;
    if k < n {
      LateResults(history[..n], k, r);
      assert history[k := r][..n] == history[..n][k := r];
      LastTwoUnions(PaidIn(history[..n]), PaidRequests(r.batch, ResultsOn(r)),
                    PaidRequests(history[n].batch, ResultsOn(history[n])));
    } else {
      assert history[k := r][..n] == history[..n];
      NobodyPaid(history[n].batch);
    }
  }

  // ---------- The records know what the chain did ----------

  function JustPaid(phase: Phase): set<nat>
    requires phase.Applied? ==> |phase.results| == |phase.batch|
  {
    if phase.Applied? then PaidRequests(phase.batch, phase.results) else {}
  }

  ghost predicate PaidInv(s: State) {
    && |s.verdicts| == |s.chain| && AllSized(s.history)
    && (s.phase.Applied? ==> |s.phase.results| == |s.phase.batch|)
    && PaidRequests(s.chain, s.verdicts) == PaidIn(s.history) + JustPaid(s.phase)
  }

  lemma ClosingKeepsPaid(s: State, s': State, r: Record)
    requires PaidInv(s) && Sized(r) && s'.history == s.history + [r] && !s'.phase.Applied?
    requires s'.chain == s.chain && s'.verdicts == s.verdicts
    requires PaidRequests(r.batch, ResultsOn(r)) == JustPaid(s.phase)
    ensures PaidInv(s')
  {
    PaidInSnoc(s.history, r);
  }

  lemma FailKeepsPaid(config: Config, s: State, error: string)
    requires PaidInv(s) && Step(config, s, Fail(error)).Some?
    ensures PaidInv(Step(config, s, Fail(error)).value)
  {
    var s' := Step(config, s, Fail(error)).value;
    NobodyPaid(s.phase.batch);
    ClosingKeepsPaid(s, s', s'.history[|s.history|]);
  }

  lemma SettleKeepsPaid(config: Config, s: State, k: nat)
    requires PaidInv(s) && Step(config, s, Settle(k)).Some?
    ensures PaidInv(Step(config, s, Settle(k)).value)
  {
    var r := Step(config, s, Settle(k)).value.history[k];
    LateResults(s.history, k, r);
    PaidAppend(s.chain, s.verdicts, r.batch, ResultsOn(r));
  }

  lemma StepKeepsPaid(config: Config, s: State, e: Event)
    requires PaidInv(s) && Step(config, s, e).Some?
    ensures PaidInv(Step(config, s, e).value)
  {
    var s' := Step(config, s, e).value;
    match e
    case Apply => PaidAppend(s.chain, s.verdicts, s'.phase.batch, s'.phase.results);
    case Confirm(_, _, _) => ClosingKeepsPaid(s, s', s'.history[|s.history|]);
    case Fail(error) => FailKeepsPaid(config, s, error);
    case Settle(k) => SettleKeepsPaid(config, s, k);
    case Request(_) =>
    case Drain =>
    case Respond =>
    case Finish =>
  }

  lemma {:induction false} ReachablePaid(config: Config, start: Ledger, events: seq<Event>, s: State)
    requires Reaches(config, start, events, s)
    ensures PaidInv(s)
    decreases |events|
  {
    if events == [] {
      PaidInIsFlat([]);
    } else {
      var n := |events| - 1;
      var before := Run(config, Init(start), events[..n]).value;
      ReachablePaid(config, start, events[..n], before);
      StepKeepsPaid(config, before, events[n]);
    }
  }

  // ---------- True answers ----------

  ghost predicate NoneTrue(results: seq<bool>) {
    forall i | 0 <= i < |results| :: !results[i]
  }

  // A confirmed batch: the meta was readable, or there was no failure to report. A batch reported as failed: nothing
  // of it went through, because the chain has not applied it or because every transfer failed.
  ghost predicate Truthful(r: Record) {
    match r.fate
    case Confirmed(_, _, meta, results) => Readable(meta) || AllTrue(results)
    case Failed(_, Some(results)) => NoneTrue(results)
    case Failed(_, None) => true
  }

  ghost predicate ToldTruth(r: Record)
    requires Sized(r)
  {
    forall i | 0 <= i < |r.batch| ::
      AnswerOf(SubmissionOf(r), r.batch, i).Success? <==> ResultsOn(r)[i]
  }

  lemma RecordTruth(r: Record)
    requires Sized(r) && (r.fate.Confirmed? ==> Honest(r.fate.meta, r.fate.results))
    ensures ToldTruth(r) <==> Truthful(r)
  {
    match r.fate
    case Confirmed(hash, envelopeXdr, meta, results) =>
      AnswersAgreeIff(hash, envelopeXdr, meta, r.batch, results);
      var submission := Success((hash, envelopeXdr, ResultsOf(meta, |r.batch|)));
      assert SubmissionOf(r) == submission && ResultsOn(r) == results;
      forall i | 0 <= i < |r.batch|
        ensures AnswerOf(submission, r.batch, i) == AnswerOf(SubmissionOf(r), r.batch, i)
      {
      }
    case Failed(_, Some(results)) =>
      if !NoneTrue(results) {
        var i :| 0 <= i < |results| && results[i];
        assert !(AnswerOf(SubmissionOf(r), r.batch, i).Success? <==> ResultsOn(r)[i]);
      }
    case Failed(_, None) =>
  }

  lemma RepliesTruth(r: Record)
    requires Sized(r) && (r.fate.Confirmed? ==> Honest(r.fate.meta, r.fate.results))
    ensures AllAgree(Replies(SubmissionOf(r), r.batch), ResultsOn(r)) <==> Truthful(r)
  {
    RecordTruth(r);
    var replies := Replies(SubmissionOf(r), r.batch);
    assert forall i | 0 <= i < |r.batch| :: replies[i].answer == AnswerOf(SubmissionOf(r), r.batch, i);
    if AllAgree(replies, ResultsOn(r)) {
      forall i | 0 <= i < |r.batch| ensures AnswerOf(SubmissionOf(r), r.batch, i).Success? <==> ResultsOn(r)[i] {
        assert replies[i].answer.Success? <==> ResultsOn(r)[i];
      }
    }
  }

  // Over a whole history: every answer is true iff every record is truthful.
  lemma {:induction false} HistoryTruth(history: seq<Record>)
    requires AllSized(history)
    requires forall k | 0 <= k < |history| && history[k].fate.Confirmed? ::
               Honest(history[k].fate.meta, history[k].fate.results)
    ensures |AllReplies(history)| == |ChainResults(history)|
    ensures AllAgree(AllReplies(history), ChainResults(history))
       <==> forall k | 0 <= k < |history| :: Truthful(history[k])
  {
    RepliesFollowEntries(history);
    if history != [] {
      var n := |history| - 1;
      var front, last := history[..n], history[n];
      HistoryTruth(front);
      RepliesTruth(last);
      SplitTruth(AllReplies(front), ChainResults(front), Replies(SubmissionOf(last), last.batch), ResultsOn(last));
      assert (forall k | 0 <= k < |history| :: Truthful(history[k]))
        <==> Truthful(last) && forall k | 0 <= k < n :: Truthful(front[k]);
    }
  }

  ghost predicate AllAgree(replies: seq<Reply>, results: seq<bool>)
    requires |results| == |replies|
  {
    forall i | 0 <= i < |replies| :: replies[i].answer.Success? <==> results[i]
  }

  lemma SplitTruth(xs: seq<Reply>, rs: seq<bool>, ys: seq<Reply>, ss: seq<bool>)
    requires |rs| == |xs| && |ss| == |ys|
    ensures AllAgree(xs + ys, rs + ss) <==> AllAgree(xs, rs) && AllAgree(ys, ss)
  {
    if AllAgree(xs + ys, rs + ss) {
      assert forall i | 0 <= i < |xs| :: (xs + ys)[i] == xs[i] && (rs + ss)[i] == rs[i];
      assert forall i | 0 <= i < |ys| :: (xs + ys)[|xs| + i] == ys[i] && (rs + ss)[|xs| + i] == ss[i];
    }
  }

  // ---------- The exact condition ----------

  // A request is in the chain's set iff the record that holds it says so.
  lemma PaidIsResult(config: Config, s: State, i: nat)
    requires Inv(config, s) && PaidInv(s) && i < |Flat(s.history)| && s.phase.Idle?
    ensures WentThrough(s, i) <==> ChainResults(s.history)[i]
  {
    var flat := Flat(s.history);
    PaidInIsFlat(s.history);
    assert flat + [] + s.pending == Numbered(s.accepted);
    forall j | 0 <= j < |flat| ensures flat[j].responder == j {
      assert Numbered(s.accepted)[j] == flat[j];
    }
  }

  // Every request was told the truth.
  ghost predicate AnswersAreTrue(s: State)
    requires |s.verdicts| == |s.chain|
  {
    forall i | 0 <= i < |s.sent| :: s.sent[i].answer.Success? <==> WentThrough(s, i)
  }

  // In every idle state of every run, whatever was lost, applied late or unreadable: each request was told "Ok"
  // iff its transfer went through, exactly when every batch is truthful.
  lemma AnswersAreTrueIff(config: Config, start: Ledger, events: seq<Event>, s: State)
    requires Reaches(config, start, events, s) && s.phase.Idle?
    ensures |s.verdicts| == |s.chain|
    ensures AnswersAreTrue(s) <==> forall k | 0 <= k < |s.history| :: Truthful(s.history[k])
  {
    ReachableInv(config, start, events, s);
    ReachablePaid(config, start, events, s);
    ExactlyOnce(config, start, events, s);
    RepliesFollowEntries(s.history);
    HistoryTruth(s.history);
    forall i | 0 <= i < |s.sent| ensures WentThrough(s, i) <==> ChainResults(s.history)[i] {
      PaidIsResult(config, s, i);
    }
  }

  // ---------- Requests and balances ----------

  lemma {:induction false} NumberedOnce(log: seq<string>, e: PendingEntry)
    ensures multiset(Numbered(log))[e] <= 1
  {
    if log != [] {
      var n := |log| - 1;
      NumberedOnce(log[..n], e);
      NumberedSnoc(log[..n], log[n]);
      assert log[..n] + [log[n]] == log;
      assert PendingEntry(log[n], n) !in Numbered(log[..n]);
    }
  }

  // The chain's entries are accepted requests, each at most once.
  ghost predicate AcceptedOnce(accepted: seq<string>, entries: seq<PendingEntry>) {
    && (forall j | 0 <= j < |entries| ::
          entries[j].responder < |accepted| && entries[j].address == accepted[entries[j].responder])
    && (forall j, k | 0 <= j < k < |entries| :: entries[j].responder != entries[k].responder)
  }

  lemma IncludedOnce(accepted: seq<string>, entries: seq<PendingEntry>)
    requires multiset(entries) <= multiset(Numbered(accepted))
    ensures AcceptedOnce(accepted, entries)
  {
    forall j | 0 <= j < |entries|
      ensures entries[j].responder < |accepted| && entries[j].address == accepted[entries[j].responder]
    {
      assert entries[j] in multiset(entries);
      assert entries[j] in Numbered(accepted);
    }
    forall j, k | 0 <= j < k < |entries| ensures entries[j].responder != entries[k].responder {
      if entries[j] == entries[k] {
        assert entries == entries[..k] + entries[k..];
        assert entries[j] in entries[..k] && entries[k] in entries[k..];
        NumberedOnce(accepted, entries[j]);
      }
    }
  }

  // The requests for `who` among the paid ones.
  ghost function PaidFor(config: Config, accepted: seq<string>, paid: set<nat>, who: Address): set<nat> {
    set i | 0 <= i < |accepted| && i in paid && config.decode(accepted[i]) == Some(who)
  }

  lemma OneMorePaid(config: Config, accepted: seq<string>, entries: seq<PendingEntry>, results: seq<bool>,
                    entry: PendingEntry, result: bool, who: Address)
    requires AcceptedOnce(accepted, entries + [entry]) && |results| == |entries|
    ensures |PaidFor(config, accepted, PaidRequests(entries + [entry], results + [result]), who)|
            == |PaidFor(config, accepted, PaidRequests(entries, results), who)|
               + if result && config.decode(entry.address) == Some(who) then 1 else 0
  {
    PaidAppend(entries, results, [entry], [result]);
    OnePaid(entry, result);
    assert (entries + [entry])[|entries|] == entry;
    var before := PaidFor(config, accepted, PaidRequests(entries, results), who);
    var after := PaidFor(config, accepted, PaidRequests(entries + [entry], results + [result]), who);
    assert entry.responder !in PaidRequests(entries, results) by {
      assert forall j | 0 <= j < |entries| :: (entries + [entry])[j] == entries[j];
    }
    if result && config.decode(entry.address) == Some(who) {
      assert after == before + {entry.responder};
    } else {
      assert after == before;
    }
  }

  lemma OnePaid(entry: PendingEntry, result: bool)
    ensures PaidRequests([entry], [result]) == if result then {entry.responder} else {}
  {
    if result {
      assert [result][0] && [entry][0].responder == entry.responder;
      assert entry.responder in PaidRequests([entry], [result]);
    }
  }

  lemma OneMoreWin(config: Config, entries: seq<PendingEntry>, results: seq<bool>,
                   entry: PendingEntry, result: bool, who: Address)
    requires |results| == |entries|
    ensures Accounts.Wins(config, entries + [entry], results + [result], who)
            == Accounts.Wins(config, entries, results, who)
               + if result && config.decode(entry.address) == Some(who) then 1 else 0
  {
    Accounts.WinsAppend(config, entries, results, [entry], [result], who);
    var win := result && config.decode(entry.address) == Some(who);
    assert Accounts.WinFlags(config, [entry], [result], who) == [win];
    CountOne(win);
  }

  lemma {:induction false} WinsAreRequests(config: Config, accepted: seq<string>, entries: seq<PendingEntry>,
                                           results: seq<bool>, who: Address)
    requires AcceptedOnce(accepted, entries) && |results| == |entries|
    ensures Accounts.Wins(config, entries, results, who)
            == |PaidFor(config, accepted, PaidRequests(entries, results), who)|
  {
    if entries == [] {
      assert PaidFor(config, accepted, PaidRequests(entries, results), who) == {};
    } else {
      var n := |entries| - 1;
      WinsAreRequests(config, accepted, entries[..n], results[..n], who);
      assert entries == entries[..n] + [entries[n]] && results == results[..n] + [results[n]];
      OneMorePaid(config, accepted, entries[..n], results[..n], entries[n], results[n], who);
      OneMoreWin(config, entries[..n], results[..n], entries[n], results[n], who);
    }
  }

  // In every reachable state, whatever was lost, late or unreadable: an account's gain is the amount for each accepted
  // request for it whose transfer went through.
  lemma GainIsPaidRequests(config: Config, start: Ledger, events: seq<Event>, s: State, who: Address)
    requires Reaches(config, start, events, s) && who != config.funder
    ensures |s.verdicts| == |s.chain|
    ensures Balance(s.ledger, who) - Balance(start, who)
            == config.amount * |set i | 0 <= i < |s.accepted| && WentThrough(s, i)
                                        && config.decode(s.accepted[i]) == Some(who)|
  {
    Money.ReachableTokenInv(config, start, events, s);
    Money.ChainIsAccepted(config, start, s);
    IncludedOnce(s.accepted, s.chain);
    Accounts.ReachableWins(config, start, events, s, who);
    Accounts.GainIsWins(config, start, s, who);
    WinsAreRequests(config, s.accepted, s.chain, s.verdicts, who);
    assert (set i | 0 <= i < |s.accepted| && WentThrough(s, i) && config.decode(s.accepted[i]) == Some(who))
        == PaidFor(config, s.accepted, PaidRequests(s.chain, s.verdicts), who);
  }

  // ---------- Unreadable meta, before it is sent ----------

  lemma UnreadableRecord(config: Config, ledger: Ledger, r: Record)
    requires AllDecode(config, r.batch) && r.batch != []
    requires r.fate.Confirmed? && !Readable(r.fate.meta) && r.fate.results == Transfers(config, ledger, r.batch).results
    requires FaucetBatch(config.funder, Receivers(config, r.batch), config.amount)
    ensures ToldTruth(r)
       <==> EnoughForAll(config.policy, ledger, config.funder, Receivers(config, r.batch), config.amount)
  {
    RecordTruth(r);
    AllPaidIff(config.policy, ledger, config.funder, Receivers(config, r.batch), config.amount);
  }

  // A drained batch that is confirmed with meta which cannot be read is answered truthfully exactly when, in the ledger
  // that it is applied to, every address accepts the amount and the funder has it for all of them.
  lemma UnreadableIsTrueIff(config: Config, start: Ledger, events: seq<Event>, s: State,
                            hash: string, envelopeXdr: string, meta: Option<Meta>)
    requires Reaches(config, start, events, s) && s.phase.InFlight? && config.amount > 0 && !Readable(meta)
    requires forall i | 0 <= i < |s.phase.batch| :: config.decode(s.phase.batch[i].address) != Some(config.funder)
    ensures AllDecode(config, s.phase.batch) && Step(config, s, Apply).Some?
    ensures var closed := Step(config, Step(config, s, Apply).value, Confirm(hash, envelopeXdr, meta));
            && closed.Some? && closed.value.history != []
            && var r := closed.value.history[|closed.value.history| - 1];
            && r.batch == s.phase.batch && Sized(r)
            && (ToldTruth(r)
                <==> EnoughForAll(config.policy, s.ledger, config.funder,
                                  Receivers(config, s.phase.batch), config.amount))
  {
    ReachableInv(config, start, events, s);
    var results := Transfers(config, s.ledger, s.phase.batch).results;
    UnreadableRecord(config, s.ledger, Record(s.phase.batch, Confirmed(hash, envelopeXdr, meta, results)));
  }
}
