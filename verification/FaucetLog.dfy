// What every run of the faucet keeps about requests, batches and answers.
module FaucetLog {
  import opened Wrappers
  import opened Token
  import opened Codec
  import opened Queue
  import opened Batch
  import opened Faucet

  ghost predicate GoodBatch(config: Config, batch: seq<PendingEntry>) {
    0 < |batch| && Bounded(batch, config.maxSize) && AllDecode(config, batch)
  }

  // Sizes, distinctness and addresses that decode, for the queue and for every batch.
  ghost predicate BoundsInv(config: Config, s: State) {
    && Bounded(s.pending, config.maxSize) && AllDecode(config, s.pending)
    && (s.phase.Idle? || GoodBatch(config, s.phase.batch))
    && (s.phase.Applied? ==> |s.phase.results| == |s.phase.batch|)
    && (forall k | 0 <= k < |s.history| :: GoodBatch(config, s.history[k].batch))
    && (forall k | 0 <= k < |s.history| && s.history[k].fate.Confirmed? ::
          && |s.history[k].fate.results| == |s.history[k].batch|
          && Honest(s.history[k].fate.meta, s.history[k].fate.results))
    && (forall k | 0 <= k < |s.history| && s.history[k].fate.Failed? && s.history[k].fate.applied.Some? ::
          |s.history[k].fate.applied.value| == |s.history[k].batch|)
  }

  // Nothing accepted is lost, duplicated or reordered.
  ghost predicate LogInv(s: State) {
    Flat(s.history) + Unrecorded(s.phase) + s.pending == Numbered(s.accepted)
  }

  // What was sent, and what is still owed, is exactly what the recorded batches call for.
  ghost predicate ReplyInv(s: State) {
    && (s.phase.Answering? ==>
          && s.phase.next <= |s.phase.batch|
          && s.history != []
          && s.history[|s.history| - 1].batch == s.phase.batch
          && SubmissionOf(s.history[|s.history| - 1]) == s.phase.submission)
    && s.sent + Owed(s.phase) == AllReplies(s.history)
  }

  ghost predicate Inv(config: Config, s: State) {
    BoundsInv(config, s) && LogInv(s) && ReplyInv(s)
  }

  lemma FlatSnoc(history: seq<Record>, r: Record)
    ensures Flat(history + [r]) == Flat(history) + r.batch
    ensures AllReplies(history + [r]) == AllReplies(history) + Replies(SubmissionOf(r), r.batch)
  {
    assert (history + [r])[..|history + [r]| - 1] == history;
  }

  // Replacing a record by one with the same batch and submission changes neither the entries nor the replies.
  lemma {:induction false} FlatUpdate(history: seq<Record>, k: nat, r: Record)
    requires k < |history| && r.batch == history[k].batch && SubmissionOf(r) == SubmissionOf(history[k])
    ensures Flat(history[k := r]) == Flat(history)
    ensures AllReplies(history[k := r]) == AllReplies(history)
  {
    var n := |history| - 1;
    if k < n {
      FlatUpdate(history[..n], k, r);
      assert history[k := r][..n] == history[..n][k := r];
    } else {
      assert history[k := r][..n] == history[..n];
    }
  }

  lemma NumberedSnoc(log: seq<string>, address: string)
    ensures Numbered(log + [address]) == Numbered(log) + [PendingEntry(address, |log|)]
  {
  }

  lemma StepKeepsBounds(config: Config, s: State, e: Event)
    requires BoundsInv(config, s) && Step(config, s, e).Some?
    ensures BoundsInv(config, Step(config, s, e).value)
  {
  }

  lemma RequestKeepsLog(config: Config, s: State, address: string)
    requires LogInv(s)
    ensures LogInv(Requested(config, s, address))
  {
    var s' := Requested(config, s, address);
    if s' != s {
      var entry := PendingEntry(address, |s.accepted|);
      NumberedSnoc(s.accepted, address);
      assert s'.pending == s.pending + [entry];
      var served := Flat(s.history) + Unrecorded(s.phase);
      assert served + (s.pending + [entry]) == served + s.pending + [entry];
    }
  }

  lemma DrainKeepsLog(config: Config, s: State)
    requires LogInv(s) && s.phase.Idle?
    ensures LogInv(Step(config, s, Drain).value)
  {
    var served := Flat(s.history);
    assert served + [] + s.pending == served + s.pending + [];
  }

  lemma ClosingKeepsLog(s: State, batch: seq<PendingEntry>, fate: Fate)
    requires LogInv(s) && Unrecorded(s.phase) == batch
    ensures LogInv(Closed(s, batch, fate))
  {
    FlatSnoc(s.history, Record(batch, fate));
    var served := Flat(s.history);
    assert served + batch + [] + s.pending == served + batch + s.pending;
  }

  lemma StepKeepsLog(config: Config, s: State, e: Event)
    requires LogInv(s) && Step(config, s, e).Some?
    ensures LogInv(Step(config, s, e).value)
  {
    match e
    case Request(address) => RequestKeepsLog(config, s, address);
    case Drain => DrainKeepsLog(config, s);
    case Confirm(hash, envelopeXdr, meta) =>
      ClosingKeepsLog(s, s.phase.batch, Confirmed(hash, envelopeXdr, meta, s.phase.results));
    case Fail(error) =>
      ClosingKeepsLog(s, s.phase.batch, Failed(error, if s.phase.Applied? then Some(s.phase.results) else None));
    case Settle(k) => FlatUpdate(s.history, k, Step(config, s, e).value.history[k]);
    case Apply =>
    case Respond =>
    case Finish =>
  }

  lemma ClosingOwesReplies(s: State, s': State)
    requires ReplyInv(s) && !s.phase.Answering?
    requires s'.phase.Answering? && s'.phase.next == 0 && s'.sent == s.sent
    requires s'.history != [] && s'.history == s.history + [s'.history[|s'.history| - 1]]
    requires var r := s'.history[|s'.history| - 1]; s'.phase == Answering(r.batch, SubmissionOf(r), 0)
    ensures ReplyInv(s')
  {
    FlatSnoc(s.history, s'.history[|s'.history| - 1]);
    assert Replies(s'.phase.submission, s'.phase.batch)[0..] == Replies(s'.phase.submission, s'.phase.batch);
    assert s.sent + [] == s.sent;
  }

  lemma RespondKeepsReplies(config: Config, s: State)
    requires ReplyInv(s) && s.phase.Answering? && s.phase.next < |s.phase.batch|
    ensures ReplyInv(Step(config, s, Respond).value)
  {
    MoveFirst(s.sent, Replies(s.phase.submission, s.phase.batch), s.phase.next);
  }

  lemma MoveFirst(sent: seq<Reply>, replies: seq<Reply>, next: nat)
    requires next < |replies|
    ensures sent + replies[next..] == sent + [replies[next]] + replies[next + 1..]
  {
  }

  lemma FinishKeepsReplies(config: Config, s: State)
    requires ReplyInv(s) && s.phase.Answering? && s.phase.next == |s.phase.batch|
    ensures ReplyInv(Step(config, s, Finish).value)
  {
    assert Replies(s.phase.submission, s.phase.batch)[s.phase.next..] == [];
  }

  lemma SettleKeepsReplies(s: State, s': State, k: nat, r: Record)
    requires ReplyInv(s) && k < |s.history|
    requires r.batch == s.history[k].batch && SubmissionOf(r) == SubmissionOf(s.history[k])
    requires s'.history == s.history[k := r] && s'.phase == s.phase && s'.sent == s.sent
    ensures ReplyInv(s')
  {
    FlatUpdate(s.history, k, r);
  }

  lemma StepKeepsReplies(config: Config, s: State, e: Event)
    requires ReplyInv(s) && Step(config, s, e).Some?
    ensures ReplyInv(Step(config, s, e).value)
  {
    match e
    case Confirm(_, _, _) => ClosingOwesReplies(s, Step(config, s, e).value);
    case Fail(_) => ClosingOwesReplies(s, Step(config, s, e).value);
    case Settle(k) => SettleKeepsReplies(s, Step(config, s, e).value, k, Step(config, s, e).value.history[k]);
    case Respond => RespondKeepsReplies(config, s);
    case Finish => FinishKeepsReplies(config, s);
    case Request(_) =>
    case Drain =>
    case Apply =>
  }

  lemma {:induction false} ReachableInv(config: Config, ledger: Ledger, events: seq<Event>, s: State)
    requires Reaches(config, ledger, events, s)
    ensures Inv(config, s)
    decreases |events|
  {
    if events != [] {
      var n := |events| - 1;
      var before := Run(config, Init(ledger), events[..n]).value;
      ReachableInv(config, ledger, events[..n], before);
      StepKeepsBounds(config, before, events[n]);
      StepKeepsLog(config, before, events[n]);
      StepKeepsReplies(config, before, events[n]);
    } else {
      assert Numbered([]) == [];
    }
  }

  // ---------- Requests and answers ----------

  lemma {:induction false} RepliesFollowEntries(history: seq<Record>)
    ensures |AllReplies(history)| == |Flat(history)|
    ensures forall i | 0 <= i < |Flat(history)| :: AllReplies(history)[i].responder == Flat(history)[i].responder
  {
    if history != [] {
      RepliesFollowEntries(history[..|history| - 1]);
    }
  }

  // The entries of the current batch that have no answer yet.
  function Unanswered(phase: Phase): seq<PendingEntry>
    requires phase.Answering? ==> phase.next <= |phase.batch|
  {
    if phase.Answering? then phase.batch[phase.next..] else Unrecorded(phase)
  }

  // The accepted requests, in acceptance order, are the dispatched batches and then the queue.
  lemma NothingLost(config: Config, ledger: Ledger, events: seq<Event>, s: State)
    requires Reaches(config, ledger, events, s)
    ensures Flat(s.history) + Unrecorded(s.phase) + s.pending == Numbered(s.accepted)
  {
    ReachableInv(config, ledger, events, s);
  }

  // Answer number i is request i's: no channel is sent to twice, none is skipped, and the answered requests are a
  // prefix of the accepted ones. Between batches exactly the requests that left the queue have been answered.
  lemma ExactlyOnce(config: Config, ledger: Ledger, events: seq<Event>, s: State)
    requires Reaches(config, ledger, events, s)
    ensures |s.sent| <= |s.accepted| && forall i | 0 <= i < |s.sent| :: s.sent[i].responder == i
    ensures s.sent <= AllReplies(s.history)
    ensures s.phase.Idle? ==> s.sent == AllReplies(s.history) && |s.sent| == |s.accepted| - |s.pending|
  {
    ReachableInv(config, ledger, events, s);
    RepliesFollowEntries(s.history);
    var all := AllReplies(s.history);
    assert |all| == |s.sent| + |Owed(s.phase)|;
    forall i | 0 <= i < |s.sent| ensures s.sent[i].responder == i {
      assert s.sent[i] == all[i];
      assert Flat(s.history)[i] == Numbered(s.accepted)[i];
    }
  }

  // Entry p of batch k, among all entries and all replies.
  lemma {:induction false} ReplyAt(history: seq<Record>, k: nat, p: nat) returns (at: nat)
    requires k < |history| && p < |history[k].batch|
    ensures at < |Flat(history)| == |AllReplies(history)|
    ensures Flat(history)[at] == history[k].batch[p]
    ensures AllReplies(history)[at] == Replies(SubmissionOf(history[k]), history[k].batch)[p]
  {
    var n := |history| - 1;
    RepliesFollowEntries(history[..n]);
    if k < n {
      at := ReplyAt(history[..n], k, p);
    } else {
      at := |Flat(history[..n])| + p;
    }
  }

  // Whatever was sent to a request: the success carries its batch's own transaction, a refusal the request's own
  // address, and an error its batch's error, word for word.
  lemma AnswersAreExact(config: Config, ledger: Ledger, events: seq<Event>, s: State, k: nat, p: nat)
    requires Reaches(config, ledger, events, s) && k < |s.history| && p < |s.history[k].batch|
    ensures var batch, i := s.history[k].batch, s.history[k].batch[p].responder;
            && i < |s.accepted| && s.accepted[i] == batch[p].address
            && (i < |s.sent| ==>
                  match s.history[k].fate
                  case Confirmed(hash, envelopeXdr, meta, results) =>
                    && |results| == |batch|
                    && s.sent[i] == Reply(i, if Readable(meta) && !results[p] then
                                               Failure(TransferFailed(s.accepted[i]))
                                             else
                                               Success(SuccessResponse(true, hash, envelopeXdr)))
                  case Failed(error, _) =>
                    s.sent[i] == Reply(i, Failure(Internal("Batch transfer failed: " + error))))
  {
    ReachableInv(config, ledger, events, s);
    ExactlyOnce(config, ledger, events, s);
    var at := ReplyAt(s.history, k, p);
    assert Numbered(s.accepted)[at] == Flat(s.history)[at];
    if at < |s.sent| && s.history[k].fate.Confirmed? {
      HonestParse(s.history[k].fate.meta, s.history[k].fate.results);
    }
  }

  lemma HonestParse(meta: Option<Meta>, results: seq<bool>)
    requires Honest(meta, results)
    ensures |ResultsOf(meta, |results|)| == |results|
    ensures forall i | 0 <= i < |results| :: ResultsOf(meta, |results|)[i] <==> !Readable(meta) || results[i]
  {
    ParsedIsReturnedIff(meta, results);
  }

  // And every answer that was sent belongs to an entry of some batch.
  lemma {:induction false} FindEntry(history: seq<Record>, at: nat) returns (k: nat, p: nat)
    requires at < |Flat(history)|
    ensures k < |history| && p < |history[k].batch| && history[k].batch[p] == Flat(history)[at]
  {
    var n := |history| - 1;
    if at < |Flat(history[..n])| {
      k, p := FindEntry(history[..n], at);
    } else {
      k, p := n, at - |Flat(history[..n])|;
    }
  }

  lemma EveryAnswerHasItsBatch(config: Config, ledger: Ledger, events: seq<Event>, s: State, i: nat)
    returns (k: nat, p: nat)
    requires Reaches(config, ledger, events, s) && i < |s.sent|
    ensures i < |s.accepted| && k < |s.history| && p < |s.history[k].batch|
    ensures s.history[k].batch[p] == PendingEntry(s.accepted[i], i)
  {
    ReachableInv(config, ledger, events, s);
    ExactlyOnce(config, ledger, events, s);
    RepliesFollowEntries(s.history);
    assert Numbered(s.accepted)[i] == Flat(s.history)[i];
    k, p := FindEntry(s.history, i);
  }

  // Requests that left the queue never return to it.
  lemma {:induction false} TakenGrows(config: Config, s: State, events: seq<Event>)
    requires Run(config, s, events).Some?
    ensures var s' := Run(config, s, events).value;
            |s.accepted| - |s.pending| <= |s'.accepted| - |s'.pending|
    decreases |events|
  {
    if events != [] {
      TakenGrows(config, s, events[..|events| - 1]);
    }
  }

  // Whenever the loop is idle again, everything that was accepted before any drain has been answered.
  lemma AnsweredSinceDrain(config: Config, ledger: Ledger, events: seq<Event>, s: State, k: nat)
    requires Reaches(config, ledger, events, s) && s.phase.Idle? && k < |events| && events[k].Drain?
    ensures Run(config, Init(ledger), events[..k]).Some?
    ensures |Run(config, Init(ledger), events[..k]).value.accepted| <= |s.sent|
  {
    var before, drained := events[..k], events[..k + 1];
    assert drained[..k] == before && events == drained + events[k + 1..];
    RunPrefix(config, Init(ledger), events, k + 1);
    RunPrefix(config, Init(ledger), drained, k);
    var s1 := Run(config, Init(ledger), drained).value;
    RunAppend(config, Init(ledger), drained, events[k + 1..]);
    TakenGrows(config, s1, events[k + 1..]);
    ExactlyOnce(config, ledger, events, s);
  }

  lemma {:induction false} RunPrefix(config: Config, s: State, events: seq<Event>, k: nat)
    requires k <= |events| && Run(config, s, events).Some?
    ensures Run(config, s, events[..k]).Some?
    decreases |events|
  {
    if k < |events| {
      var n := |events| - 1;
      RunPrefix(config, s, events[..n], k);
      assert events[..n][..k] == events[..k];
    } else {
      assert events[..k] == events;
    }
  }

  // What is accepted stays accepted and what is answered stays answered, whatever happens next.
  lemma {:induction false} AnswersAreFinal(config: Config, s: State, events: seq<Event>)
    requires Run(config, s, events).Some?
    ensures var s' := Run(config, s, events).value; s.accepted <= s'.accepted && s.sent <= s'.sent
    decreases |events|
  {
    if events != [] {
      AnswersAreFinal(config, s, events[..|events| - 1]);
    }
  }

  // A drain takes every accepted request that no earlier batch took, in order.
  lemma DrainTakesAll(config: Config, ledger: Ledger, events: seq<Event>, s: State)
    requires Reaches(config, ledger, events, s) && s.phase.Idle?
    ensures |s.sent| <= |s.accepted|
    ensures var s' := Step(config, s, Drain).value;
            && s'.pending == []
            && Unrecorded(s'.phase) == Numbered(s.accepted)[|s.sent|..]
  {
    ReachableInv(config, ledger, events, s);
    ExactlyOnce(config, ledger, events, s);
    RepliesFollowEntries(s.history);
    assert (Flat(s.history) + [] + s.pending)[|s.sent|..] == s.pending;
  }

  // Every drained batch can be encoded, and what the chain decodes is one payment of the amount for each entry.
  lemma EveryBatchEncodes(config: Config, ledger: Ledger, events: seq<Event>, s: State)
    requires Reaches(config, ledger, events, s) && s.phase.InFlight?
    ensures AllDecode(config, s.phase.batch)
    ensures var encoded := EncodeReceivers(config.decode, Payees(config, s.phase.batch));
            encoded.Success? && DecodeReceivers(encoded.value) == Some(Receivers(config, s.phase.batch))
  {
    ReachableInv(config, ledger, events, s);
    EncodeThenDecode(config.decode, Payees(config, s.phase.batch));
  }

  // What the guards of the steps come to in a run: a batch in flight can always be applied, one that was given up can
  // still be applied at any time, and a batch being answered has a next step.
  lemma WhatCanHappen(config: Config, ledger: Ledger, events: seq<Event>, s: State)
    requires Reaches(config, ledger, events, s)
    ensures s.phase.InFlight? <==> Step(config, s, Apply).Some?
    ensures forall k: nat ::
              Step(config, s, Settle(k)).Some?
              <==> k < |s.history| && s.history[k].fate.Failed? && s.history[k].fate.applied.None?
    ensures s.phase.Answering? <==> Step(config, s, Respond).Some? || Step(config, s, Finish).Some?
  {
    ReachableInv(config, ledger, events, s);
  }

  // ---------- Bounds ----------

  function Addresses(entries: seq<PendingEntry>): seq<string> {
    seq(|entries|, i requires 0 <= i < |entries| => entries[i].address)
  }

  lemma {:induction false} DistinctOnce(entries: seq<PendingEntry>, address: string)
    requires DistinctAddresses(entries)
    ensures multiset(Addresses(entries))[address] <= 1
  {
    if entries != [] {
      var n := |entries| - 1;
      DistinctOnce(entries[..n], address);
      assert Addresses(entries) == Addresses(entries[..n]) + [entries[n].address];
      if entries[n].address == address {
        assert address !in Addresses(entries[..n]);
      }
    }
  }

  lemma RecordedButUnanswered(s: State)
    requires ReplyInv(s)
    ensures |s.sent| <= |Flat(s.history)|
    ensures Flat(s.history)[|s.sent|..] == if s.phase.Answering? then s.phase.batch[s.phase.next..] else []
  {
    RepliesFollowEntries(s.history);
    assert |Flat(s.history)| == |s.sent| + |Owed(s.phase)|;
    if s.phase.Answering? {
      assert Flat(s.history) == Flat(s.history[..|s.history| - 1]) + s.phase.batch;
    }
  }

  lemma UnansweredEntries(s: State)
    requires LogInv(s) && ReplyInv(s)
    ensures |s.sent| <= |s.accepted|
    ensures Numbered(s.accepted)[|s.sent|..] == Unanswered(s.phase) + s.pending
  {
    RecordedButUnanswered(s);
    DropFirst(Flat(s.history), Unrecorded(s.phase), s.pending, |s.sent|);
    assert Flat(s.history)[|s.sent|..] + Unrecorded(s.phase) == Unanswered(s.phase);
  }

  lemma DropFirst(xs: seq<PendingEntry>, ys: seq<PendingEntry>, zs: seq<PendingEntry>, n: nat)
    requires n <= |xs|
    ensures (xs + ys + zs)[n..] == xs[n..] + ys + zs
  {
  }

  lemma NumberedAddresses(log: seq<string>, k: nat)
    requires k <= |log|
    ensures Addresses(Numbered(log)[k..]) == log[k..]
  {
  }

  lemma AddressesAppend(xs: seq<PendingEntry>, ys: seq<PendingEntry>)
    ensures Addresses(xs + ys) == Addresses(xs) + Addresses(ys)
  {
  }

  lemma UnansweredAre(config: Config, s: State)
    requires Inv(config, s)
    ensures |s.sent| <= |s.accepted|
    ensures s.accepted[|s.sent|..] == Addresses(Unanswered(s.phase)) + Addresses(s.pending)
  {
    UnansweredEntries(s);
    NumberedAddresses(s.accepted, |s.sent|);
    AddressesAppend(Unanswered(s.phase), s.pending);
  }

  // An address has at most two unanswered requests, and there are at most 2 * maxSize of them in all.
  lemma AtMostTwoOpen(config: Config, ledger: Ledger, events: seq<Event>, s: State, address: string)
    requires Reaches(config, ledger, events, s)
    ensures |s.sent| <= |s.accepted|
    ensures |s.accepted| - |s.sent| <= 2 * config.maxSize
    ensures multiset(s.accepted[|s.sent|..])[address] <= 2
  {
    ReachableInv(config, ledger, events, s);
    UnansweredAre(config, s);
    DistinctOnce(s.pending, address);
    DistinctOnce(Unanswered(s.phase), address);
  }

  // Every batch ever submitted has between 1 and maxSize entries, with distinct addresses.
  lemma EveryBatchIsGood(config: Config, ledger: Ledger, events: seq<Event>, s: State)
    requires Reaches(config, ledger, events, s)
    ensures forall k | 0 <= k < |s.history| :: GoodBatch(config, s.history[k].batch)
    ensures s.phase.InFlight? || s.phase.Applied? ==> GoodBatch(config, s.phase.batch)
  {
    ReachableInv(config, ledger, events, s);
  }

  // Two is reached: the duplicate check does not see the batch in flight.
  lemma TwoOpenHappens(config: Config, ledger: Ledger, address: string)
    requires ValidConfig(config) && config.maxSize > 0 && config.decode(address).Some?
    ensures var s := Run(config, Init(ledger), [Request(address), Drain, Request(address)]);
            s.Some? && s.value.accepted == [address, address] && s.value.sent == []
  {
    var es := [Request(address), Drain, Request(address)];
    assert es[..2] == [Request(address), Drain] && es[..2][..1] == [Request(address)] && es[..2][..1][..0] == [];
    var s0 := Init(ledger);
    assert Run(config, s0, []) == Some(s0);
    var s1 := Requested(config, s0, address);
    assert Run(config, s0, [Request(address)]) == Some(s1);
    var s2 := Step(config, s1, Drain).value;
    assert Run(config, s0, [Request(address), Drain]) == Some(s2);
    assert Run(config, s0, es) == Some(Requested(config, s2, address));
  }

  // ---------- Progress ----------

  // The steps that answer what is left of the current batch.
  function Responds(n: nat): (events: seq<Event>)
    ensures |events| == n
  {
    seq(n, _ => Respond)
  }

  lemma AppendOne(sent: seq<Reply>, replies: seq<Reply>, from: nat, to: nat)
    requires from < to <= |replies|
    ensures sent + replies[from..to] == sent + replies[from..to - 1] + [replies[to - 1]]
  {
  }

  lemma {:induction false} RespondAll(config: Config, s: State, n: nat)
    requires s.phase.Answering? && s.phase.next + n <= |s.phase.batch|
    ensures var replies := Replies(s.phase.submission, s.phase.batch);
            Run(config, s, Responds(n))
            == Some(s.(sent := s.sent + replies[s.phase.next..s.phase.next + n],
                       phase := s.phase.(next := s.phase.next + n)))
  {
    var replies := Replies(s.phase.submission, s.phase.batch);
    var next := s.phase.next;
    if n == 0 {
      assert s.sent + replies[next..next] == s.sent;
    } else {
      RespondAll(config, s, n - 1);
      assert Responds(n)[..n - 1] == Responds(n - 1);
      AppendOne(s.sent, replies, next, next + n);
    }
  }

  lemma AnswerRest(config: Config, s: State)
    requires s.phase.Answering? && s.phase.next <= |s.phase.batch|
    ensures var n := |s.phase.batch| - s.phase.next;
            Run(config, s, Responds(n) + [Finish]) == Some(s.(sent := s.sent + Owed(s.phase), phase := Idle))
  {
    var n := |s.phase.batch| - s.phase.next;
    RespondAll(config, s, n);
    assert (Responds(n) + [Finish])[..n] == Responds(n);
    var replies := Replies(s.phase.submission, s.phase.batch);
    assert replies[s.phase.next..|replies|] == replies[s.phase.next..];
  }

  // The steps of the background task alone.
  ghost predicate Background(events: seq<Event>) {
    forall i | 0 <= i < |events| :: !events[i].Request? && !events[i].Settle?
  }

  // The state in which the loop has answered its current batch.
  function Rested(s: State): State
    requires s.phase.Answering? ==> s.phase.next <= |s.phase.batch|
  {
    s.(sent := s.sent + Owed(s.phase), phase := Idle)
  }

  lemma StepAndAnswer(config: Config, s: State, e: Event, closed: State)
    requires Step(config, s, e) == Some(closed) && closed.phase.Answering? && closed.phase.next == 0
    ensures Run(config, s, [e] + (Responds(|closed.phase.batch|) + [Finish])) == Some(Rested(closed))
  {
    assert [e][..0] == [];
    assert Run(config, s, [e]) == Some(closed);
    AnswerRest(config, closed);
    RunAppend(config, s, [e], Responds(|closed.phase.batch|) + [Finish]);
  }

  lemma FailAndAnswer(config: Config, s: State) returns (events: seq<Event>)
    requires s.phase.InFlight? || s.phase.Applied?
    ensures Background(events) && |events| == |s.phase.batch| + 2
    ensures Run(config, s, events) == Some(Rested(Step(config, s, Fail("")).value))
  {
    StepAndAnswer(config, s, Fail(""), Step(config, s, Fail("")).value);
    events := [Fail("")] + (Responds(|s.phase.batch|) + [Finish]);
  }

  // From any state of a run the background task can answer its current batch.
  lemma ComeToRest(config: Config, s: State) returns (events: seq<Event>, s': State)
    requires Inv(config, s)
    ensures Background(events) && |events| <= config.maxSize + 2
    ensures Run(config, s, events) == Some(s')
    ensures s'.phase.Idle? && s'.pending == s.pending && s'.accepted == s.accepted
  {
    if s.phase.Idle? {
      events, s' := [], s;
    } else if s.phase.Answering? {
      events, s' := Responds(|s.phase.batch| - s.phase.next) + [Finish], Rested(s);
      AnswerRest(config, s);
    } else {
      events := FailAndAnswer(config, s);
      s' := Rested(Step(config, s, Fail("")).value);
    }
  }

  lemma {:induction false} RunKeepsInv(config: Config, s: State, events: seq<Event>)
    requires Inv(config, s) && Run(config, s, events).Some?
    ensures Inv(config, Run(config, s, events).value)
    decreases |events|
  {
    if events != [] {
      var n := |events| - 1;
      RunKeepsInv(config, s, events[..n]);
      var before := Run(config, s, events[..n]).value;
      StepKeepsBounds(config, before, events[n]);
      StepKeepsLog(config, before, events[n]);
      StepKeepsReplies(config, before, events[n]);
    }
  }

  // From rest, one more round empties the queue.
  lemma DrainAndAnswer(config: Config, s: State) returns (events: seq<Event>, s': State)
    requires Inv(config, s) && s.phase.Idle?
    ensures Background(events) && |events| <= config.maxSize + 3
    ensures Run(config, s, events) == Some(s')
    ensures s'.phase.Idle? && s'.pending == [] && s'.accepted == s.accepted
  {
    var drained := Step(config, s, Drain).value;
    RunThree(config, s, Drain, Drain, Drain);
    RunKeepsInv(config, s, [Drain]);
    var rest;
    rest, s' := ComeToRest(config, drained);
    RunAppend(config, s, [Drain], rest);
    events := [Drain] + rest;
  }

  // No run can get stuck: at most 2 * maxSize + 5 steps of the background task answer everything accepted so far.
  lemma EverythingCanBeAnswered(config: Config, ledger: Ledger, past: seq<Event>, s: State)
    returns (events: seq<Event>, s': State)
    requires Reaches(config, ledger, past, s)
    ensures Background(events) && |events| <= 2 * config.maxSize + 5
    ensures Run(config, s, events) == Some(s')
    ensures s'.accepted == s.accepted && s'.pending == [] && |s'.sent| == |s.accepted|
  {
    ReachableInv(config, ledger, past, s);
    var first, rested := ComeToRest(config, s);
    RunKeepsInv(config, s, first);
    var second;
    second, s' := DrainAndAnswer(config, rested);
    RunAppend(config, s, first, second);
    events := first + second;
    RunKeepsInv(config, rested, second);
    UnansweredEntries(s');
  }

  // Steps that the loop still has to make until everything accepted so far is answered.
  function Work(s: State): nat {
    (if s.pending == [] then 0 else |s.pending| + 4) + PhaseWork(s.phase)
  }

  function PhaseWork(phase: Phase): nat {
    match phase
    case Idle => 0
    case InFlight(batch) => |batch| + 3
    case Applied(batch, _) => |batch| + 2
    case Answering(batch, _, next) => if next <= |batch| then |batch| - next + 1 else 0
  }

  lemma StepWorks(config: Config, s: State, e: Event)
    requires Inv(config, s) && !e.Request? && Step(config, s, e).Some?
    ensures var s' := Step(config, s, e).value;
            && s'.accepted == s.accepted
            && Work(s') <= (if e.Settle? || Work(s) == 0 then Work(s) else Work(s) - 1)
  {
  }

  // The loop's own steps among the events; the others are the chain's.
  function LoopSteps(events: seq<Event>): nat {
    if events == [] then
      0
    else
      LoopSteps(events[..|events| - 1]) + if events[|events| - 1].Settle? then 0 else 1
  }

  lemma {:induction false} LoopStepsAre(events: seq<Event>)
    ensures LoopSteps(events) == |set i | 0 <= i < |events| && !events[i].Settle?|
  {
    if events != [] {
      var n := |events| - 1;
      LoopStepsAre(events[..n]);
      var front := set i | 0 <= i < n && !events[..n][i].Settle?;
      assert (set i | 0 <= i < |events| && !events[i].Settle?) == front + if events[n].Settle? then {} else {n};
    }
  }

  ghost predicate NoRequests(events: seq<Event>) {
    forall i | 0 <= i < |events| :: !events[i].Request?
  }

  lemma {:induction false} RunWorks(config: Config, s: State, events: seq<Event>)
    requires Inv(config, s) && NoRequests(events) && Run(config, s, events).Some?
    ensures var s' := Run(config, s, events).value;
            && s'.accepted == s.accepted
            && Work(s') <= (if LoopSteps(events) <= Work(s) then Work(s) - LoopSteps(events) else 0)
    decreases |events|
  {
    if events != [] {
      var n := |events| - 1;
      RunWorks(config, s, events[..n]);
      RunKeepsInv(config, s, events[..n]);
      StepWorks(config, Run(config, s, events[..n]).value, events[n]);
    }
  }

  // Whatever the submissions report and whatever the chain applies meanwhile: once no more requests arrive, every run
  // with at least 2 * maxSize + 7 steps of the loop has answered everything.
  lemma EverythingIsAnswered(config: Config, ledger: Ledger, past: seq<Event>, s: State, events: seq<Event>, s': State)
    requires Reaches(config, ledger, past, s)
    requires NoRequests(events) && LoopSteps(events) >= 2 * config.maxSize + 7 && Run(config, s, events) == Some(s')
    ensures s'.phase.Idle? && s'.pending == []
    ensures s'.accepted == s.accepted && |s'.sent| == |s.accepted|
  {
    ReachableInv(config, ledger, past, s);
    RunWorks(config, s, events);
    RunKeepsInv(config, s, events);
    assert Work(s') == 0;
    UnansweredEntries(s');
  }

  // ---------- The imperative loop is a run ----------

  // The steps that a dispatch stands for: the chain and the report, and then the answers.
  function ReportEvents(config: Config, ledger: Ledger, network: Network, batch: seq<PendingEntry>): seq<Event>
    requires AllDecode(config, batch)
  {
    match network
    case Landed(hash, envelopeXdr, meta) =>
      [Apply, Confirm(hash, envelopeXdr, meta(Transfers(config, ledger, batch).results))]
    case Lost(error, applied) => if applied then [Apply, Fail(error)] else [Fail(error)]
  }

  function DispatchEvents(config: Config, ledger: Ledger, network: Network, batch: seq<PendingEntry>): seq<Event>
    requires AllDecode(config, batch)
  {
    ReportEvents(config, ledger, network, batch) + (Responds(|batch|) + [Finish])
  }

  lemma RunThree(config: Config, s: State, x: Event, y: Event, z: Event)
    ensures Run(config, s, [x]) == Step(config, s, x)
    ensures Run(config, s, [x]).Some? ==> Run(config, s, [x, y]) == Step(config, Run(config, s, [x]).value, y)
    ensures Run(config, s, [x, y]).Some? ==> Run(config, s, [x, y, z]) == Step(config, Run(config, s, [x, y]).value, z)
  {
    assert [x][..0] == [] && [x, y][..1] == [x] && [x, y, z][..2] == [x, y];
    assert Run(config, s, []) == Some(s);
  }

  // The record that the network makes of this batch, whose transfers end like this when they are applied.
  ghost predicate Reported(r: Record, network: Network, batch: seq<PendingEntry>, results: seq<bool>) {
    && r.batch == batch
    && r.fate == match network
                 case Landed(hash, envelopeXdr, meta) => Confirmed(hash, envelopeXdr, meta(results), results)
                 case Lost(error, applied) => Failed(error, if applied then Some(results) else None)
  }

  lemma ReportingCloses(config: Config, s: State, network: Network)
    requires s.phase.InFlight? && AllDecode(config, s.phase.batch) && HonestNetwork(network)
    ensures var (ledger, submission) := Submitted(config, s.ledger, network, s.phase.batch);
            var closed := Run(config, s, ReportEvents(config, s.ledger, network, s.phase.batch));
            && closed.Some?
            && closed.value.ledger == ledger && closed.value.phase == Answering(s.phase.batch, submission, 0)
            && closed.value.sent == s.sent && closed.value.pending == s.pending && closed.value.accepted == s.accepted
            && |closed.value.history| == |s.history| + 1 && s.history <= closed.value.history
            && Reported(closed.value.history[|s.history|], network, s.phase.batch,
                        Transfers(config, s.ledger, s.phase.batch).results)
  {
    var batch := s.phase.batch;
    match network
    case Landed(hash, envelopeXdr, meta) =>
      RunThree(config, s, Apply, Confirm(hash, envelopeXdr, meta(Transfers(config, s.ledger, batch).results)), Finish);
    case Lost(error, applied) =>
      RunThree(config, s, if applied then Apply else Fail(error), Fail(error), Finish);
  }

  // A dispatch, seen from the system, is these steps in a row: the same ledger, the same replies, one more record, the
  // queue untouched and the loop idle.
  lemma DispatchIsARun(config: Config, s: State, network: Network)
    requires s.phase.InFlight? && AllDecode(config, s.phase.batch) && HonestNetwork(network)
    ensures var (ledger, submission) := Submitted(config, s.ledger, network, s.phase.batch);
            var s' := Run(config, s, DispatchEvents(config, s.ledger, network, s.phase.batch));
            && s'.Some?
            && s'.value.ledger == ledger && s'.value.sent == s.sent + Replies(submission, s.phase.batch)
            && s'.value.pending == s.pending && s'.value.accepted == s.accepted && s'.value.phase.Idle?
            && |s'.value.history| == |s.history| + 1 && s.history <= s'.value.history
            && Reported(s'.value.history[|s.history|], network, s.phase.batch,
                        Transfers(config, s.ledger, s.phase.batch).results)
  {
    ReportingCloses(config, s, network);
    var report := ReportEvents(config, s.ledger, network, s.phase.batch);
    var closed := Run(config, s, report).value;
    AnswerRest(config, closed);
    RunAppend(config, s, report, Responds(|s.phase.batch|) + [Finish]);
    var replies := Replies(closed.phase.submission, s.phase.batch);
    assert replies[0..] == replies;
  }

  function TurnEvents(config: Config, ledger: Ledger, network: Network, batch: seq<PendingEntry>): seq<Event>
    requires AllDecode(config, batch)
  {
    [Drain] + DispatchEvents(config, ledger, network, batch)
  }

  // A turn of the loop is a drain and a dispatch.
  lemma TurnIsARun(config: Config, s: State, network: Network)
    requires AllDecode(config, s.pending) && HonestNetwork(network)
    requires s.phase.Idle? && s.pending != []
    ensures var (ledger, submission) := Submitted(config, s.ledger, network, s.pending);
            var s' := Run(config, s, TurnEvents(config, s.ledger, network, s.pending));
            && s'.Some?
            && s'.value.ledger == ledger
            && s'.value.sent == s.sent + Replies(submission, s.pending)
            && s'.value.pending == [] && s'.value.phase.Idle? && s'.value.accepted == s.accepted
  {
    var drained := Step(config, s, Drain).value;
    RunThree(config, s, Drain, Finish, Finish);
    DispatchIsARun(config, drained, network);
    RunAppend(config, s, [Drain], DispatchEvents(config, s.ledger, network, s.pending));
  }
}
