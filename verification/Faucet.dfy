// The faucet as a system of interleaved steps: HTTP requests arrive at any time, one background task drains, submits
// and answers, and the chain applies what was submitted, perhaps long after the faucet gave it up for lost.
module Faucet {
  import opened Wrappers
  import opened Token
  import opened Codec
  import opened Queue
  import opened Batch

  // How a batch ended for the faucet. A failed one may or may not have been applied by the chain.
  datatype Fate =
    | Confirmed(hash: string, envelopeXdr: string, meta: Option<Meta>, results: seq<bool>)
    | Failed(error: string, applied: Option<seq<bool>>)

  datatype Record = Record(batch: seq<PendingEntry>, fate: Fate)

  // Where the background task is.
  datatype Phase =
    | Idle
    | InFlight(batch: seq<PendingEntry>)
    | Applied(batch: seq<PendingEntry>, results: seq<bool>)
    | Answering(batch: seq<PendingEntry>, submission: Submission, next: nat)

  datatype State = State(
    accepted: seq<string>,         // every address ever accepted, in order; request i waits on channel i
    pending: seq<PendingEntry>,
    phase: Phase,
    sent: seq<Reply>,
    ledger: Ledger,
    history: seq<Record>,          // the batches that were submitted, in order
    chain: seq<PendingEntry>,      // the entries that the chain has processed, in its own order
    verdicts: seq<bool>)           // and the contract's result for each of them

  datatype Event =
    | Request(address: string)
    | Drain
    | Apply
    | Confirm(hash: string, envelopeXdr: string, meta: Option<Meta>)
    | Fail(error: string)
    | Settle(record: nat)          // the chain applies a batch that the faucet had given up
    | Respond
    | Finish

  function Init(ledger: Ledger): State {
    State([], [], Idle, [], ledger, [], [], [])
  }

  // The handler validates the address and then enqueues; a refused request changes nothing.
  function Requested(config: Config, s: State, address: string): State {
    if config.decode(address).None? then
      s
    else
      match Enqueued(s.pending, config.maxSize, address, |s.accepted|)
      case Failure(_) => s
      case Success(pending) => s.(accepted := s.accepted + [address], pending := pending)
  }

  function Processed(config: Config, s: State, batch: seq<PendingEntry>): State
    requires AllDecode(config, batch)
  {
    var o := Transfers(config, s.ledger, batch);
    s.(ledger := o.ledger, chain := s.chain + batch, verdicts := s.verdicts + o.results)
  }

  function Closed(s: State, batch: seq<PendingEntry>, fate: Fate): State {
    var record := Record(batch, fate);
    s.(history := s.history + [record], phase := Answering(batch, SubmissionOf(record), 0))
  }

  function SubmissionOf(record: Record): Submission {
    match record.fate
    case Confirmed(hash, envelopeXdr, meta, _) => Success((hash, envelopeXdr, ResultsOf(meta, |record.batch|)))
    case Failed(error, _) => Failure(error)
  }

  // None where the event cannot happen in this state.
  function Step(config: Config, s: State, e: Event): Option<State> {
    match (e, s.phase)
    case (Request(address), _) => Some(Requested(config, s, address))
    case (Drain, Idle) =>
      Some(if s.pending == [] then s else s.(pending := [], phase := InFlight(s.pending)))
    case (Apply, InFlight(batch)) =>
      if AllDecode(config, batch) then
        Some(Processed(config, s, batch).(phase := Applied(batch, Transfers(config, s.ledger, batch).results)))
      else
        None
    case (Confirm(hash, envelopeXdr, meta), Applied(batch, results)) =>
      if Honest(meta, results) then Some(Closed(s, batch, Confirmed(hash, envelopeXdr, meta, results))) else None
    case (Fail(error), InFlight(batch)) => Some(Closed(s, batch, Failed(error, None)))
    case (Fail(error), Applied(batch, results)) => Some(Closed(s, batch, Failed(error, Some(results))))
    case (Settle(k), _) =>
      if k < |s.history| && s.history[k].fate.Failed? && s.history[k].fate.applied.None?
         && AllDecode(config, s.history[k].batch) then
        var record := s.history[k];
        var results := Transfers(config, s.ledger, record.batch).results;
        var settled := record.(fate := Failed(record.fate.error, Some(results)));
        Some(Processed(config, s, record.batch).(history := s.history[k := settled]))
      else
        None
    case (Respond, Answering(batch, submission, next)) =>
      if next < |batch| then
        var reply := Reply(batch[next].responder, AnswerOf(submission, batch, next));
        Some(s.(sent := s.sent + [reply], phase := Answering(batch, submission, next + 1)))
      else
        None
    case (Finish, Answering(batch, _, next)) =>
      if next == |batch| then Some(s.(phase := Idle)) else None
    case _ => None
  }

  function Run(config: Config, s: State, events: seq<Event>): Option<State>
    decreases |events|
  {
    if events == [] then
      Some(s)
    else
      match Run(config, s, events[..|events| - 1])
      case Some(before) => Step(config, before, events[|events| - 1])
      case None => None
  }

  lemma {:induction false} RunAppend(config: Config, s: State, xs: seq<Event>, ys: seq<Event>)
    requires Run(config, s, xs).Some?
    ensures Run(config, s, xs + ys) == Run(config, Run(config, s, xs).value, ys)
    decreases |ys|
  {
    if ys == [] {
      assert xs + ys == xs;
    } else {
      var n := |ys| - 1;
      RunAppend(config, s, xs, ys[..n]);
      assert (xs + ys)[..|xs + ys| - 1] == xs + ys[..n];
    }
  }

  // A state that some finite run from the given ledger ends in.
  ghost predicate Reaches(config: Config, ledger: Ledger, events: seq<Event>, s: State) {
    ValidConfig(config) && Run(config, Init(ledger), events) == Some(s)
  }

  // ---------- Histories ----------

  function Flat(history: seq<Record>): seq<PendingEntry> {
    if history == [] then [] else Flat(history[..|history| - 1]) + history[|history| - 1].batch
  }

  function Numbered(log: seq<string>): (entries: seq<PendingEntry>)
    ensures |entries| == |log|
    ensures forall i | 0 <= i < |log| :: entries[i] == PendingEntry(log[i], i)
  {
    seq(|log|, i requires 0 <= i < |log| => PendingEntry(log[i], i))
  }

  // The batch that was drained but has no record yet.
  function Unrecorded(phase: Phase): seq<PendingEntry> {
    match phase
    case InFlight(batch) => batch
    case Applied(batch, _) => batch
    case _ => []
  }

  function AllReplies(history: seq<Record>): seq<Reply> {
    if history == [] then
      []
    else
      var last := history[|history| - 1];
      AllReplies(history[..|history| - 1]) + Replies(SubmissionOf(last), last.batch)
  }

  // The replies of the current batch that are still to be sent.
  function Owed(phase: Phase): seq<Reply>
    requires phase.Answering? ==> phase.next <= |phase.batch|
  {
    if phase.Answering? then Replies(phase.submission, phase.batch)[phase.next..] else []
  }
}
