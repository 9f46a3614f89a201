// The running service, imperatively: the handler, the loop, and the proof that together they are a run of the system.
module Service {
  import opened Wrappers
  import opened Token
  import Contract = BatchTransfer
  import opened Queue
  import opened Batch
  import opened Faucet
  import opened FaucetLog

  // The objects of the service, as a state of the system between two turns of the loop.
  ghost predicate Mirrors(s: State, queue: FaucetQueue, client: TokenClient, outbox: Outbox)
    reads queue, client, outbox
  {
    && s.phase.Idle?
    && s.pending == queue.entries && |s.accepted| == queue.channels
    && s.ledger == client.ledger && s.sent == outbox.sent
  }

  // Validate, then enqueue; the request goes on to wait on the returned channel.
  method FundHandler(config: Config, queue: FaucetQueue, address: string, ghost s: State)
    returns (r: Result<nat, Problem>)
    requires queue.Valid() && queue.maxSize == config.maxSize
    requires s.pending == queue.entries && |s.accepted| == queue.channels
    modifies queue
    ensures queue.Valid()
    ensures r == if config.decode(address).None? then Failure(InvalidAddress(address))
                 else if |old(queue.entries)| >= config.maxSize then Failure(QueueFull)
                 else if exists i :: 0 <= i < |old(queue.entries)| && old(queue.entries)[i].address == address then
                   Failure(AlreadyPending(address))
                 else Success(old(queue.channels))
    ensures r.Success? ==>
              && queue.entries == old(queue.entries) + [PendingEntry(address, old(queue.channels))]
              && queue.channels == old(queue.channels) + 1
    ensures r.Failure? ==> queue.entries == old(queue.entries) && queue.channels == old(queue.channels)
    ensures r.Failure? ==> r.error.Status() == (if config.decode(address).None? then 400
                                                else if |old(queue.entries)| >= config.maxSize then 503
                                                else 409)
    ensures Requested(config, s, address)
            == s.(pending := queue.entries, accepted := if r.Success? then s.accepted + [address] else s.accepted)
  {
    if config.decode(address).None? {
      return Failure(InvalidAddress(address));
    }
    r := queue.Enqueue(address);
  }

  // What happens in one turn: requests arrive, the chain applies some of the batches that were given up (named by their
  // place among all submitted batches), one submission is made, and requests arrive while it is in flight.
  datatype Tick = Tick(before: seq<string>, late: seq<nat>, network: Network, during: seq<string>)

  // ---------- What the service hears ----------

  function RequestsFor(addresses: seq<string>): (events: seq<Event>)
    ensures |events| == |addresses|
    ensures forall i | 0 <= i < |addresses| :: events[i] == Request(addresses[i])
  {
    seq(|addresses|, i requires 0 <= i < |addresses| => Request(addresses[i]))
  }

  // The requests and the drains among the events, in order.
  function Heard(events: seq<Event>): seq<Event> {
    if events == [] then
      []
    else
      var last := events[|events| - 1];
      Heard(events[..|events| - 1]) + if last.Request? || last.Drain? then [last] else []
  }

  ghost predicate Deaf(events: seq<Event>) {
    forall i | 0 <= i < |events| :: !events[i].Request? && !events[i].Drain?
  }

  lemma {:induction false} HeardAppend(xs: seq<Event>, ys: seq<Event>)
    ensures Heard(xs + ys) == Heard(xs) + Heard(ys)
    decreases |ys|
  {
    if ys == [] {
      assert xs + ys == xs;
    } else {
      var n := |ys| - 1;
      HeardAppend(xs, ys[..n]);
      assert (xs + ys)[..|xs + ys| - 1] == xs + ys[..n];
    }
  }

  lemma HeardOne(events: seq<Event>, e: Event)
    ensures Heard([]) == []
    ensures Heard(events + [e]) == Heard(events) + if e.Request? || e.Drain? then [e] else []
  {
    assert (events + [e])[..|events + [e]| - 1] == events;
  }

  lemma {:induction false} NothingHeard(xs: seq<Event>, ys: seq<Event>)
    requires Deaf(ys)
    ensures Heard(xs + ys) == Heard(xs)
    decreases |ys|
  {
    if ys == [] {
      assert xs + ys == xs;
    } else {
      var n := |ys| - 1;
      NothingHeard(xs, ys[..n]);
      HeardOne(xs + ys[..n], ys[n]);
      assert xs + ys[..n] + [ys[n]] == xs + ys;
    }
  }

  lemma DispatchIsDeaf(config: Config, ledger: Ledger, network: Network, batch: seq<PendingEntry>)
    requires AllDecode(config, batch)
    ensures Deaf(DispatchEvents(config, ledger, network, batch))
  {
  }

  // All that a schedule makes the service hear: in each turn its requests before the drain, the drain, and its requests
  // during the submission.
  function Script(schedule: seq<Tick>): seq<Event> {
    if schedule == [] then
      []
    else
      var tick := schedule[|schedule| - 1];
      Script(schedule[..|schedule| - 1]) + RequestsFor(tick.before) + [Drain] + RequestsFor(tick.during)
  }

  lemma ScriptSnoc(schedule: seq<Tick>, tick: Tick)
    ensures Script([]) == []
    ensures Script(schedule + [tick])
            == Script(schedule) + RequestsFor(tick.before) + [Drain] + RequestsFor(tick.during)
  {
    assert (schedule + [tick])[..|schedule + [tick]| - 1] == schedule;
  }

  // ---------- Arrivals ----------

  lemma RunStep(config: Config, start: Ledger, events: seq<Event>, s: State, e: Event)
    requires Reaches(config, start, events, s) && Step(config, s, e).Some?
    ensures Reaches(config, start, events + [e], Step(config, s, e).value)
  {
    assert (events + [e])[..|events|] == events;
  }

  // Waiting, unless there was no room.
  ghost predicate Admitted(config: Config, entries: seq<PendingEntry>, address: string) {
    || config.decode(address).None?
    || |entries| >= config.maxSize
    || exists i :: 0 <= i < |entries| && entries[i].address == address
  }

  ghost predicate AllAdmitted(config: Config, entries: seq<PendingEntry>, addresses: seq<string>) {
    forall i | 0 <= i < |addresses| :: Admitted(config, entries, addresses[i])
  }

  // Entries that came behind `first`, on fresh channels from `channel` on, for some of these addresses.
  ghost predicate CameBehind(first: seq<PendingEntry>, channel: nat, entries: seq<PendingEntry>,
                             addresses: seq<string>)
  {
    && first <= entries
    && forall i | |first| <= i < |entries| ::
         entries[i].responder == channel + i - |first| && entries[i].address in addresses
  }

  lemma OneMoreArrival(config: Config, first: seq<PendingEntry>, channel: nat, xs: seq<PendingEntry>,
                       ys: seq<PendingEntry>, addresses: seq<string>, address: string)
    requires CameBehind(first, channel, xs, addresses) && AllAdmitted(config, xs, addresses)
    requires || (ys == xs && Admitted(config, xs, address))
             || ys == xs + [PendingEntry(address, channel + |xs| - |first|)]
    ensures CameBehind(first, channel, ys, addresses + [address]) && AllAdmitted(config, ys, addresses + [address])
  {
    forall i | 0 <= i < |addresses| ensures Admitted(config, ys, addresses[i]) {
      if k :| 0 <= k < |xs| && xs[k].address == addresses[i] {
        assert ys[k].address == addresses[i];
      }
    }
    assert ys != xs ==> ys[|xs|].address == address;
  }

  lemma OneMoreRequest(addresses: seq<string>, address: string)
    ensures RequestsFor(addresses + [address]) == RequestsFor(addresses) + [Request(address)]
  {
  }

  lemma RequestIsAStep(config: Config, start: Ledger, events: seq<Event>, s: State, address: string)
    requires Reaches(config, start, events, s)
    ensures Reaches(config, start, events + [Request(address)], Requested(config, s, address))
    ensures Heard(events + [Request(address)]) == Heard(events) + [Request(address)]
  {
    RunStep(config, start, events, s, Request(address));
    HeardOne(events, Request(address));
  }

  // One request, behind those that came for `earlier` addresses.
  method Arrival(config: Config, queue: FaucetQueue, address: string, ghost earlier: seq<string>,
                 ghost first: seq<PendingEntry>, ghost start: Ledger, ghost before: seq<Event>, ghost s0: State)
    returns (ghost events: seq<Event>, ghost s: State)
    requires queue.Valid() && queue.maxSize == config.maxSize
    requires Reaches(config, start, before, s0)
    requires s0.pending == queue.entries && |s0.accepted| == queue.channels
    requires |first| <= |queue.entries| <= queue.channels + |first|
    requires CameBehind(first, queue.channels + |first| - |queue.entries|, queue.entries, earlier)
    requires AllAdmitted(config, queue.entries, earlier)
    modifies queue
    ensures queue.Valid()
    ensures Reaches(config, start, events, s) && Heard(events) == Heard(before) + [Request(address)]
    ensures s == s0.(pending := queue.entries, accepted := s.accepted) && |s.accepted| == queue.channels
    ensures queue.channels - |queue.entries| == old(queue.channels) - |old(queue.entries)|
    ensures |first| <= |queue.entries| <= queue.channels + |first|
    ensures CameBehind(first, queue.channels + |first| - |queue.entries|, queue.entries, earlier + [address])
    ensures AllAdmitted(config, queue.entries, earlier + [address])
  {
    ghost var entries, channel := queue.entries, queue.channels + |first| - |queue.entries|;
    var _ := FundHandler(config, queue, address, s0);
    OneMoreArrival(config, first, channel, entries, queue.entries, earlier, address);
    RequestIsAStep(config, start, before, s0, address);
    events, s := before + [Request(address)], Requested(config, s0, address);
  }

  method Arrivals(config: Config, queue: FaucetQueue, addresses: seq<string>,
                  ghost start: Ledger, ghost before: seq<Event>, ghost s0: State)
    returns (ghost events: seq<Event>, ghost s: State)
    requires queue.Valid() && queue.maxSize == config.maxSize
    requires Reaches(config, start, before, s0)
    requires s0.pending == queue.entries && |s0.accepted| == queue.channels
    modifies queue
    ensures queue.Valid()
    ensures Reaches(config, start, events, s) && Heard(events) == Heard(before) + RequestsFor(addresses)
    ensures s == s0.(pending := queue.entries, accepted := s.accepted) && |s.accepted| == queue.channels
    ensures CameBehind(old(queue.entries), old(queue.channels), queue.entries, addresses)
    ensures queue.channels == old(queue.channels) + |queue.entries| - |old(queue.entries)|
    ensures AllAdmitted(config, queue.entries, addresses)
  {
    events, s := before, s0;
    ghost var first, channel := queue.entries, queue.channels;
    for i := 0 to |addresses|
      invariant queue.Valid() && Reaches(config, start, events, s)
      invariant Heard(events) == Heard(before) + RequestsFor(addresses[..i])
      invariant s == s0.(pending := queue.entries, accepted := s.accepted) && |s.accepted| == queue.channels
      invariant |first| <= |queue.entries| && queue.channels == channel + |queue.entries| - |first|
      invariant CameBehind(first, channel, queue.entries, addresses[..i])
      invariant AllAdmitted(config, queue.entries, addresses[..i])
    {
      assert addresses[..i + 1] == addresses[..i] + [addresses[i]];
      OneMoreRequest(addresses[..i], addresses[i]);
      events, s := Arrival(config, queue, addresses[i], addresses[..i], first, start, events, s);
    }
    assert addresses[..|addresses|] == addresses;
  }

  // ---------- Late batches ----------

  // Given up by the faucet, and not applied by the chain so far.
  predicate Open(r: Record) {
    r.fate.Failed? && r.fate.applied.None?
  }

  // The batches that the chain can still apply, by their place in the history: all of them and no others.
  ghost predicate CanStillApply(history: seq<Record>, lost: map<nat, seq<PendingEntry>>) {
    && (forall k: nat :: k in lost <==> k < |history| && Open(history[k]))
    && (forall k <- lost :: lost[k] == history[k].batch)
  }

  // The chain applies a batch that was given up.
  method ApplyLate(config: Config, client: TokenClient, ghost record: nat, batch: seq<PendingEntry>,
                   ghost start: Ledger, ghost before: seq<Event>, ghost s0: State)
    returns (ghost events: seq<Event>, ghost s: State)
    requires client.policy == config.policy && client.ledger == s0.ledger
    requires Reaches(config, start, before, s0)
    requires record < |s0.history| && Open(s0.history[record]) && s0.history[record].batch == batch
    modifies client
    ensures Reaches(config, start, events, s) && client.ledger == s.ledger
    ensures Some(s) == Step(config, s0, Settle(record)) && events == before + [Settle(record)]
  {
    ReachableInv(config, start, before, s0);
    RunStep(config, start, before, s0, Settle(record));
    events, s := before + [Settle(record)], Step(config, s0, Settle(record)).value;
    var _ := Contract.BatchTransfer(client, config.funder, Receivers(config, batch));
  }

  // Record k after the chain has applied, of the open batches, exactly those that were picked.
  ghost predicate Settled(was: Record, now: Record, picked: bool) {
    if Open(was) && picked then
      now.batch == was.batch && now.fate.Failed? && now.fate.error == was.fate.error && now.fate.applied.Some?
    else
      now == was
  }

  ghost predicate AllSettled(was: seq<Record>, now: seq<Record>, picks: seq<nat>) {
    |now| == |was| && forall k | 0 <= k < |was| :: Settled(was[k], now[k], k in picks)
  }

  lemma OneMoreSettled(was: seq<Record>, now: seq<Record>, next: seq<Record>, picks: seq<nat>, pick: nat)
    requires AllSettled(was, now, picks) && |next| == |now|
    requires forall k | 0 <= k < |was| :: Settled(now[k], next[k], k == pick)
    ensures AllSettled(was, next, picks + [pick])
  {
  }

  lemma LostButOne(was: seq<Record>, now: seq<Record>, lost: map<nat, seq<PendingEntry>>, pick: nat)
    requires CanStillApply(was, lost) && pick < |was| == |now| && !Open(now[pick])
    requires forall k | 0 <= k < |was| && k != pick :: now[k] == was[k]
    ensures CanStillApply(now, lost - {pick})
  {
  }

  method LateOnes(config: Config, client: TokenClient, lost: map<nat, seq<PendingEntry>>, picks: seq<nat>,
                  ghost start: Ledger, ghost before: seq<Event>, ghost s0: State)
    returns (left: map<nat, seq<PendingEntry>>, ghost events: seq<Event>, ghost s: State)
    requires client.policy == config.policy && client.ledger == s0.ledger
    requires Reaches(config, start, before, s0) && CanStillApply(s0.history, lost)
    modifies client
    ensures Reaches(config, start, events, s) && CanStillApply(s.history, left) && client.ledger == s.ledger
    ensures AllSettled(s0.history, s.history, picks) && Heard(events) == Heard(before)
    ensures s.pending == s0.pending && s.accepted == s0.accepted && s.sent == s0.sent && s.phase == s0.phase
  {
    left, events, s := lost, before, s0;
    for i := 0 to |picks|
      invariant Reaches(config, start, events, s) && CanStillApply(s.history, left) && client.ledger == s.ledger
      invariant AllSettled(s0.history, s.history, picks[..i]) && Heard(events) == Heard(before)
      invariant s.pending == s0.pending && s.accepted == s0.accepted && s.sent == s0.sent && s.phase == s0.phase
    {
      ghost var was := s.history;
      if picks[i] in left {
        HeardOne(events, Settle(picks[i]));
        events, s := ApplyLate(config, client, picks[i], left[picks[i]], start, events, s);
        LostButOne(was, s.history, left, picks[i]);
        left := left - {picks[i]};
      }
      OneMoreSettled(s0.history, was, s.history, picks[..i], picks[i]);
      assert picks[..i] + [picks[i]] == picks[..i + 1];
    }
    assert picks[..|picks|] == picks;
  }

  // ---------- The loop ----------

  lemma DispatchExtends(config: Config, start: Ledger, before: seq<Event>, s0: State, network: Network)
    returns (events: seq<Event>, s: State)
    requires Reaches(config, start, before, s0) && HonestNetwork(network)
    requires s0.phase.InFlight? && AllDecode(config, s0.phase.batch)
    ensures Reaches(config, start, events, s) && Heard(events) == Heard(before)
    ensures s.phase.Idle? && s.pending == s0.pending && s.accepted == s0.accepted
    ensures |s.history| == |s0.history| + 1 && s0.history <= s.history
    ensures var (ledger, submission) := Submitted(config, s0.ledger, network, s0.phase.batch);
            s.ledger == ledger && s.sent == s0.sent + Replies(submission, s0.phase.batch)
    ensures Reported(s.history[|s0.history|], network, s0.phase.batch,
                     Transfers(config, s0.ledger, s0.phase.batch).results)
  {
    var steps := DispatchEvents(config, s0.ledger, network, s0.phase.batch);
    DispatchIsDeaf(config, s0.ledger, network, s0.phase.batch);
    NothingHeard(before, steps);
    DispatchIsARun(config, s0, network);
    RunAppend(config, Init(start), before, steps);
    events, s := before + steps, Run(config, s0, steps).value;
  }

  // Drain; requests arrive while the batch is in flight; dispatch.
  method OneTurn(config: Config, queue: FaucetQueue, client: TokenClient, network: Network, during: seq<string>,
                 outbox: Outbox, ghost start: Ledger, ghost before: seq<Event>, ghost s0: State)
    returns (batch: seq<PendingEntry>, ghost events: seq<Event>, ghost s: State)
    requires queue.Valid() && queue.maxSize == config.maxSize
    requires client.policy == config.policy && HonestNetwork(network)
    requires Reaches(config, start, before, s0) && Mirrors(s0, queue, client, outbox)
    modifies queue, client, outbox
    ensures queue.Valid()
    ensures Reaches(config, start, events, s) && Mirrors(s, queue, client, outbox)
    ensures Heard(events) == Heard(before) + [Drain] + RequestsFor(during)
    // What was waiting is taken, and what waits now arrived since.
    ensures batch == old(queue.entries) && AllDecode(config, batch)
    ensures queue.channels == old(queue.channels) + |queue.entries|
    ensures forall i | 0 <= i < |queue.entries| ::
              queue.entries[i].responder == old(queue.channels) + i && queue.entries[i].address in during
    ensures AllAdmitted(config, queue.entries, during)
    // It is submitted once, and each of its requests is answered once.
    ensures batch == [] ==>
              client.ledger == old(client.ledger) && outbox.sent == old(outbox.sent) && s.history == s0.history
    ensures batch != [] ==>
              var (ledger, submission) := Submitted(config, old(client.ledger), network, batch);
              && client.ledger == ledger && outbox.sent == old(outbox.sent) + Replies(submission, batch)
              && |s.history| == |s0.history| + 1 && s0.history <= s.history
              && Reported(s.history[|s0.history|], network, batch,
                          Transfers(config, old(client.ledger), batch).results)
    ensures |outbox.sent| == |old(outbox.sent)| + |batch|
  {
    WaitingDecode(config, start, before, s0);
    batch := queue.Drain();
    RunStep(config, start, before, s0, Drain);
    HeardOne(before, Drain);
    events, s := Arrivals(config, queue, during, start, before + [Drain], Step(config, s0, Drain).value);
    if batch != [] {
      events, s := DispatchExtends(config, start, events, s, network);
      DispatchBatch(config, batch, client, network, outbox);
    }
  }

  lemma WaitingDecode(config: Config, start: Ledger, events: seq<Event>, s: State)
    requires Reaches(config, start, events, s)
    ensures AllDecode(config, s.pending)
  {
    ReachableInv(config, start, events, s);
  }

  // The record is what this network makes of a batch; one that it lost may have been applied since.
  ghost predicate Follows(r: Record, network: Network) {
    match network
    case Landed(hash, envelopeXdr, meta) =>
      r.fate.Confirmed? && r.fate == Confirmed(hash, envelopeXdr, meta(r.fate.results), r.fate.results)
    case Lost(error, applied) =>
      r.fate.Failed? && r.fate.error == error && (applied ==> r.fate.applied.Some?)
  }

  ghost predicate PickedAfter(schedule: seq<Tick>, turn: nat, k: nat) {
    exists u :: turn < u < |schedule| && k in schedule[u].late
  }

  // Batch k was submitted in turn number turns[k], met that turn's network, and if that lost it without applying it,
  // is applied exactly if a later turn says so.
  ghost predicate Told(schedule: seq<Tick>, turns: seq<nat>, history: seq<Record>) {
    && |turns| == |history|
    && (forall j, k | 0 <= j < k < |turns| :: turns[j] < turns[k])
    && (forall k | 0 <= k < |turns| ::
          && turns[k] < |schedule| && Follows(history[k], schedule[turns[k]].network)
          && (schedule[turns[k]].network.Lost? && !schedule[turns[k]].network.applied ==>
                (history[k].fate.applied.Some? <==> PickedAfter(schedule, turns[k], k))))
  }

  lemma LateKeepsTold(schedule: seq<Tick>, tick: Tick, turns: seq<nat>, was: seq<Record>, now: seq<Record>)
    requires Told(schedule, turns, was) && AllSettled(was, now, tick.late)
    ensures Told(schedule + [tick], turns, now) && forall k | 0 <= k < |turns| :: turns[k] < |schedule|
  {
    var longer := schedule + [tick];
    forall k | 0 <= k < |turns|
      ensures PickedAfter(longer, turns[k], k) <==> PickedAfter(schedule, turns[k], k) || k in tick.late
    {
      if k in tick.late {
        assert longer[|schedule|] == tick;
      }
      if u :| turns[k] < u < |schedule| && k in schedule[u].late {
        assert longer[u] == schedule[u];
      }
    }
    assert forall k | 0 <= k < |turns| ::
             longer[turns[k]] == schedule[turns[k]] && Settled(was[k], now[k], k in tick.late);
  }

  lemma TurnKeepsTold(schedule: seq<Tick>, turns: seq<nat>, history: seq<Record>, r: Record,
                      batch: seq<PendingEntry>, results: seq<bool>)
    requires schedule != [] && Told(schedule, turns, history)
    requires forall k | 0 <= k < |turns| :: turns[k] < |schedule| - 1
    requires Reported(r, schedule[|schedule| - 1].network, batch, results)
    ensures Told(schedule, turns + [|schedule| - 1], history + [r])
  {
  }

  // The loop's own list of lost batches after a submission.
  lemma TurnKeepsLost(history: seq<Record>, lost: map<nat, seq<PendingEntry>>, r: Record, network: Network,
                      batch: seq<PendingEntry>, results: seq<bool>)
    requires CanStillApply(history, lost) && Reported(r, network, batch, results)
    ensures CanStillApply(history + [r],
                          if network.Lost? && !network.applied then lost[|history| := batch] else lost)
  {
  }

  lemma TurnKeepsBooks(past: seq<Tick>, tick: Tick, turns: seq<nat>, settled: seq<Record>, now: seq<Record>,
                       left: map<nat, seq<PendingEntry>>, batch: seq<PendingEntry>, results: seq<bool>)
    requires Told(past + [tick], turns, settled) && forall k | 0 <= k < |turns| :: turns[k] < |past|
    requires CanStillApply(settled, left)
    requires |now| == |settled| + 1 && settled <= now && Reported(now[|settled|], tick.network, batch, results)
    ensures Told(past + [tick], turns + [|past|], now)
    ensures CanStillApply(now, if tick.network.Lost? && !tick.network.applied then left[|settled| := batch] else left)
  {
    var r := now[|settled|];
    assert now == settled + [r];
    TurnKeepsTold(past + [tick], turns, settled, r, batch, results);
    TurnKeepsLost(settled, left, r, tick.network, batch, results);
  }

  // What waits now arrived since the last drain, and nothing that arrived since and was not refused is missing.
  ghost predicate OnlySince(config: Config, entries: seq<PendingEntry>, during: seq<string>) {
    (forall i | 0 <= i < |entries| :: entries[i].address in during) && AllAdmitted(config, entries, during)
  }

  // One turn, with what happens between the last one and its drain.
  method OneTick(config: Config, queue: FaucetQueue, client: TokenClient, outbox: Outbox, tick: Tick,
                 lost: map<nat, seq<PendingEntry>>, record: nat, ghost past: seq<Tick>, ghost turns: seq<nat>,
                 ghost start: Ledger, ghost before: seq<Event>, ghost s0: State)
    returns (left: map<nat, seq<PendingEntry>>, next: nat, ghost turns': seq<nat>, ghost events: seq<Event>,
             ghost s: State)
    requires queue.Valid() && queue.maxSize == config.maxSize
    requires client.policy == config.policy && HonestNetwork(tick.network)
    requires Reaches(config, start, before, s0) && Mirrors(s0, queue, client, outbox)
    requires CanStillApply(s0.history, lost) && |s0.history| == record && Told(past, turns, s0.history)
    modifies queue, client, outbox
    ensures queue.Valid()
    ensures Reaches(config, start, events, s) && Mirrors(s, queue, client, outbox)
    ensures Heard(events) == Heard(before) + RequestsFor(tick.before) + [Drain] + RequestsFor(tick.during)
    ensures CanStillApply(s.history, left) && |s.history| == next && Told(past + [tick], turns', s.history)
    ensures OnlySince(config, queue.entries, tick.during)
  {
    events, s := Arrivals(config, queue, tick.before, start, before, s0);
    left, events, s := LateOnes(config, client, lost, tick.late, start, events, s);
    LateKeepsTold(past, tick, turns, s0.history, s.history);
    ghost var settled, ledger := s.history, client.ledger;
    var batch;
    batch, events, s := OneTurn(config, queue, client, tick.network, tick.during, outbox, start, events, s);
    next, turns' := record, turns;
    if batch != [] {
      TurnKeepsBooks(past, tick, turns, settled, s.history, left, batch, Transfers(config, ledger, batch).results);
      turns' := turns + [|past|];
      if tick.network.Lost? && !tick.network.applied {
        left := left[record := batch];
      }
      next := record + 1;
    }
  }

  // Any number of turns. What the objects hold at the end is a reachable state, so every theorem about runs holds of
  // them; and it is the run that the schedule calls for: the service hears exactly its requests and one drain a turn,
  // each batch meets its own turn's network, and everything that was accepted before the last drain is answered.
  method Serve(config: Config, queue: FaucetQueue, client: TokenClient, outbox: Outbox, schedule: seq<Tick>)
    returns (ghost events: seq<Event>, ghost s: State, ghost turns: seq<nat>)
    requires ValidConfig(config) && client.policy == config.policy
    requires queue.Valid() && queue.maxSize == config.maxSize
    requires queue.entries == [] && queue.channels == 0 && outbox.sent == []
    requires forall t | 0 <= t < |schedule| :: HonestNetwork(schedule[t].network)
    modifies queue, client, outbox
    ensures Reaches(config, old(client.ledger), events, s) && Mirrors(s, queue, client, outbox)
    ensures Heard(events) == Script(schedule) && Told(schedule, turns, s.history)
    ensures |outbox.sent| + |queue.entries| == queue.channels
    ensures forall i | 0 <= i < |outbox.sent| :: outbox.sent[i].responder == i
    ensures forall k | 0 <= k < |events| && events[k].Drain? ::
              && Run(config, Init(old(client.ledger)), events[..k]).Some?
              && |Run(config, Init(old(client.ledger)), events[..k]).value.accepted| <= |outbox.sent|
    ensures if schedule == [] then queue.entries == []
            else OnlySince(config, queue.entries, schedule[|schedule| - 1].during)
  {
    ghost var start := client.ledger;
    var lost: map<nat, seq<PendingEntry>>, records: nat := map[], 0;
    events, s, turns := [], Init(start), [];
    for t := 0 to |schedule|
      invariant queue.Valid() && Reaches(config, start, events, s) && Mirrors(s, queue, client, outbox)
      invariant CanStillApply(s.history, lost) && |s.history| == records
      invariant Heard(events) == Script(schedule[..t]) && Told(schedule[..t], turns, s.history)
      invariant if t == 0 then queue.entries == [] else OnlySince(config, queue.entries, schedule[t - 1].during)
    {
      assert schedule[..t + 1] == schedule[..t] + [schedule[t]];
      ScriptSnoc(schedule[..t], schedule[t]);
      lost, records, turns, events, s := OneTick(config, queue, client, outbox, schedule[t], lost, records,
                                                 schedule[..t], turns, start, events, s);
    }
    assert schedule[..|schedule|] == schedule;
    ExactlyOnce(config, start, events, s);
    forall k | 0 <= k < |events| && events[k].Drain?
      ensures Run(config, Init(start), events[..k]).Some?
      ensures |Run(config, Init(start), events[..k]).value.accepted| <= |outbox.sent|
    {
      AnsweredSinceDrain(config, start, events, s, k);
    }
  }
}
