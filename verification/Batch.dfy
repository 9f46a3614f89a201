// Dispatching one batch and answering its requests.
module Batch {
  import opened Wrappers
  import opened Token
  import opened Codec
  import opened Queue
  import Contract = BatchTransfer
  import Bits

  // The settings that a dispatch reads, with the strkey decoder and the token's policy.
  datatype Config = Config(amount: int, maxSize: nat, funder: Address, decode: Strkey, policy: Policy)

  ghost predicate ValidConfig(config: Config) {
    Bits.Signed(config.amount, 128) && Injective(config.decode)
  }

  predicate AllDecode(config: Config, entries: seq<PendingEntry>) {
    forall i | 0 <= i < |entries| :: config.decode(entries[i].address).Some?
  }

  // One payment of the configured amount for every entry, in order.
  function Payees(config: Config, entries: seq<PendingEntry>): seq<Payee> {
    seq(|entries|, i requires 0 <= i < |entries| => Payee(entries[i].address, config.amount))
  }

  function Receivers(config: Config, entries: seq<PendingEntry>): (receivers: seq<Contract.Receiver>)
    requires AllDecode(config, entries)
    ensures |receivers| == |entries|
    ensures forall i | 0 <= i < |entries| ::
              receivers[i] == Contract.Receiver(config.decode(entries[i].address).value, config.amount)
  {
    Resolve(config.decode, Payees(config, entries))
  }

  function Transfers(config: Config, ledger: Ledger, entries: seq<PendingEntry>): (o: Contract.Outcome)
    requires AllDecode(config, entries)
    ensures |o.results| == |entries|
  {
    Contract.Exec(config.policy, ledger, config.funder, Receivers(config, entries))
  }

  // ---------- Answers ----------

  // What `invoke_batch_transfer` gives back.
  type Submission = Result<(string, string, seq<bool>), string>

  // An error goes to everyone as a 500. Otherwise an entry is told success, with the transaction's hash and envelope,
  // unless there is one result for each entry and its own is false; then it is told 400 with its own address.
  function AnswerOf(submission: Submission, entries: seq<PendingEntry>, i: nat): (answer: Answer)
    requires i < |entries|
    ensures submission.Failure? ==>
              && answer == Failure(Internal("Batch transfer failed: " + submission.error))
              && answer.error.Status() == 500
    ensures submission.Success? && (|submission.value.2| != |entries| || submission.value.2[i]) ==>
              && answer.Success? && answer.value.successful
              && answer.value.hash == submission.value.0 && answer.value.envelopeXdr == submission.value.1
    ensures submission.Success? && |submission.value.2| == |entries| && !submission.value.2[i] ==>
              answer == Failure(TransferFailed(entries[i].address)) && answer.error.Status() == 400
  {
    match submission
    case Failure(e) => Failure(Internal("Batch transfer failed: " + e))
    case Success((hash, envelopeXdr, results)) =>
      if |results| == |entries| && !results[i] then
        Failure(TransferFailed(entries[i].address))
      else
        Success(SuccessResponse(true, hash, envelopeXdr))
  }

  datatype Reply = Reply(responder: nat, answer: Answer)

  function Replies(submission: Submission, entries: seq<PendingEntry>): (replies: seq<Reply>)
    ensures |replies| == |entries|
    ensures forall i | 0 <= i < |entries| ::
              replies[i] == Reply(entries[i].responder, AnswerOf(submission, entries, i))
  {
    seq(|entries|, i requires 0 <= i < |entries| => Reply(entries[i].responder, AnswerOf(submission, entries, i)))
  }

  // A confirmed batch tells entry i "Ok" iff its transfer succeeded, for every entry,
  // exactly when the meta could be read or no transfer failed.
  lemma AnswersAgreeIff(hash: string, envelopeXdr: string, meta: Option<Meta>,
                        entries: seq<PendingEntry>, results: seq<bool>)
    requires |results| == |entries| && Honest(meta, results)
    ensures (forall i | 0 <= i < |entries| ::
               AnswerOf(Success((hash, envelopeXdr, ResultsOf(meta, |entries|))), entries, i).Success? <==> results[i])
       <==> Readable(meta) || forall i | 0 <= i < |results| :: results[i]
  {
    ParsedIsReturnedIff(meta, results);
    var parsed := ResultsOf(meta, |entries|);
    if !(Readable(meta) || forall i | 0 <= i < |results| :: results[i]) {
      var i :| 0 <= i < |results| && !results[i];
      assert AnswerOf(Success((hash, envelopeXdr, parsed)), entries, i).Success?;
    }
  }

  // For any meta at all: entry i is told "Ok" unless a vector of the batch's length could be read and its item i is
  // anything but true.
  lemma AnswersFromMeta(hash: string, envelopeXdr: string, meta: Option<Meta>, entries: seq<PendingEntry>, i: nat)
    requires i < |entries|
    ensures AnswerOf(Success((hash, envelopeXdr, ResultsOf(meta, |entries|))), entries, i).Success?
       <==> forall items :: meta == Some(V3(Some(ScVec(Some(items))))) && |items| == |entries| ==>
              items[i] == ScBool(true)
  {
    WhatIsRead(meta, |entries|);
  }

  // The whole return path: with readable meta of the contract's own results, entry i is told "Ok" iff its transfer
  // went through in the ledger that the first i transfers left.
  lemma AnswerIsTransferFate(config: Config, ledger: Ledger, hash: string, envelopeXdr: string, meta: Option<Meta>,
                             entries: seq<PendingEntry>, i: nat)
    requires AllDecode(config, entries) && i < |entries|
    requires Readable(meta) && Honest(meta, Transfers(config, ledger, entries).results)
    ensures AnswerOf(Success((hash, envelopeXdr, ResultsOf(meta, |entries|))), entries, i).Success?
       <==> Transfer(config.policy,
                     Contract.Exec(config.policy, ledger, config.funder, Receivers(config, entries)[..i]).ledger,
                     config.funder, config.decode(entries[i].address).value, config.amount).Some?
  {
    AnswersAgreeIff(hash, envelopeXdr, meta, entries, Transfers(config, ledger, entries).results);
    Contract.ResultAt(config.policy, ledger, config.funder, Receivers(config, entries), i);
  }

  // ---------- Imperative form ----------

  // Everything that was sent on the one-shot channels, in order.
  class Outbox {
    var sent: seq<Reply>

    constructor ()
      ensures sent == []
    {
      sent := [];
    }

    method Send(responder: nat, answer: Answer)
      modifies this
      ensures sent == old(sent) + [Reply(responder, answer)]
    {
      sent := sent + [Reply(responder, answer)];
    }
  }

  // What the network does with one submission: whether the chain applies it, and what the RPC client then reports.
  datatype Network =
    | Landed(hash: string, envelopeXdr: string, meta: seq<bool> -> Option<Meta>)
    | Lost(error: string, applied: bool)

  ghost predicate HonestNetwork(network: Network) {
    network.Landed? ==> forall results :: Honest(network.meta(results), results)
  }

  const BAD_ADDRESS := "Invalid G address"

  // What a submission does to the ledger and reports back. A batch with an address that does not decode is never sent.
  function Submitted(config: Config, ledger: Ledger, network: Network, entries: seq<PendingEntry>)
    : (Ledger, Submission)
  {
    if !AllDecode(config, entries) then
      (ledger, Failure(BAD_ADDRESS))
    else
      var o := Transfers(config, ledger, entries);
      match network
      case Landed(hash, envelopeXdr, meta) =>
        (o.ledger, Success((hash, envelopeXdr, ResultsOf(meta(o.results), |entries|))))
      case Lost(error, applied) => (if applied then o.ledger else ledger, Failure(error))
  }

  // Encode, let the chain decode and run the contract, read the results back.
  method Invoke(config: Config, client: TokenClient, network: Network,
                ghost entries: seq<PendingEntry>, payees: seq<Payee>)
    returns (submission: Submission)
    requires ValidConfig(config) && client.policy == config.policy
    requires payees == Payees(config, entries)
    modifies client
    ensures (client.ledger, submission) == Submitted(config, old(client.ledger), network, entries)
    ensures !AllDecode(config, entries) ==> client.ledger == old(client.ledger) && submission.Failure?
  {
    EncodeFailsAtFirst(config.decode, payees);
    assert Decodable(config.decode, payees) <==> AllDecode(config, entries) by {
      assert forall i | 0 <= i < |entries| :: payees[i].address == entries[i].address;
    }
    var encoded := EncodeReceivers(config.decode, payees);
    if encoded.Failure? {
      return Failure(BAD_ADDRESS);
    }
    EncodeThenDecode(config.decode, payees);
    var receivers := DecodeReceivers(encoded.value).value;
    match network {
      case Landed(hash, envelopeXdr, meta) =>
        var results := Contract.BatchTransfer(client, config.funder, receivers);
        return Success((hash, envelopeXdr, ResultsOf(meta(results), |payees|)));
      case Lost(error, applied) =>
        if applied {
          var _ := Contract.BatchTransfer(client, config.funder, receivers);
        }
        return Failure(error);
    }
  }

  method DispatchBatch(config: Config, entries: seq<PendingEntry>, client: TokenClient, network: Network,
                       outbox: Outbox)
    requires ValidConfig(config) && client.policy == config.policy
    modifies client, outbox
    ensures var (ledger, submission) := Submitted(config, old(client.ledger), network, entries);
            client.ledger == ledger && outbox.sent == old(outbox.sent) + Replies(submission, entries)
    ensures |outbox.sent| == |old(outbox.sent)| + |entries|
  {
    var payees := Payees(config, entries);
    var result := Invoke(config, client, network, entries, payees);
    ghost var replies := Replies(result, entries);
    match result {
      case Success((hash, envelopeXdr, results)) =>
        var hasPerEntry := results != [] && |results| == |entries|;
        for i := 0 to |entries|
          invariant outbox.sent == old(outbox.sent) + replies[..i]
          modifies outbox
        {
          assert replies[..i + 1] == replies[..i] + [replies[i]];
          var entry := entries[i];
          var succeeded := if hasPerEntry then results[i] else true;
          if succeeded {
            outbox.Send(entry.responder, Success(SuccessResponse(true, hash, envelopeXdr)));
          } else {
            outbox.Send(entry.responder, Failure(TransferFailed(entry.address)));
          }
        }
      case Failure(e) =>
        for i := 0 to |entries|
          invariant outbox.sent == old(outbox.sent) + replies[..i]
          modifies outbox
        {
          assert replies[..i + 1] == replies[..i] + [replies[i]];
          outbox.Send(entries[i].responder, Failure(Internal("Batch transfer failed: " + e)));
        }
    }
    assert replies[..|entries|] == replies;
  }

  // One turn of `batch_loop`.
  method Turn(config: Config, queue: FaucetQueue, client: TokenClient, network: Network, outbox: Outbox)
    requires ValidConfig(config) && client.policy == config.policy && queue.Valid()
    modifies queue, client, outbox
    ensures queue.Valid() && queue.entries == [] && queue.channels == old(queue.channels)
    ensures if old(queue.entries) == [] then
              client.ledger == old(client.ledger) && outbox.sent == old(outbox.sent)
            else
              var (ledger, submission) := Submitted(config, old(client.ledger), network, old(queue.entries));
              client.ledger == ledger && outbox.sent == old(outbox.sent) + Replies(submission, old(queue.entries))
    ensures |outbox.sent| == |old(outbox.sent)| + |old(queue.entries)|
  {
    var entries := queue.Drain();
    if entries == [] {
      return;
    }
    DispatchBatch(config, entries, client, network, outbox);
  }
}
