// The faucet's queue: bounded, first in first out, one pending request an address.
module Queue {
  import opened Wrappers

  datatype Problem =
    | InvalidAddress(address: string)
    | QueueFull
    | AlreadyPending(address: string)
    | TransferFailed(address: string)
    | Internal(detail: string)
  {
    function Status(): nat {
      match this
      case InvalidAddress(_) => 400
      case TransferFailed(_) => 400
      case AlreadyPending(_) => 409
      case Internal(_) => 500
      case QueueFull => 503
    }
  }

  datatype SuccessResponse = SuccessResponse(successful: bool, hash: string, envelopeXdr: string)

  type Answer = Result<SuccessResponse, Problem>

  // `responder` names the one-shot channel on which the request waits for its answer.
  datatype PendingEntry = PendingEntry(address: string, responder: nat)

  predicate Waiting(entries: seq<PendingEntry>, address: string) {
    exists i :: 0 <= i < |entries| && entries[i].address == address
  }

  ghost predicate DistinctAddresses(entries: seq<PendingEntry>) {
    forall i, j | 0 <= i < j < |entries| :: entries[i].address != entries[j].address
  }

  ghost predicate Bounded(entries: seq<PendingEntry>, maxSize: nat) {
    |entries| <= maxSize && DistinctAddresses(entries)
  }

  // The queue after a request; the size check comes before the duplicate check.
  function Enqueued(entries: seq<PendingEntry>, maxSize: nat, address: string, responder: nat)
    : (r: Result<seq<PendingEntry>, Problem>)
    ensures r == if |entries| >= maxSize then Failure(QueueFull)
                 else if exists i :: 0 <= i < |entries| && entries[i].address == address then
                   Failure(AlreadyPending(address))
                 else Success(entries + [PendingEntry(address, responder)])
    ensures Bounded(entries, maxSize) && r.Success? ==> Bounded(r.value, maxSize)
    ensures r.Failure? ==> r.error.Status() == if |entries| >= maxSize then 503 else 409
  {
    if |entries| >= maxSize then
      Failure(QueueFull)
    else if Waiting(entries, address) then
      Failure(AlreadyPending(address))
    else
      Success(entries + [PendingEntry(address, responder)])
  }

  class FaucetQueue {
    const maxSize: nat
    var entries: seq<PendingEntry>
    // How many one-shot channels were made so far; the next one gets this number.
    var channels: nat

    ghost predicate Valid()
      reads this
    {
      && Bounded(entries, maxSize)
      && (forall i | 0 <= i < |entries| :: entries[i].responder < channels)
      && (forall i, j | 0 <= i < j < |entries| :: entries[i].responder < entries[j].responder)
    }

    constructor (maxSize: nat)
      ensures Valid() && this.maxSize == maxSize && entries == [] && channels == 0
    {
      this.maxSize := maxSize;
      entries := [];
      channels := 0;
    }

    method Enqueue(address: string) returns (r: Result<nat, Problem>)
      requires Valid()
      modifies this
      ensures Valid()
      ensures match Enqueued(old(entries), maxSize, address, old(channels))
              case Failure(e) => r == Failure(e) && entries == old(entries) && channels == old(channels)
              case Success(next) => r == Success(old(channels)) && entries == next && channels == old(channels) + 1
    {
      if |entries| >= maxSize {
        return Failure(QueueFull);
      }
      for i := 0 to |entries|
        invariant forall k | 0 <= k < i :: entries[k].address != address
      {
        if entries[i].address == address {
          return Failure(AlreadyPending(address));
        }
      }
      var responder := channels;
      channels := channels + 1;
      entries := entries + [PendingEntry(address, responder)];
      return Success(responder);
    }

    // Takes everything and leaves nothing.
    method Drain() returns (taken: seq<PendingEntry>)
      requires Valid()
      modifies this
      ensures Valid()
      ensures taken == old(entries) && entries == [] && channels == old(channels)
      ensures Bounded(taken, maxSize)
    {
      taken := entries;
      entries := [];
    }

    method Len() returns (n: nat)
      requires Valid()
      ensures n == |entries| <= maxSize
    {
      n := |entries|;
    }
  }
}
