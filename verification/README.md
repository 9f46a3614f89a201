# A verified model of the batching faucet

BestFriendBot hands out tokens. HTTP requests are queued, a background task drains the queue every few seconds, submits one
transaction that calls the `batch_transfer` contract for all drained addresses, and answers each request with what happened to
its own transfer. This project models that pipeline in Dafny and proves what it promises, over every run.

The pieces, from the chain outwards:

- `Token.dfy`, `BatchTransfer.dfy`, `BatchOrder.dfy`: the token as a balance ledger, the contract's loop of transfers that can
  fail alone, conservation, the closed form of a batch under a tight balance, and exactly when the order of a batch matters.
- `Bits.dfy`, `Codec.dfy`: two's-complement operations bit by bit, the 128-bit amount as an i64 and a u64, the receiver list
  on the wire and back, and the contract's results read out of the transaction meta.
- `Fees.dfy`, `Transaction.dfy`: the padding of simulated limits, the fee, and build, assemble and sign.
- `Queue.dfy`, `Batch.dfy`: the queue and the dispatch of a batch as classes and methods.
- `Faucet.dfy`: the system of interleaved steps. A request may arrive at any time; the background loop drains, submits, is told of success
  or failure, answers entry by entry, and finishes. A submission reported as failed may have been applied already, may be
  applied at any later moment, or never.
- `FaucetLog.dfy`, `FaucetMoney.dfy`, `FaucetAccounts.dfy`, `FaucetTruth.dfy`: what every run keeps about requests and answers,
  progress, the refinement of serving one request at a time, the accounting of tokens against answers, and exactly when every
  answer is true.
- `Service.dfy`: the handler and the loop over the queue, the token and the channels, proved to be a run of that system.
- `Gaps.dfy`, `BatchSize.dfy`: the count of missing ledgers and the search for the largest batch that fits.

`dafny verify dfyconfig.toml` checks everything.

Assumptions that the statements carry in the open: strkey decoding is a given injective partial function; SHA-256, Ed25519 and
XDR are given functions, of which only "a signature verifies" and "a public key has 32 bytes" are used; a transfer goes through
iff the amount is not negative, the sender can pay and the receiver accepts (a fixed predicate and a limit per account); meta
that the faucet can read carries what the contract returned.

## What turned out

- A request can be told the wrong thing in two ways. Meta of any version but V3 is read as "all succeeded"
  (faucet/src/tx.rs:370-384), so a failed transfer can be answered with a success; and an error after the transaction was sent
  (faucet/src/tx.rs:227-242) answers 500 to transfers that the chain may have made or may yet make.
  `FaucetAccounts.HiddenFailureHappens` and `FaucetAccounts.LateFailureHappens` give a run of each.
  `FaucetTruth.AnswersAreTrueIff` says exactly when every request is told the truth, and `FaucetTruth.UnreadableIsTrueIff` when
  unreadable meta does no harm, in terms of the ledger that the batch meets. For amounts, `FaucetAccounts.Accounting` is the
  equation that holds in any case; the two errors can cancel within an account (`FaucetAccounts.AnswersMatchBalancesIff`).
  The project's own README promises a per-recipient result without these conditions.
- `fee: total_fee as u32` is the buffered fee plus 100 exactly for simulated fees from 0 to 3758096296; one more and the
  transaction offers a fee of 0 (`Fees.FeeIsFaithfulIff`, `Fees.FeeWraps`).
- The comment at faucet/src/tx.rs:261 speaks of a 15% buffer; the code adds a seventh, which stays below 15%
  (`Fees.BufferShape`). The model follows the code.
- The duplicate check looks at the queue only, so an address can have two unanswered requests, and not three
  (`FaucetLog.TwoOpenHappens`, `FaucetLog.AtMostTwoOpen`).
- The number of ledgers that CONSECUTIVE prints counts transactions; it is the length of the interval iff no ledger holds two of
  them (`Gaps.CountIsLengthIff`).

## Model

| member | source | states |
|---|---|---|
| Token.TransferMoves | contracts/batch_transfer/src/test.rs:77-82 | a transfer that goes through keeps the supply and the sign of every balance, moves the amount from sender to receiver and touches no one else; to oneself it changes nothing |
| Token.TransferIff | contracts/batch_transfer/src/lib.rs:21-22 | the same condition for the transfer itself, in the entries of the ledger and the policy |
| Token.TokenClient.TryTransfer | contracts/batch_transfer/src/lib.rs:21-22 | one transfer in place: carried out iff the amount is not negative, the sender has it and the receiver is authorized and stays within its limit, debit first; otherwise the old ledger is restored |
| BatchTransfer.BatchTransfer | contracts/batch_transfer/src/lib.rs:9-26 | the loop leaves the ledger and returns the results that `Exec` describes, for any receiver list |
| BatchTransfer.ResultAt | contracts/batch_transfer/src/lib.rs:20-23 | result i is the fate of transfer i in the ledger that the first i transfers leave, and does not depend on later ones |
| BatchTransfer.ExecAppend | contracts/batch_transfer/src/lib.rs:18-25 | a concatenated list is its first part followed by its second |
| BatchTransfer.Conservation | contracts/batch_transfer/src/lib.rs:18-25 | for any list, duplicates and the sender included: supply kept, no balance negative, the sender loses what went to others, everyone else gains what went to them |
| BatchTransfer.LimitsHold | contracts/batch_transfer/src/lib.rs:18-25 | after any list, nobody is above the start, other than an authorized account within its limit |
| BatchTransfer.ClosedForm | contracts/batch_transfer/src/lib.rs:20-23 | constant amount, distinct receivers, not the sender: entry i is paid iff it accepts at the start and fewer than balance / amount accepting ones precede it; and the sender's balance afterwards |
| BatchTransfer.ReceiverBalance | contracts/batch_transfer/src/lib.rs:20-23 | each receiver's balance after such a batch |
| BatchTransfer.BystanderBalance | contracts/batch_transfer/src/lib.rs:20-23 | an account that is neither sender nor receiver keeps its balance |
| BatchOrder.OrderIndependence | contracts/batch_transfer/src/lib.rs:20-25 | with money for all accepting receivers, or for none, a reordering changes no balance and no address's outcome |
| BatchOrder.OrderMatters | contracts/batch_transfer/src/lib.rs:20-25 | with money for some but not all, some reordering changes a balance |
| BatchOrder.OrderIrrelevantIff | contracts/batch_transfer/src/lib.rs:20-25 | the two together: order is irrelevant iff balance / amount is not positive or covers every accepting receiver |
| BatchOrder.AllPaidIff | contracts/batch_transfer/src/lib.rs:20-25 | every transfer goes through iff every receiver accepts at the start and balance / amount covers the batch |
| Codec.PartsAreDivMod | faucet/src/tx.rs:59-64 | the shift and the cast are floor division and remainder by 2^64, for negative values as well |
| Codec.ReconstructedIsSum | faucet/src/tx.rs:461 | shifting back and or-ing is hi * 2^64 + lo |
| Codec.SplitThenJoin | faucet/src/tx.rs:59-64 | every i128 splits into an i64 and a u64 that join to it again |
| Codec.JoinThenSplit | faucet/src/tx.rs:455-466 | every i64 and u64 join to an i128 that splits into them |
| Codec.SplitKeepsOrder | faucet/src/tx.rs:59-64 | lexicographic order on the parts is the order on the values |
| Codec.EncodeThenDecode | faucet/src/tx.rs:144-156 | the contract receives the list that was meant, with the same length, order, accounts and amounts |
| Codec.EncodeFailsAtFirst | faucet/src/tx.rs:145-155 | encoding fails iff some address does not decode, and reports the first such address |
| Codec.EncodeInjective | faucet/src/tx.rs:145-156 | different lists have different encodings |
| Codec.EncodedForm | faucet/src/tx.rs:144-156 | the wire form, field by field: a vector of pairs of account and amount, the amount as quotient and remainder by 2^64 |
| Codec.WhatIsRead | faucet/src/tx.rs:370-384 | a vector in V3 meta is read item by item, true only for the boolean true; everything else reads as all true |
| Codec.ParsedIsReturnedIff | faucet/src/tx.rs:233-237 | the parsed results are the contract's iff the meta is V3 with a vector or no transfer failed |
| Fees.BufferedIsEightSevenths | faucet/src/tx.rs:263-265 | the buffered limit is min(2^32 - 1, floor(8x / 7)) |
| Fees.BufferCoversIff | faucet/src/tx.rs:261-265 | a need y is covered iff 7y is at most 8x |
| Fees.BufferShape | faucet/src/tx.rs:261-265 | never below x, monotone, at the maximum exactly from 3758096384 on, below 15 percent |
| Fees.BufferedFeeIsEightSevenths | faucet/src/tx.rs:266-267 | over every i64, the fee becomes eight sevenths in size, rounded toward zero for either sign, until the i64 saturates |
| Fees.TotalFeeIs | faucet/src/tx.rs:296-301 | the fee field for every buffered i64: 2^32 - 1 from -100 to -1, otherwise the fee plus 100 modulo 2^32 |
| Fees.FeeIsFaithfulIff | faucet/src/tx.rs:266-301 | over every i64 resource fee, negative ones too: the fee field is the buffered fee plus 100 iff 0 <= r <= 3758096296 |
| Fees.FeeIsMonotone | faucet/src/tx.rs:296-301 | on that range the fee is r + r/7 + 100 and grows with r |
| Fees.FeeWraps | faucet/src/tx.rs:301 | at the next value the fee is 0 |
| Transaction.AssembleTransaction | faucet/src/tx.rs:247-313 | which error comes first; on success the result has the same source, sequence number, preconditions and memo, no signatures, and one operation: the first one's source and call with exactly the first result's auth entries, in order; limits are padded, and the fee is that of the padded data, faithful on the exact range |
| Transaction.SigningKeepsTheTransaction | faucet/src/tx.rs:315-368 | the transaction is untouched, old signatures are replaced by exactly one, over this transaction and network, with the last four bytes of the key as hint; it verifies, and signing again changes nothing |
| Transaction.PrepareBatch | faucet/src/tx.rs:132-212 | succeeds iff every address decodes and every RPC answer is usable, and otherwise reports the first problem; the signed transaction is the funder's, with the next sequence number, no preconditions or memo, the simulated auth, padded limits, the fee on its exact range, and one call that decodes to the payees |
| Queue.Enqueued | faucet/src/queue.rs:30-47 | accepted iff there is room and the address is not waiting; full is reported before duplicate; bound and distinctness are kept |
| Queue.FaucetQueue.constructor | faucet/src/queue.rs:23-28 | a new queue is empty and keeps its bound |
| Queue.FaucetQueue.Enqueue | faucet/src/queue.rs:30-47 | in place: the new entry goes last with a fresh channel, or nothing changes |
| Queue.FaucetQueue.Drain | faucet/src/queue.rs:49-52 | returns all entries in order and leaves none |
| Queue.FaucetQueue.Len | faucet/src/queue.rs:54-56 | the number of waiting entries, never above the bound |
| Batch.AnswerOf | faucet/src/batch.rs:57-80 | the whole answer: success with the transaction's hash and envelope iff submitted and the results are of another length or say so; otherwise 400 with the entry's own address; an error is a 500 with its text for everyone |
| Batch.AnswersAgreeIff | faucet/src/batch.rs:56-69 | every entry of a confirmed batch is told the truth iff the meta was readable or no transfer failed |
| Batch.AnswersFromMeta | faucet/src/batch.rs:57-70 | for any meta at all: success unless a vector of the batch's length could be read whose item is anything but true |
| Batch.AnswerIsTransferFate | faucet/src/batch.rs:57-70 | through the whole return path, entry i is told success iff its transfer went through after the first i transfers |
| Batch.Invoke | faucet/src/tx.rs:132-245 | encode, let the contract run on what the chain decodes, read the results back; a list that does not encode is never sent |
| Batch.DispatchBatch | faucet/src/batch.rs:31-84 | one answer for each entry, in order, on its own channel, on both arms |
| Batch.Turn | faucet/src/batch.rs:20-28 | one turn of the loop: the queue is emptied, and its entries are submitted and answered |
| FaucetLog.ReachableInv | faucet/src/batch.rs:20-84 | the inductive invariant of all steps: bounds, log and replies |
| FaucetLog.NothingLost | faucet/src/queue.rs:30-52 | the accepted requests, in order, are the dispatched batches and then the queue |
| FaucetLog.ExactlyOnce | faucet/src/batch.rs:62-81 | answer number i goes to request i; at rest exactly the requests that left the queue are answered, each with its batch's answer |
| FaucetLog.AnswersAreExact | faucet/src/batch.rs:56-82 | in every reachable state, the answer to entry p of batch k is exactly a success with that batch's hash and envelope, a refusal with the request's address (iff the meta was readable and its transfer failed), or the batch's error as a 500 |
| FaucetLog.EveryAnswerHasItsBatch | faucet/src/batch.rs:62-81 | every answer that was sent belongs to an entry of a submitted batch |
| FaucetLog.AnsweredSinceDrain | faucet/src/batch.rs:20-28 | whenever the loop is idle again, everything that was accepted before any drain has been answered |
| FaucetLog.AnswersAreFinal | faucet/src/batch.rs:73 | later steps withdraw no acceptance and change no answer |
| FaucetLog.DrainTakesAll | faucet/src/queue.rs:49-52 | a drain takes every accepted request that no earlier batch took, in order |
| FaucetLog.EveryBatchEncodes | faucet/src/api.rs:30-35 | addresses are validated before they are queued, so every drained batch encodes and decodes to one payment an entry |
| FaucetLog.WhatCanHappen | faucet/src/tx.rs:227-242 | in each reachable state: a batch in flight can be applied, one that was given up can still be applied at any time, and a batch being answered has a next step |
| FaucetLog.AtMostTwoOpen | faucet/src/queue.rs:35-40 | at most two unanswered requests an address and 2 * max_size in all |
| FaucetLog.TwoOpenHappens | faucet/src/queue.rs:38 | two are reached, because the check does not see the batch in flight |
| FaucetLog.EveryBatchIsGood | faucet/src/batch.rs:22-25 | every batch has between 1 and max_size entries, with distinct addresses that decode |
| FaucetLog.EverythingIsAnswered | faucet/src/batch.rs:20-28 | whatever submissions report and the chain applies meanwhile: without new requests, every run with at least 2 * max_size + 7 steps of the loop has answered everything and emptied the queue |
| FaucetLog.EverythingCanBeAnswered | faucet/src/batch.rs:20-28 | such a run exists, of at most 2 * max_size + 5 steps, even if every submission fails |
| FaucetLog.DispatchIsARun | faucet/src/batch.rs:31-84 | a dispatch is a sequence of steps of the system with the same ledger and replies, and leaves the queue alone |
| FaucetLog.TurnIsARun | faucet/src/batch.rs:20-84 | a turn of the imperative loop is a sequence of steps of the system with the same ledger and replies |
| FaucetMoney.BatchIsOneAtATime | contracts/batch_transfer/src/lib.rs:18-25 | one call for a batch is one call for each entry |
| FaucetMoney.SerialEquivalence | faucet/src/batch.rs:36-82 | whatever fails or is applied late, the ledger is that of serving what the chain processed one at a time, in the chain's order; these are accepted requests, none processed twice |
| FaucetMoney.TokensAreConserved | contracts/batch_transfer/src/lib.rs:18-25 | over every run supply is kept, no balance goes negative, and the funder pays exactly for the transfers to others that went through |
| FaucetMoney.LimitsHoldOverRuns | contracts/batch_transfer/src/lib.rs:18-25 | over every run, an account above where it started is authorized and within its limit |
| FaucetMoney.BatchingRefinesOneAtATime | faucet/src/batch.rs:20-28 | with every batch confirmed and readable, ledger and answers are those of serving the accepted requests one at a time |
| FaucetMoney.CutsDoNotMatter | faucet/src/batch.rs:20-28 | so two such runs that accepted the same requests agree, wherever the drains fell |
| FaucetAccounts.RecordBalances | faucet/src/batch.rs:52-82 | for one batch and account: successes told plus transfers of a failed batch are transfers made plus successes told falsely |
| FaucetAccounts.AnswerCounts | faucet/src/batch.rs:52-82 | the same over every reachable state |
| FaucetAccounts.Accounting | faucet/src/batch.rs:36-82 | in every reachable state, the exact equation between an account's gain and the answers, with no hypothesis on meta or failures |
| FaucetAccounts.AccountingAtRest | faucet/src/batch.rs:36-82 | with readable meta and between batches, the gain outside failed batches is the amount for each success told |
| FaucetAccounts.OkNeverOverclaims | faucet/src/batch.rs:74-82 | with readable meta, at every moment, successes told never exceed what was credited |
| FaucetAccounts.AnswersMatchBalancesIff | faucet/src/batch.rs:36-82 | at rest, in any run: answers match the balances of all accounts iff the amount is 0 or each account has as many false successes as late payments |
| FaucetAccounts.NothingHiddenIff | faucet/src/tx.rs:370-384 | where no batch reported as failed was applied and the amount is positive: iff no confirmed batch with unreadable meta hides a failed transfer |
| FaucetAccounts.GainIsBounded | faucet/src/queue.rs:30-47 | at every moment of every run, an account has gained at most the amount for each accepted request for it |
| FaucetAccounts.HiddenFailureHappens | faucet/src/tx.rs:382-383 | a run in which a request is told success and nothing moved |
| FaucetAccounts.LateFailureHappens | faucet/src/tx.rs:227-242 | a run in which a request is told 500 and its tokens moved |
| FaucetTruth.RecordTruth | faucet/src/batch.rs:52-82 | for one batch: each entry is told success iff its transfer went through, exactly when the batch is confirmed and readable or without failures, or reported as failed and not applied or without successes |
| FaucetTruth.AnswersAreTrueIff | faucet/src/tx.rs:227-245 | in every idle state of every run: each request is told success iff the chain made its transfer, exactly when every batch is truthful in that sense |
| FaucetTruth.GainIsPaidRequests | faucet/src/batch.rs:36-82 | in every reachable state, an account's gain is the amount times the number of accepted requests for it whose transfer went through |
| FaucetTruth.UnreadableIsTrueIff | faucet/src/tx.rs:370-384 | a drained batch confirmed with unreadable meta is answered truthfully iff, in the ledger it is applied to, every address accepts and the funder has the amount for all |
| FaucetAccounts.DrainedBatchIsPaidInOrder | faucet/src/queue.rs:38-40 | the queue's duplicate check makes every drained batch fit the closed form, so the earliest accepting requests are paid |
| Service.FundHandler | faucet/src/api.rs:24-43 | validate, then full, then duplicate: the exact answer, and on success the new entry last on a fresh channel; the effect is the system's request step |
| Service.Arrivals | faucet/src/api.rs:24-43 | every request of a list becomes an event, in order; each valid address waits afterwards unless the queue is full, and nothing else is added |
| Service.OneTurn | faucet/src/batch.rs:20-28 | the batch is all that was waiting; what waits afterwards arrived during the submission, on fresh channels, and no address of that time is missing that was valid and had room; the batch is submitted once and each of its entries answered once, and the objects are again a reachable state |
| Service.ApplyLate | faucet/src/tx.rs:227-230 | the chain applies a batch that was given up: the system's settling step |
| Service.LateOnes | faucet/src/tx.rs:227-230 | exactly the picked ones among the batches that were given up are applied |
| Service.Serve | faucet/src/main.rs:49-62 | for any schedule of turns: the run hears exactly its requests and one drain a turn, in order; each batch meets its own turn's network, and a lost one is applied iff a later turn picks it; everything accepted before any drain is answered, and what still waits came after the last one |
| Gaps.DigitsReadBack | scripts/submit_every_ledger.sh:239-243 | a printed number is recognised by the filter and read back |
| Gaps.ValueAppend | scripts/submit_every_ledger.sh:257-259 | numbers are read as decimal: a word followed by k digits counts 10^k times |
| Gaps.NumbersAppend | scripts/submit_every_ledger.sh:239-243 | the filter takes the words one by one and keeps their order |
| Gaps.NumbersOfWord | scripts/submit_every_ledger.sh:239-243 | a printed number gives that number; an empty word or one with a character that is no digit, such as FAILED, UNKNOWN and NOT_FOUND, gives none |
| Gaps.SortSorts | scripts/submit_every_ledger.sh:250-252 | the sorted list is ascending and a permutation |
| Gaps.CountedGrows | scripts/submit_every_ledger.sh:257-266 | a step to the next number keeps count, longest run and listing exact |
| Gaps.CountGaps | scripts/submit_every_ledger.sh:250-266 | the loop's totals between the least and the greatest number |
| Gaps.WholeIffNoneMissing | scripts/submit_every_ledger.sh:268-270 | none missing iff the set of values has no hole |
| Gaps.CountIsLengthIff | scripts/submit_every_ledger.sh:270 | the printed count is the interval's length iff the numbers are distinct |
| Gaps.CheckConsecutive | scripts/submit_every_ledger.sh:235-274 | too few numbers, or consecutive iff the values are a whole interval, or the exact number missing, the longest missing run and every gap |
| BatchSize.FitsIffBindingWithin | contracts/batch_transfer/src/test.rs:150-174 | a batch fits iff its binding percentage is at most 100 |
| BatchSize.FitsIffEachWithin | contracts/batch_transfer/src/test.rs:154-161 | the six comparisons in the measured fields; the footprint is disk reads, memory reads and writes |
| BatchSize.BindingIsGreatestShare | contracts/batch_transfer/src/test.rs:163-174 | the binding constraint names the field with the greatest share of its limit, the last of these on a tie |
| BatchSize.LastMaxIsGreatest | contracts/batch_transfer/src/test.rs:173 | the binding constraint is the last of the greatest |
| BatchSize.BindingIsExceeded | contracts/batch_transfer/src/test.rs:163-174 | for a batch that does not fit, the named limit is one that is exceeded |
| BatchSize.FindMax | contracts/batch_transfer/src/test.rs:217-238 | for any bounds and test: the result's two edges, the maximum when the test is downward closed, and at most ceil(log2(hi - lo + 1)) probes, all in range |
| BatchSize.FindMaxBatchSize | contracts/batch_transfer/src/test.rs:217-246 | with use that grows with the batch: the sizes up to the result, and no others in range, keep all six measured uses within their limits; one more is over 100 percent |

## Left out

- Service.Serve: a lost batch that is applied late is applied between two turns, and requests arrive during a submission but not between two answers of one batch; the system of steps has all of these interleavings.
- FaucetTruth.UnreadableIsTrueIff: a batch with a request for the funder's own account, or an amount that is not positive, is outside the closed form that it rests on.
- RPC calls, polling, ledger lookups and startup checks: a submission is a step whose report says nothing about the chain when it is an error.
- Transfers of the token by anyone but the faucet: the ledger changes through batches alone.
- Issuer rules of the asset contract, authorization and TTLs: the token library is not part of this model, and issuer transfers would mint or burn.
- i128 overflow inside the token: balances are unbounded integers, and an account's limit stands for its width.
- Whether a client still listens, timer ticks, mutex poisoning, panics and the async runtime: each mutex-guarded call is one step, and a send counts as the answer.
- Channels: a one-shot channel is its number, in order of creation, and `Send` appends to one log; that the Rust sender is consumed by use is proved as a property of runs instead.
- axum routes, trimming of the query parameter, JSON and the wording of problem details beyond their status and address.
- `build_receiver_sc_val`: the submission path does not use it.
- Transaction.PrepareBatch: stops before submission; the transaction hash, the base64 envelope and the limit on XDR vector lengths are not computed.
- Batch.Invoke: reports one message for an address that does not decode; which address is the first is stated by Codec.EncodeFailsAtFirst.
- BatchSize.FitsIffBindingWithin: percentages are exact reals, because f64 rounding is not the point; sums of entry counts do not wrap at 32 bits.
- BatchSize.FindMax: bounds are natural numbers, so lo + hi + 1 does not wrap at 32 bits; the source searches from 1 to 199.
- Gaps.CheckConsecutive: numbers are unbounded and decimal; the shell would read a leading zero as octal and wrap at 64 bits, and ledger sequences printed by the query step have neither.
- The interval search of `phase3_find_interval`, the snapshots and the end-to-end script: live or finite evidence.
