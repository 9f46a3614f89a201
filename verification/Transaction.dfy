// From receivers to a signed transaction: build, simulate, assemble, sign.
module Transaction {
  import opened Wrappers
  import opened Token
  import opened Codec
  import opened Fees
  import Contract = BatchTransfer
  import Bits

  datatype AuthEntry = AuthEntry(xdr: string)

  datatype HostFunction =
    | InvokeContract(contract: Address, name: string, args: seq<ScVal>)
    | OtherHostFunction

  datatype Body =
    | InvokeHostFunction(call: HostFunction, auth: seq<AuthEntry>)
    | OtherBody

  datatype Operation = Operation(source: Option<Address>, body: Body)

  datatype Preconditions = NoPreconditions | TimeBounds(minTime: nat, maxTime: nat)

  datatype Memo = NoMemo | Text(text: string)

  datatype Resources = Resources(footprint: seq<string>, instructions: int, diskReadBytes: int, writeBytes: int)

  datatype SorobanData = SorobanData(resources: Resources, resourceFee: int)

  datatype Ext = V0 | V1(data: SorobanData)

  datatype Tx = Tx(source: Address, fee: int, seqNum: int, cond: Preconditions, memo: Memo,
                   operations: seq<Operation>, ext: Ext)

  datatype Signature = Signature(hint: seq<byte>, bytes: seq<byte>)

  datatype Envelope = TxEnvelope(tx: Tx, signatures: seq<Signature>) | OtherEnvelope

  // A field is None where the response's base64 XDR does not parse.
  datatype Simulation = Simulation(error: Option<string>, transactionData: Option<SorobanData>,
                                   results: seq<seq<Option<AuthEntry>>>)

  // ---------- Assemble ----------

  predicate AllParsed(auth: seq<Option<AuthEntry>>) {
    forall i | 0 <= i < |auth| :: auth[i].Some?
  }

  function FirstAuth(sim: Simulation): seq<Option<AuthEntry>> {
    if sim.results == [] then [] else sim.results[0]
  }

  function Parsed(auth: seq<Option<AuthEntry>>): seq<AuthEntry>
    requires AllParsed(auth)
  {
    seq(|auth|, i requires 0 <= i < |auth| => auth[i].value)
  }

  // Every limit grown to eight sevenths, as far as its width allows; the footprint kept.
  ghost predicate Padded(x: SorobanData, y: SorobanData) {
    && y.resources.footprint == x.resources.footprint
    && PaddedLimit(x.resources.instructions, y.resources.instructions)
    && PaddedLimit(x.resources.diskReadBytes, y.resources.diskReadBytes)
    && PaddedLimit(x.resources.writeBytes, y.resources.writeBytes)
    && y.resourceFee == BufferedFee(x.resourceFee)
  }

  ghost predicate PaddedLimit(x: int, y: int) {
    y == if 8 * x / 7 < U32_MAX then 8 * x / 7 else U32_MAX
  }

  predicate InWidth(data: SorobanData) {
    && U32(data.resources.instructions) && U32(data.resources.diskReadBytes) && U32(data.resources.writeBytes)
    && I64(data.resourceFee)
  }

  // The first simulation result's authorization entries, in order; none without a result.
  ghost predicate AuthOf(sim: Simulation, auth: seq<AuthEntry>) {
    if sim.results == [] then
      auth == []
    else
      |auth| == |sim.results[0]| && forall i | 0 <= i < |auth| :: sim.results[0][i] == Some(auth[i])
  }

  method AssembleTransaction(envelope: Envelope, sim: Simulation) returns (r: Result<Envelope, TxError>)
    requires envelope.TxEnvelope? ==> envelope.tx.operations != []
    requires sim.transactionData.Some? ==> InWidth(sim.transactionData.value)
    ensures r.Success? <==>
              && envelope.TxEnvelope? && sim.transactionData.Some?
              && (sim.results == [] || forall i | 0 <= i < |sim.results[0]| :: sim.results[0][i].Some?)
              && envelope.tx.operations[0].body.InvokeHostFunction?
    ensures r.Failure? ==>
              r.error == (if envelope.OtherEnvelope? then ExpectedTx
                          else if sim.transactionData.None? then BadTransactionData
                          else if sim.results != [] && None in sim.results[0] then BadAuthEntry
                          else ExpectedInvoke)
    ensures r.Success? ==> r.value.TxEnvelope? && r.value.signatures == []
    ensures r.Success? ==>
              var tx, tx' := envelope.tx, r.value.tx;
              && tx'.source == tx.source && tx'.seqNum == tx.seqNum && tx'.cond == tx.cond && tx'.memo == tx.memo
              && |tx'.operations| == 1
              && tx'.operations[0].source == tx.operations[0].source
              && tx'.operations[0].body.InvokeHostFunction?
              && tx'.operations[0].body.call == tx.operations[0].body.call
              && AuthOf(sim, tx'.operations[0].body.auth)
              && tx'.ext.V1? && Padded(sim.transactionData.value, tx'.ext.data)
              && tx'.fee == TotalFee(tx'.ext.data.resourceFee)
              && (tx'.fee == tx'.ext.data.resourceFee + 100
                  <==> 0 <= sim.transactionData.value.resourceFee <= LAST_FAITHFUL_FEE)
  {
    if envelope.OtherEnvelope? {
      return Failure(ExpectedTx);
    }
    var tx := envelope.tx;
    if sim.transactionData.None? {
      return Failure(BadTransactionData);
    }
    var data := sim.transactionData.value;
    ghost var simulated := data;
    data := data.(resources := data.resources.(instructions := Buffered(data.resources.instructions)));
    data := data.(resources := data.resources.(diskReadBytes := Buffered(data.resources.diskReadBytes)));
    data := data.(resources := data.resources.(writeBytes := Buffered(data.resources.writeBytes)));
    data := data.(resourceFee := BufferedFee(data.resourceFee));
    var auth := FirstAuth(sim);
    if !AllParsed(auth) {
      return Failure(BadAuthEntry);
    }
    var op := tx.operations[0];
    if op.body.OtherBody? {
      return Failure(ExpectedInvoke);
    }
    var newOp := Operation(op.source, InvokeHostFunction(op.body.call, Parsed(auth)));
    var newTx := Tx(tx.source, TotalFee(data.resourceFee), tx.seqNum, tx.cond, tx.memo, [newOp], V1(data));
    BufferedIsEightSevenths(simulated.resources.instructions);
    BufferedIsEightSevenths(simulated.resources.diskReadBytes);
    BufferedIsEightSevenths(simulated.resources.writeBytes);
    FeeIsFaithfulIff(simulated.resourceFee);
    return Success(TxEnvelope(newTx, []));
  }

  // ---------- Sign ----------

  datatype Payload = Payload(networkId: seq<byte>, tx: Tx)

  // Ed25519 and SHA-256 over XDR, taken as given functions.
  datatype Crypto<!Key> = Crypto(
    networkId: string -> seq<byte>,
    digest: Payload -> seq<byte>,
    sign: (Key, seq<byte>) -> seq<byte>,
    verifyingKey: Key -> seq<byte>,
    verify: (seq<byte>, seq<byte>, seq<byte>) -> bool)

  ghost predicate Sound<Key(!new)>(crypto: Crypto<Key>) {
    && (forall key :: |crypto.verifyingKey(key)| == 32)
    && (forall key, message :: crypto.verify(crypto.verifyingKey(key), message, crypto.sign(key, message)))
  }

  function SignEnvelope<Key>(crypto: Crypto<Key>, envelope: Envelope, key: Key, passphrase: string)
    : Result<Envelope, TxError>
    requires |crypto.verifyingKey(key)| == 32
  {
    match envelope
    case OtherEnvelope => Failure(ExpectedTx)
    case TxEnvelope(tx, _) =>
      var message := crypto.digest(Payload(crypto.networkId(passphrase), tx));
      var hint := crypto.verifyingKey(key);
      Success(TxEnvelope(tx, [Signature([hint[28], hint[29], hint[30], hint[31]], crypto.sign(key, message))]))
  }

  // What a validator checks: one signature by this key, on this very transaction and network.
  ghost predicate SignedBy<Key>(crypto: Crypto<Key>, envelope: Envelope, key: Key, passphrase: string)
    requires |crypto.verifyingKey(key)| == 32
  {
    && envelope.TxEnvelope?
    && |envelope.signatures| == 1
    && envelope.signatures[0].hint == crypto.verifyingKey(key)[28..]
    && crypto.verify(crypto.verifyingKey(key), crypto.digest(Payload(crypto.networkId(passphrase), envelope.tx)),
                     envelope.signatures[0].bytes)
  }

  // Signing touches no field of the transaction, replaces whatever signatures there were, and verifies.
  lemma SigningKeepsTheTransaction<Key(!new)>(crypto: Crypto<Key>, envelope: Envelope, key: Key, passphrase: string)
    requires Sound(crypto)
    ensures var signed := SignEnvelope(crypto, envelope, key, passphrase);
            && (signed.Success? <==> envelope.TxEnvelope?)
            && (signed.Success? ==> signed.value.TxEnvelope? && signed.value.tx == envelope.tx)
            && (signed.Success? ==> SignedBy(crypto, signed.value, key, passphrase))
            && (signed.Success? ==>
                  signed.value.signatures
                  == [Signature(crypto.verifyingKey(key)[28..],
                                crypto.sign(key, crypto.digest(Payload(crypto.networkId(passphrase), envelope.tx))))])
            && (signed.Success? ==> SignEnvelope(crypto, signed.value, key, passphrase) == signed)
  {
    if envelope.TxEnvelope? {
      var hint := crypto.verifyingKey(key);
      assert hint[28..] == [hint[28], hint[29], hint[30], hint[31]];
    }
  }

  // ---------- The whole way ----------

  datatype Accounts = Accounts(funder: string, token: string, contract: string)

  // What the RPC server answers while the transaction is prepared.
  datatype Replies = Replies(seqNum: Result<int, string>, simulation: Result<Simulation, string>)

  const BATCH_TRANSFER := "batch_transfer"

  // The transaction asks the contract for these transfers and nothing else.
  ghost predicate AsksFor(tx: Tx, funder: Address, token: Address, contract: Address,
                          receivers: seq<Contract.Receiver>)
  {
    && tx.source == funder
    && |tx.operations| == 1
    && tx.operations[0].source.None?
    && tx.operations[0].body.InvokeHostFunction?
    && var call := tx.operations[0].body.call;
    && call.InvokeContract? && call.contract == contract && call.name == "batch_transfer"
    && |call.args| == 3
    && call.args[..2] == [ScAddress(funder), ScAddress(token)]
    && DecodeReceivers(call.args[2]) == Some(receivers)
  }

  // Up to the point where `invoke_batch_transfer` submits.
  method PrepareBatch<Key(!new)>(crypto: Crypto<Key>, key: Key, passphrase: string,
                                 decodeAccount: Strkey, decodeContract: Strkey,
                                 accounts: Accounts, payees: seq<Payee>, rpc: Replies)
    returns (r: Result<Envelope, TxError>)
    requires Sound(crypto)
    requires forall i | 0 <= i < |payees| :: Bits.Signed(payees[i].amount, 128)
    requires rpc.simulation.Success? && rpc.simulation.value.transactionData.Some? ==>
               InWidth(rpc.simulation.value.transactionData.value)
    ensures r.Success? <==>
              && decodeAccount(accounts.funder).Some? && decodeContract(accounts.token).Some?
              && decodeContract(accounts.contract).Some? && Decodable(decodeAccount, payees)
              && rpc.seqNum.Success? && rpc.simulation.Success? && rpc.simulation.value.error.None?
              && rpc.simulation.value.transactionData.Some?
              && (rpc.simulation.value.results == [] || None !in rpc.simulation.value.results[0])
    ensures r.Failure? ==>
              r.error == (if decodeAccount(accounts.funder).None? then InvalidAddress(accounts.funder)
                          else if decodeContract(accounts.token).None? then InvalidAddress(accounts.token)
                          else if EncodeReceivers(decodeAccount, payees).Failure? then
                            EncodeReceivers(decodeAccount, payees).error
                          else if decodeContract(accounts.contract).None? then InvalidAddress(accounts.contract)
                          else if rpc.seqNum.Failure? then Rpc(rpc.seqNum.error)
                          else if rpc.simulation.Failure? then Rpc(rpc.simulation.error)
                          else if rpc.simulation.value.error.Some? then Rpc(rpc.simulation.value.error.value)
                          else if rpc.simulation.value.transactionData.None? then BadTransactionData
                          else BadAuthEntry)
    ensures r.Success? ==> Decodable(decodeAccount, payees) && r.value.TxEnvelope?
    ensures r.Success? ==>
              var tx := r.value.tx;
              && AsksFor(tx, decodeAccount(accounts.funder).value, decodeContract(accounts.token).value,
                         decodeContract(accounts.contract).value, Resolve(decodeAccount, payees))
              && tx.seqNum == rpc.seqNum.value + 1 && tx.cond == NoPreconditions && tx.memo == NoMemo
              && AuthOf(rpc.simulation.value, tx.operations[0].body.auth)
              && EncodeReceivers(decodeAccount, payees) == Success(tx.operations[0].body.call.args[2])
              && SignedBy(crypto, r.value, key, passphrase)
              && tx.ext.V1? && Padded(rpc.simulation.value.transactionData.value, tx.ext.data)
              && tx.fee == TotalFee(tx.ext.data.resourceFee)
              && (tx.fee == tx.ext.data.resourceFee + 100
                  <==> 0 <= rpc.simulation.value.transactionData.value.resourceFee <= LAST_FAITHFUL_FEE)
  {
    var funder := decodeAccount(accounts.funder);
    if funder.None? {
      return Failure(InvalidAddress(accounts.funder));
    }
    var token := decodeContract(accounts.token);
    if token.None? {
      return Failure(InvalidAddress(accounts.token));
    }
    EncodeFailsAtFirst(decodeAccount, payees);
    var receivers := EncodeReceivers(decodeAccount, payees);
    if receivers.Failure? {
      return Failure(receivers.error);
    }
    EncodeThenDecode(decodeAccount, payees);
    var contract := decodeContract(accounts.contract);
    if contract.None? {
      return Failure(InvalidAddress(accounts.contract));
    }
    var call := InvokeContract(contract.value, BATCH_TRANSFER,
                               [ScAddress(funder.value), ScAddress(token.value), receivers.value]);
    if rpc.seqNum.Failure? {
      return Failure(Rpc(rpc.seqNum.error));
    }
    var op := Operation(None, InvokeHostFunction(call, []));
    var envelope := TxEnvelope(Tx(funder.value, 100, rpc.seqNum.value + 1, NoPreconditions, NoMemo, [op], V0), []);
    if rpc.simulation.Failure? {
      return Failure(Rpc(rpc.simulation.error));
    }
    if rpc.simulation.value.error.Some? {
      return Failure(Rpc(rpc.simulation.value.error.value));
    }
    var assembled := AssembleTransaction(envelope, rpc.simulation.value);
    if assembled.Failure? {
      return assembled;
    }
    SigningKeepsTheTransaction(crypto, assembled.value, key, passphrase);
    r := SignEnvelope(crypto, assembled.value, key, passphrase);
  }
}
