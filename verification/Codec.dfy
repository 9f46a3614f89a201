// How the faucet puts its receivers into contract arguments and reads the contract's answer back.
module Codec {
  import opened Wrappers
  import opened Bits
  import Token
  import Contract = BatchTransfer

  datatype ScVal =
    | ScBool(b: bool)
    | ScI128(hi: int, lo: int)
    | ScAddress(address: Token.Address)
    | ScVec(items: Option<seq<ScVal>>)
    | ScOther

  // ---------- 128-bit amounts in two 64-bit parts ----------

  function I128ToScVal(v: int): ScVal {
    ScI128(ShiftRight(v, 64), LowBits(v, 64))
  }

  // Shift the high part back and or the low part in.
  function Reconstructed(hi: int, lo: int): int {
    Or(ShiftLeft(hi, 64), lo)
  }

  lemma PartsAreDivMod(v: int)
    ensures I128ToScVal(v) == ScI128(v / Pow2(64), v % Pow2(64))
  {
    ShiftRightIsDiv(v, 64);
    LowBitsIsMod(v, 64);
  }

  lemma ReconstructedIsSum(hi: int, lo: int)
    requires Unsigned(lo, 64)
    ensures Reconstructed(hi, lo) == hi * Pow2(64) + lo
  {
    ShiftLeftIsMul(hi, 64);
    OrDisjoint(hi, lo, 64);
  }

  // Splitting any 128-bit integer gives an i64 and a u64, and both ways of joining them give it back.
  lemma SplitThenJoin(v: int)
    requires Signed(v, 128)
    ensures var parts := I128ToScVal(v);
            && Signed(parts.hi, 64) && Unsigned(parts.lo, 64)
            && parts.hi * Pow2(64) + parts.lo == v
            && Reconstructed(parts.hi, parts.lo) == v
  {
    PartsAreDivMod(v);
    Pow2Add(63, 64);
    HighPartFits(v, Pow2(64), Pow2(63));
    ReconstructedIsSum(v / Pow2(64), v % Pow2(64));
  }

  lemma HighPartFits(v: int, unit: int, half: int)
    requires unit > 0 && half > 0 && 0 <= v + half * unit && v < half * unit
    ensures -half <= v / unit < half && v == v / unit * unit + v % unit && 0 <= v % unit < unit
  {
    if half <= v / unit {
      MulStep(unit, half - 1, v / unit);
    } else if v / unit < -half {
      MulStep(unit, v / unit, -half);
    }
  }

  // And every such pair is the split of the integer that it joins to, which has 128 bits.
  lemma JoinThenSplit(hi: int, lo: int)
    requires Signed(hi, 64) && Unsigned(lo, 64)
    ensures Signed(Reconstructed(hi, lo), 128)
    ensures I128ToScVal(Reconstructed(hi, lo)) == ScI128(hi, lo)
  {
    JoinIsSigned(hi, lo);
    ReconstructedIsSum(hi, lo);
    SplitOfSum(hi, lo, 64);
  }

  lemma JoinIsSigned(hi: int, lo: int)
    requires Signed(hi, 64) && Unsigned(lo, 64)
    ensures Signed(Reconstructed(hi, lo), 128)
  {
    ReconstructedIsSum(hi, lo);
    Pow2Add(63, 64);
    JoinFits(hi, lo, Pow2(64), Pow2(63));
  }

  lemma JoinFits(hi: int, lo: int, unit: int, half: int)
    requires unit > 0 && 0 <= lo < unit && -half <= hi < half
    ensures 0 <= hi * unit + lo + half * unit && hi * unit + lo < half * unit
  {
    MulStep(unit, hi, half);
    MulStep(unit, -half - 1, hi);
  }

  // The order on values is the lexicographic order on parts.
  lemma SplitKeepsOrder(v: int, w: int)
    ensures var x, y := I128ToScVal(v), I128ToScVal(w);
            v < w <==> x.hi < y.hi || (x.hi == y.hi && x.lo < y.lo)
  {
    PartsAreDivMod(v);
    PartsAreDivMod(w);
    DivModOrder(v, w, Pow2(64));
  }

  lemma DivModOrder(v: int, w: int, unit: int)
    requires unit > 0
    ensures v < w <==> v / unit < w / unit || (v / unit == w / unit && v % unit < w % unit)
  {
    if v / unit < w / unit {
      MulStep(unit, v / unit, w / unit);
    } else if w / unit < v / unit {
      MulStep(unit, w / unit, v / unit);
    }
  }

  // ---------- The receiver list ----------

  datatype Payee = Payee(address: string, amount: int)

  // Strkey decoding of a G address; it fails on a malformed one and never maps two strings to one key.
  type Strkey = string -> Option<Token.Address>

  ghost predicate Injective(decode: Strkey) {
    forall x, y | decode(x).Some? && decode(x) == decode(y) :: x == y
  }

  datatype TxError =
    | InvalidAddress(address: string)
    | ExpectedTx
    | BadTransactionData
    | BadAuthEntry
    | ExpectedInvoke
    | Rpc(message: string)

  // Each receiver becomes a pair of address and amount; the first address that does not decode fails the whole list.
  function EncodePairs(decode: Strkey, payees: seq<Payee>): Result<seq<ScVal>, TxError> {
    if payees == [] then
      Success([])
    else
      match decode(payees[0].address)
      case None => Failure(InvalidAddress(payees[0].address))
      case Some(key) =>
        match EncodePairs(decode, payees[1..])
        case Failure(e) => Failure(e)
        case Success(rest) =>
          Success([ScVec(Some([ScAddress(key), I128ToScVal(payees[0].amount)]))] + rest)
  }

  function EncodeReceivers(decode: Strkey, payees: seq<Payee>): Result<ScVal, TxError> {
    match EncodePairs(decode, payees)
    case Failure(e) => Failure(e)
    case Success(pairs) => Success(ScVec(Some(pairs)))
  }

  // How the host hands the argument to the contract as a list of (address, i128) pairs.
  function DecodePair(v: ScVal): Option<Contract.Receiver> {
    match v
    case ScVec(Some(items)) =>
      if |items| == 2 && items[0].ScAddress? && items[1].ScI128? then
        Some(Contract.Receiver(items[0].address, Reconstructed(items[1].hi, items[1].lo)))
      else
        None
    case _ => None
  }

  function DecodePairs(pairs: seq<ScVal>): Option<seq<Contract.Receiver>> {
    if pairs == [] then
      Some([])
    else
      match (DecodePair(pairs[0]), DecodePairs(pairs[1..]))
      case (Some(first), Some(rest)) => Some([first] + rest)
      case _ => None
  }

  function DecodeReceivers(v: ScVal): Option<seq<Contract.Receiver>> {
    match v
    case ScVec(Some(pairs)) => DecodePairs(pairs)
    case _ => None
  }

  // The transfers that a list of payees asks for.
  predicate Decodable(decode: Strkey, payees: seq<Payee>) {
    forall i | 0 <= i < |payees| :: decode(payees[i].address).Some?
  }

  function Resolve(decode: Strkey, payees: seq<Payee>): (receivers: seq<Contract.Receiver>)
    requires Decodable(decode, payees)
  {
    seq(|payees|, i requires 0 <= i < |payees| =>
      Contract.Receiver(decode(payees[i].address).value, payees[i].amount))
  }

  // What the contract receives is what the faucet meant: same length, order, accounts and amounts.
  lemma {:induction false} EncodeThenDecode(decode: Strkey, payees: seq<Payee>)
    requires Decodable(decode, payees) && forall i | 0 <= i < |payees| :: Signed(payees[i].amount, 128)
    ensures var encoded := EncodeReceivers(decode, payees);
            && encoded.Success?
            && DecodeReceivers(encoded.value) == Some(Resolve(decode, payees))
  {
    if payees == [] {
      assert Resolve(decode, payees) == [];
    } else {
      var rest := payees[1..];
      EncodeThenDecode(decode, rest);
      PairRoundTrip(decode(payees[0].address).value, payees[0].amount);
      var encoded := EncodePairs(decode, payees).value;
      assert encoded[1..] == EncodePairs(decode, rest).value;
      assert Resolve(decode, payees)
             == [Contract.Receiver(decode(payees[0].address).value, payees[0].amount)] + Resolve(decode, rest);
    }
  }

  lemma PairRoundTrip(key: Token.Address, amount: int)
    requires Signed(amount, 128)
    ensures DecodePair(ScVec(Some([ScAddress(key), I128ToScVal(amount)]))) == Some(Contract.Receiver(key, amount))
  {
    SplitThenJoin(amount);
  }

  // The form on the wire: a vector of pairs, each the account and then the amount in two parts.
  lemma {:induction false} EncodedForm(decode: Strkey, payees: seq<Payee>)
    requires EncodeReceivers(decode, payees).Success?
    ensures var v := EncodeReceivers(decode, payees).value;
            && v.ScVec? && v.items.Some? && |v.items.value| == |payees|
            && forall i | 0 <= i < |payees| ::
                 && decode(payees[i].address).Some?
                 && v.items.value[i] == ScVec(Some([ScAddress(decode(payees[i].address).value),
                                                    ScI128(payees[i].amount / Pow2(64), payees[i].amount % Pow2(64))]))
  {
    if payees != [] {
      EncodedForm(decode, payees[1..]);
      PartsAreDivMod(payees[0].amount);
      var rest := EncodePairs(decode, payees[1..]).value;
      var pairs := EncodePairs(decode, payees).value;
      forall i | 0 < i < |payees| ensures pairs[i] == rest[i - 1] && payees[i] == payees[1..][i - 1] {}
    }
  }

  // The encoding fails exactly when some address does not decode, and then blames the first such address.
  lemma {:induction false} EncodeFailsAtFirst(decode: Strkey, payees: seq<Payee>)
    ensures EncodeReceivers(decode, payees).Success? <==> Decodable(decode, payees)
    ensures EncodeReceivers(decode, payees).Failure? ==>
              exists i :: 0 <= i < |payees| && Decodable(decode, payees[..i]) && decode(payees[i].address).None?
                          && EncodeReceivers(decode, payees).error == InvalidAddress(payees[i].address)
  {
    if payees != [] {
      var rest := payees[1..];
      EncodeFailsAtFirst(decode, rest);
      if decode(payees[0].address).None? {
        assert Decodable(decode, payees[..0]);
        assert !Decodable(decode, payees);
      } else if EncodePairs(decode, rest).Failure? {
        var i :| 0 <= i < |rest| && Decodable(decode, rest[..i]) && decode(rest[i].address).None?
                 && EncodeReceivers(decode, rest).error == InvalidAddress(rest[i].address);
        assert payees[i + 1] == rest[i];
        forall k | 0 <= k < i + 1 ensures decode(payees[k].address).Some? {
          if k > 0 {
            assert payees[k] == rest[..i][k - 1];
          }
        }
      } else {
        forall k | 0 <= k < |payees| ensures decode(payees[k].address).Some? {
          if k > 0 {
            assert payees[k] == rest[k - 1];
          }
        }
      }
    }
  }

  // Two lists with the same encoding are the same list.
  lemma EncodeInjective(decode: Strkey, xs: seq<Payee>, ys: seq<Payee>)
    requires Injective(decode)
    requires forall i | 0 <= i < |xs| :: Signed(xs[i].amount, 128)
    requires forall i | 0 <= i < |ys| :: Signed(ys[i].amount, 128)
    requires EncodeReceivers(decode, xs).Success? && EncodeReceivers(decode, xs) == EncodeReceivers(decode, ys)
    ensures xs == ys
  {
    EncodeFailsAtFirst(decode, xs);
    EncodeFailsAtFirst(decode, ys);
    EncodeThenDecode(decode, xs);
    EncodeThenDecode(decode, ys);
    var rs, ss := Resolve(decode, xs), Resolve(decode, ys);
    forall i | 0 <= i < |xs| ensures xs[i] == ys[i] {
      assert rs[i] == ss[i];
    }
  }

  // ---------- The contract's answer in the transaction meta ----------

  datatype Meta = V3(returnValue: Option<ScVal>) | OtherMeta

  function Bools(results: seq<bool>): seq<ScVal> {
    seq(|results|, i requires 0 <= i < |results| => ScBool(results[i]))
  }

  // Only V3 meta whose Soroban part returns a vector is read; anything else counts as "all succeeded".
  predicate Readable(meta: Option<Meta>) {
    match meta
    case Some(V3(Some(ScVec(Some(_))))) => true
    case _ => false
  }

  function ParseResultsFromMeta(meta: Meta, receiverCount: nat): seq<bool> {
    match meta
    case V3(Some(ScVec(Some(items)))) =>
      seq(|items|, i requires 0 <= i < |items| => items[i] == ScBool(true))
    case _ => seq(receiverCount, _ => true)
  }

  function ResultsOf(meta: Option<Meta>, receiverCount: nat): seq<bool> {
    match meta
    case Some(m) => ParseResultsFromMeta(m, receiverCount)
    case None => seq(receiverCount, _ => true)
  }

  // Meta that, where the faucet can read it, carries what the contract returned.
  predicate Honest(meta: Option<Meta>, results: seq<bool>) {
    Readable(meta) ==> meta.value.returnValue.value.items.value == Bools(results)
  }

  // What can be read, and what reading it gives.
  lemma WhatIsRead(meta: Option<Meta>, receiverCount: nat)
    ensures Readable(meta) <==> exists items :: meta == Some(V3(Some(ScVec(Some(items)))))
    ensures !Readable(meta) ==>
              |ResultsOf(meta, receiverCount)| == receiverCount
              && forall i | 0 <= i < receiverCount :: ResultsOf(meta, receiverCount)[i]
    ensures forall items :: meta == Some(V3(Some(ScVec(Some(items))))) ==>
              |ResultsOf(meta, receiverCount)| == |items|
              && forall i | 0 <= i < |items| :: ResultsOf(meta, receiverCount)[i] <==> items[i] == ScBool(true)
  {
    if Readable(meta) {
      assert meta == Some(V3(Some(ScVec(Some(meta.value.returnValue.value.items.value)))));
    }
  }

  lemma HonestIff(meta: Option<Meta>, results: seq<bool>)
    ensures Honest(meta, results)
       <==> forall items :: meta == Some(V3(Some(ScVec(Some(items))))) ==>
              |items| == |results| && forall i | 0 <= i < |items| :: items[i] == ScBool(results[i])
  {
    if Readable(meta) {
      var items := meta.value.returnValue.value.items.value;
      assert meta == Some(V3(Some(ScVec(Some(items)))));
      if |items| == |results| && forall i | 0 <= i < |items| :: items[i] == ScBool(results[i]) {
        assert items == Bools(results);
      }
    }
  }

  // The parsed results are the contract's iff they could be read or there was no failure to hide.
  lemma ParsedIsReturnedIff(meta: Option<Meta>, results: seq<bool>)
    requires Honest(meta, results)
    ensures ResultsOf(meta, |results|) == results
       <==> Readable(meta) || forall i | 0 <= i < |results| :: results[i]
  {
    var parsed := ResultsOf(meta, |results|);
    if Readable(meta) {
      assert forall i | 0 <= i < |results| :: Bools(results)[i] == ScBool(results[i]);
    } else if !forall i | 0 <= i < |results| :: results[i] {
      var i :| 0 <= i < |results| && !results[i];
      assert parsed[i] != results[i];
    }
  }
}
