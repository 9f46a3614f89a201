// The fixed-width arithmetic that pads simulated limits and computes the transaction fee.
module Fees {
  const U32_MAX := 0xFFFF_FFFF
  const U64_MAX := 0xFFFF_FFFF_FFFF_FFFF
  const I64_MAX := 0x7FFF_FFFF_FFFF_FFFF
  const I64_MIN := -0x8000_0000_0000_0000

  // The largest simulated resource fee whose total still fits the transaction's u32 fee field.
  const LAST_FAITHFUL_FEE := 3758096296

  predicate U32(x: int) { 0 <= x <= U32_MAX }

  predicate I64(x: int) { I64_MIN <= x <= I64_MAX }

  function Clamp(x: int, low: int, high: int): int {
    if x < low then low else if high < x then high else x
  }

  // Rust's `/` truncates toward zero.
  function TruncatedDiv(x: int, d: int): int
    requires d > 0
  {
    if x < 0 then -(-x / d) else x / d
  }

  function Buffered(x: int): int {
    Clamp(x + x / 7, 0, U32_MAX)
  }

  function BufferedFee(resourceFee: int): int {
    Clamp(resourceFee + TruncatedDiv(resourceFee, 7), I64_MIN, I64_MAX)
  }

  // `as u64`, a saturating `+ 100`, then `as u32`.
  function TotalFee(bufferedFee: int): int {
    Clamp(bufferedFee % (U64_MAX + 1) + 100, 0, U64_MAX) % (U32_MAX + 1)
  }

  lemma MachineRanges(x: int)
    ensures U32(x) <==> 0 <= x <= 4294967295
    ensures I64(x) <==> -9223372036854775808 <= x <= 9223372036854775807
  {
  }

  // ---------- The buffer on resource limits ----------

  lemma BufferedIsEightSevenths(x: int)
    requires U32(x)
    ensures Buffered(x) == if 8 * x / 7 < U32_MAX then 8 * x / 7 else U32_MAX
  {
    assert 8 * x / 7 == x + x / 7;
  }

  // A need `y` is covered exactly when it is at most eight sevenths of what was simulated.
  lemma BufferCoversIff(x: int, y: int)
    requires U32(x) && U32(y)
    ensures y <= Buffered(x) <==> 7 * y <= 8 * x
  {
    BufferedIsEightSevenths(x);
  }

  lemma BufferShape(x: int, y: int)
    requires U32(x) && U32(y)
    ensures x <= Buffered(x) <= U32_MAX
    ensures x <= y ==> Buffered(x) <= Buffered(y)
    ensures Buffered(x) == U32_MAX <==> x >= 3758096384
    ensures x > 0 ==> 100 * Buffered(x) < 115 * x
  {
    BufferedIsEightSevenths(x);
    BufferedIsEightSevenths(y);
  }

  // ---------- The fee ----------

  // The fee grows to eight sevenths in size, whatever its sign, until the i64 saturates.
  lemma BufferedFeeIsEightSevenths(resourceFee: int)
    requires I64(resourceFee)
    ensures var grown := if resourceFee < 0 then -(8 * -resourceFee / 7) else 8 * resourceFee / 7;
            BufferedFee(resourceFee) == if grown > I64_MAX then I64_MAX else if grown < I64_MIN then I64_MIN else grown
  {
    var size := if resourceFee < 0 then -resourceFee else resourceFee;
    assert 8 * size / 7 == size + size / 7;
  }

  // The fee field for every buffered fee, wrapped or not. A negative fee becomes a huge unsigned one, which saturates
  // if it is at least -100.
  lemma TotalFeeIs(bufferedFee: int)
    requires I64(bufferedFee)
    ensures TotalFee(bufferedFee)
            == if -100 <= bufferedFee < 0 then 4294967295 else (bufferedFee + 100) % 4294967296
  {
    if bufferedFee < 0 {
      assert bufferedFee % (U64_MAX + 1) == bufferedFee + U64_MAX + 1;
    } else {
      assert bufferedFee % (U64_MAX + 1) == bufferedFee;
    }
  }

  // Over every i64 the fee field holds the buffered fee plus 100 exactly on this range.
  lemma FeeIsFaithfulIff(resourceFee: int)
    requires I64(resourceFee)
    ensures TotalFee(BufferedFee(resourceFee)) == BufferedFee(resourceFee) + 100
       <==> 0 <= resourceFee <= LAST_FAITHFUL_FEE
  {
    var b := BufferedFee(resourceFee);
    if resourceFee < 0 {
      assert b < 0;
      assert b % (U64_MAX + 1) == b + U64_MAX + 1;
    } else {
      assert b % (U64_MAX + 1) == b;
      assert resourceFee <= LAST_FAITHFUL_FEE <==> b + 100 <= U32_MAX;
    }
  }

  lemma FeeIsMonotone(x: int, y: int)
    requires 0 <= x <= y <= LAST_FAITHFUL_FEE
    ensures x + x / 7 + 100 == TotalFee(BufferedFee(x)) <= TotalFee(BufferedFee(y))
  {
    FeeIsFaithfulIff(x);
    FeeIsFaithfulIff(y);
  }

  // One stroop further the cast wraps and the transaction offers nothing.
  lemma FeeWraps()
    ensures TotalFee(BufferedFee(LAST_FAITHFUL_FEE + 1)) == 0
  {
    assert (LAST_FAITHFUL_FEE + 1) / 7 == 536870899;
  }
}
