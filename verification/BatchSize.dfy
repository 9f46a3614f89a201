// The search for the largest batch that fits the network's limits.
module BatchSize {
  import opened Bits

  // ---------- Limits ----------

  datatype Resources = Resources(instructions: int, writeEntries: int, diskReadEntries: int, memoryReadEntries: int,
                                 eventBytes: int, writeBytes: int, diskReadBytes: int)

  datatype Limits = Limits(instructions: int, writeEntries: int, ledgerEntries: int,
                           eventBytes: int, writeBytes: int, diskReadBytes: int)

  predicate FitsLimits(res: Resources, lim: Limits) {
    && res.instructions <= lim.instructions
    && res.writeEntries <= lim.writeEntries
    && Footprint(res) <= lim.ledgerEntries
    && res.eventBytes <= lim.eventBytes
    && res.writeBytes <= lim.writeBytes
    && res.diskReadBytes <= lim.diskReadBytes
  }

  function Footprint(res: Resources): int {
    res.diskReadEntries + res.memoryReadEntries + res.writeEntries
  }

  predicate Positive(lim: Limits) {
    && lim.instructions > 0 && lim.writeEntries > 0 && lim.ledgerEntries > 0
    && lim.eventBytes > 0 && lim.writeBytes > 0 && lim.diskReadBytes > 0
  }

  function Pct(used: int, limit: int): real
    requires limit > 0
  {
    used as real / limit as real * 100.0
  }

  datatype Candidate = Candidate(name: string, pct: real)

  function Candidates(res: Resources, lim: Limits): seq<Candidate>
    requires Positive(lim)
  {
    [Candidate("cpu", Pct(res.instructions, lim.instructions)),
     Candidate("write_ent", Pct(res.writeEntries, lim.writeEntries)),
     Candidate("footprint", Pct(Footprint(res), lim.ledgerEntries)),
     Candidate("evt_bytes", Pct(res.eventBytes, lim.eventBytes)),
     Candidate("wr_bytes", Pct(res.writeBytes, lim.writeBytes)),
     Candidate("rd_bytes", Pct(res.diskReadBytes, lim.diskReadBytes))]
  }

  // `max_by`: of several greatest elements it gives the last.
  function LastMax(candidates: seq<Candidate>): Candidate
    requires candidates != []
  {
    var n := |candidates| - 1;
    if n == 0 then
      candidates[0]
    else
      var best := LastMax(candidates[..n]);
      if candidates[n].pct >= best.pct then candidates[n] else best
  }

  function BindingName(res: Resources, lim: Limits): Candidate
    requires Positive(lim)
  {
    LastMax(Candidates(res, lim))
  }

  lemma {:induction false} LastMaxIsGreatest(candidates: seq<Candidate>) returns (i: nat)
    requires candidates != []
    ensures i < |candidates| && LastMax(candidates) == candidates[i]
    ensures forall j | 0 <= j < |candidates| :: candidates[j].pct <= candidates[i].pct
    ensures forall j | i < j < |candidates| :: candidates[j].pct < candidates[i].pct
  {
    var n := |candidates| - 1;
    if n == 0 {
      i := 0;
    } else {
      i := LastMaxIsGreatest(candidates[..n]);
      if candidates[n].pct >= candidates[i].pct {
        i := n;
      }
    }
  }

  lemma PctIs(used: int, limit: int)
    requires limit > 0
    ensures Pct(used, limit) * limit as real == 100.0 * used as real
  {
  }

  // In the fields: the footprint counts both kinds of reads and the writes.
  lemma FitsIffEachWithin(res: Resources, lim: Limits)
    ensures FitsLimits(res, lim)
       <==> && res.instructions <= lim.instructions
            && res.writeEntries <= lim.writeEntries
            && res.diskReadEntries + res.memoryReadEntries + res.writeEntries <= lim.ledgerEntries
            && res.eventBytes <= lim.eventBytes
            && res.writeBytes <= lim.writeBytes
            && res.diskReadBytes <= lim.diskReadBytes
  {
  }

  // The binding constraint is the one whose share of its limit is greatest, the last of these on a tie.
  lemma BindingIsGreatestShare(res: Resources, lim: Limits)
    requires Positive(lim)
    ensures var names := ["cpu", "write_ent", "footprint", "evt_bytes", "wr_bytes", "rd_bytes"];
            var used := [res.instructions, res.writeEntries,
                         res.diskReadEntries + res.memoryReadEntries + res.writeEntries,
                         res.eventBytes, res.writeBytes, res.diskReadBytes];
            var limits := [lim.instructions, lim.writeEntries, lim.ledgerEntries,
                           lim.eventBytes, lim.writeBytes, lim.diskReadBytes];
            exists i: nat ::
              && i < 6 && BindingName(res, lim) == Candidate(names[i], Pct(used[i], limits[i]))
              && (forall j | 0 <= j < 6 :: used[j] * limits[i] <= used[i] * limits[j])
              && (forall j | i < j < 6 :: used[j] * limits[i] < used[i] * limits[j])
  {
    var candidates := Candidates(res, lim);
    var used := [res.instructions, res.writeEntries,
                 res.diskReadEntries + res.memoryReadEntries + res.writeEntries,
                 res.eventBytes, res.writeBytes, res.diskReadBytes];
    var limits := [lim.instructions, lim.writeEntries, lim.ledgerEntries,
                   lim.eventBytes, lim.writeBytes, lim.diskReadBytes];
    var i := LastMaxIsGreatest(candidates);
    assert forall j | 0 <= j < 6 :: limits[j] > 0 && candidates[j].pct == Pct(used[j], limits[j]);
    forall j | 0 <= j < 6 ensures candidates[j].pct <= candidates[i].pct
                                  <==> used[j] * limits[i] <= used[i] * limits[j]
    {
      ShareOrder(used[j], limits[j], used[i], limits[i]);
    }
    forall j | 0 <= j < 6 ensures candidates[j].pct < candidates[i].pct
                                  <==> used[j] * limits[i] < used[i] * limits[j]
    {
      ShareOrder(used[i], limits[i], used[j], limits[j]);
    }
  }

  lemma ShareOrder(x: int, a: int, y: int, b: int)
    requires a > 0 && b > 0
    ensures Pct(x, a) <= Pct(y, b) <==> x * b <= y * a
  {
    var p, q, m, n := x as real / a as real, y as real / b as real, a as real, b as real;
    assert p * m == x as real && q * n == y as real;
    assert (x * b) as real == p * m * n == p * (m * n);
    assert (y * a) as real == q * n * m == q * (m * n);
    if p <= q {
      assert (q - p) * (m * n) >= 0.0;
    } else {
      assert (p - q) * (m * n) > 0.0;
    }
  }

  lemma WithinLimit(used: int, limit: int)
    requires limit > 0
    ensures Pct(used, limit) <= 100.0 <==> used <= limit
  {
    var share := used as real / limit as real;
    assert share * limit as real == used as real;
    if used <= limit {
      assert share <= 1.0;
    } else {
      assert share > 1.0;
    }
  }

  // A batch fits iff its binding constraint is at most at 100 percent.
  lemma FitsIffBindingWithin(res: Resources, lim: Limits)
    requires Positive(lim)
    ensures FitsLimits(res, lim) <==> BindingName(res, lim).pct <= 100.0
  {
    WithinLimit(res.instructions, lim.instructions);
    WithinLimit(res.writeEntries, lim.writeEntries);
    WithinLimit(Footprint(res), lim.ledgerEntries);
    WithinLimit(res.eventBytes, lim.eventBytes);
    WithinLimit(res.writeBytes, lim.writeBytes);
    WithinLimit(res.diskReadBytes, lim.diskReadBytes);
    var candidates := Candidates(res, lim);
    var i := LastMaxIsGreatest(candidates);
    var most := candidates[i].pct;
    assert candidates[0].pct <= most && candidates[1].pct <= most && candidates[2].pct <= most
        && candidates[3].pct <= most && candidates[4].pct <= most && candidates[5].pct <= most;
    assert i == 0 || i == 1 || i == 2 || i == 3 || i == 4 || i == 5;
  }

  // Which limit a name stands for.
  predicate Exceeds(res: Resources, lim: Limits, name: string) {
    match name
    case "cpu" => res.instructions > lim.instructions
    case "write_ent" => res.writeEntries > lim.writeEntries
    case "footprint" => res.diskReadEntries + res.memoryReadEntries + res.writeEntries > lim.ledgerEntries
    case "evt_bytes" => res.eventBytes > lim.eventBytes
    case "wr_bytes" => res.writeBytes > lim.writeBytes
    case "rd_bytes" => res.diskReadBytes > lim.diskReadBytes
    case _ => false
  }

  // A batch that does not fit has a binding constraint that it really exceeds.
  lemma BindingIsExceeded(res: Resources, lim: Limits)
    requires Positive(lim) && !FitsLimits(res, lim)
    ensures Exceeds(res, lim, BindingName(res, lim).name)
  {
    FitsIffBindingWithin(res, lim);
    WithinLimit(res.instructions, lim.instructions);
    WithinLimit(res.writeEntries, lim.writeEntries);
    WithinLimit(Footprint(res), lim.ledgerEntries);
    WithinLimit(res.eventBytes, lim.eventBytes);
    WithinLimit(res.writeBytes, lim.writeBytes);
    WithinLimit(res.diskReadBytes, lim.diskReadBytes);
    var i := LastMaxIsGreatest(Candidates(res, lim));
    assert i == 0 || i == 1 || i == 2 || i == 3 || i == 4 || i == 5;
  }

  ghost predicate AtMost(x: Resources, y: Resources) {
    && x.instructions <= y.instructions && x.writeEntries <= y.writeEntries
    && x.diskReadEntries <= y.diskReadEntries && x.memoryReadEntries <= y.memoryReadEntries
    && x.eventBytes <= y.eventBytes && x.writeBytes <= y.writeBytes && x.diskReadBytes <= y.diskReadBytes
  }

  // ---------- Search ----------

  // One probe at least halves the range.
  lemma Halved(scale: nat, before: nat, after: nat, total: nat)
    requires scale * before <= total && 2 * after <= before
    ensures 2 * scale * after <= total
    ensures before > 0 ==> scale <= total
  {
    var rest := before - 2 * after;
    assert scale * before == scale * (2 * after) + scale * rest;
    assert scale * rest >= 0;
    if before > 0 {
      assert scale * (before - 1) >= 0;
      assert scale * before == scale * (before - 1) + scale;
    }
  }

  ghost predicate DownwardClosed(ok: nat -> bool) {
    forall x: nat, y: nat | x <= y && ok(y) :: ok(x)
  }

  // The upper-mid binary search, for any bounds and any test; `probed` holds the sizes it measured,
  // which are at most ceil(log2(high - low + 1)).
  method FindMax(low: nat, high: nat, ok: nat -> bool) returns (r: nat, probed: seq<nat>)
    requires low <= high
    ensures low <= r <= high
    ensures r == low || ok(r)
    ensures r == high || !ok(r + 1)
    ensures ok(low) && DownwardClosed(ok) ==> forall n | low <= n <= high :: ok(n) <==> n <= r
    ensures probed == [] || Pow2(|probed| - 1) < high - low + 1
    ensures forall i | 0 <= i < |probed| :: low < probed[i] <= high
  {
    var lo, hi := low, high;
    probed := [];
    while lo < hi
      invariant low <= lo <= hi <= high
      invariant lo == low || ok(lo)
      invariant hi == high || !ok(hi + 1)
      invariant probed == [] || Pow2(|probed| - 1) <= high - low
      invariant Pow2(|probed|) * (hi - lo) <= high - low
      invariant forall i | 0 <= i < |probed| :: low < probed[i] <= high
      decreases hi - lo
    {
      var mid := (lo + hi + 1) / 2;
      Halved(Pow2(|probed|), hi - lo, if ok(mid) then hi - mid else mid - 1 - lo, high - low);
      probed := probed + [mid];
      if ok(mid) {
        lo := mid;
      } else {
        hi := mid - 1;
      }
    }
    r := lo;
  }

  // Measured use that grows with the batch makes what fits downward closed: a smaller batch fits, too, and so
  // `FindMax` on "fits the limits" gives the largest batch that fits; one more entry puts some limit over 100 percent.
  method FindMaxBatchSize(low: nat, high: nat, measure: nat -> Resources, lim: Limits) returns (r: nat)
    requires low <= high && Positive(lim)
    requires FitsLimits(measure(low), lim)
    requires forall m: nat, n: nat | m <= n :: AtMost(measure(m), measure(n))
    ensures low <= r <= high
    ensures forall n | low <= n <= high ::
              n <= r <==> && measure(n).instructions <= lim.instructions
                          && measure(n).writeEntries <= lim.writeEntries
                          && (measure(n).diskReadEntries + measure(n).memoryReadEntries + measure(n).writeEntries
                              <= lim.ledgerEntries)
                          && measure(n).eventBytes <= lim.eventBytes
                          && measure(n).writeBytes <= lim.writeBytes
                          && measure(n).diskReadBytes <= lim.diskReadBytes
    ensures r < high ==> BindingName(measure(r + 1), lim).pct > 100.0
  {
    var ok := (n: nat) => FitsLimits(measure(n), lim);
    var probed;
    r, probed := FindMax(low, high, ok);
    assert DownwardClosed(ok) by {
      forall x: nat, y: nat | x <= y && ok(y) ensures ok(x) {
        assert AtMost(measure(x), measure(y));
      }
    }
    if r < high {
      FitsIffBindingWithin(measure(r + 1), lim);
    }
    forall n | low <= n <= high ensures FitsLimits(measure(n), lim) <==> n <= r {
      assert ok(n) <==> FitsLimits(measure(n), lim);
    }
  }
}
