// `check_consecutive`: counts the ledgers missing between the ledger sequence numbers of the submitted transactions.
module Gaps {
  // ---------- Which arguments are numbers ----------

  predicate IsDigit(c: char) { '0' <= c <= '9' }

  function DigitValue(c: char): nat
    requires IsDigit(c)
  {
    c as int - '0' as int
  }

  predicate IsNumber(word: string) {
    word != "" && forall i | 0 <= i < |word| :: IsDigit(word[i])
  }

  function Value(word: string): nat
    requires forall i | 0 <= i < |word| :: IsDigit(word[i])
  {
    if word == "" then
      0
    else
      var n := |word| - 1;
      10 * Value(word[..n]) + DigitValue(word[n])
  }

  // The numbers among the words, in order; FAILED, UNKNOWN and NOT_FOUND are passed over.
  function Numbers(words: seq<string>): seq<nat> {
    if words == [] then
      []
    else
      var n := |words| - 1;
      Numbers(words[..n]) + if IsNumber(words[n]) then [Value(words[n])] else []
  }

  function Digits(n: nat): string {
    if n < 10 then ['0' + n as char] else Digits(n / 10) + ['0' + (n % 10) as char]
  }

  // A printed number is recognised and read back.
  lemma {:induction false} DigitsReadBack(n: nat)
    ensures IsNumber(Digits(n)) && Value(Digits(n)) == n
  {
    if n >= 10 {
      DigitsReadBack(n / 10);
      assert Digits(n)[..|Digits(n)| - 1] == Digits(n / 10);
    } else {
      assert Digits(n)[..0] == "";
    }
  }

  function Pow10(k: nat): nat {
    if k == 0 then 1 else 10 * Pow10(k - 1)
  }

  // Decimal: each digit counts for itself, and a word in front counts ten times for each digit behind it.
  lemma {:induction false} ValueAppend(xs: string, ys: string)
    requires forall i | 0 <= i < |xs| :: IsDigit(xs[i])
    requires forall i | 0 <= i < |ys| :: IsDigit(ys[i])
    ensures Value(xs + ys) == Pow10(|ys|) * Value(xs) + Value(ys)
    ensures |ys| == 1 ==> Value(ys) == ys[0] as int - 48
    decreases |ys|
  {
    if ys == "" {
      assert xs + ys == xs;
    } else {
      var n := |ys| - 1;
      ValueAppend(xs, ys[..n]);
      assert (xs + ys)[..|xs + ys| - 1] == xs + ys[..n];
      OneMoreDigit(Pow10(n), Value(xs), Value(ys[..n]), DigitValue(ys[n]));
    }
  }

  lemma OneMoreDigit(scale: nat, x: nat, y: nat, digit: nat)
    ensures 10 * (scale * x + y) + digit == 10 * scale * x + (10 * y + digit)
  {
  }

  // The words are read one by one, and the numbers keep their order.
  lemma {:induction false} NumbersAppend(xs: seq<string>, ys: seq<string>)
    ensures Numbers(xs + ys) == Numbers(xs) + Numbers(ys)
    decreases |ys|
  {
    if ys == [] {
      assert xs + ys == xs;
    } else {
      var n := |ys| - 1;
      NumbersAppend(xs, ys[..n]);
      assert (xs + ys)[..|xs + ys| - 1] == xs + ys[..n];
    }
  }

  // A single word: a printed number gives that number; an empty word or one with any other character, like the words
  // that the query step prints for a failed, unknown or missing transaction, gives none.
  lemma NumbersOfWord(word: string, n: nat)
    ensures Numbers([Digits(n)]) == [n]
    ensures word == "" || (exists i :: 0 <= i < |word| && !('0' <= word[i] <= '9')) ==> Numbers([word]) == []
    ensures word != "" && (forall i | 0 <= i < |word| :: '0' <= word[i] <= '9') ==> Numbers([word]) == [Value(word)]
    ensures Numbers(["FAILED"]) == Numbers(["UNKNOWN"]) == Numbers(["NOT_FOUND"]) == []
  {
    DigitsReadBack(n);
    assert [word][..0] == [Digits(n)][..0] == [];
    assert "FAILED"[0] == 'F' && "UNKNOWN"[0] == 'U' && "NOT_FOUND"[0] == 'N';
    assert ["FAILED"][..0] == ["UNKNOWN"][..0] == ["NOT_FOUND"][..0] == [];
  }

  // ---------- `sort -n` ----------

  predicate Ascending(xs: seq<nat>) {
    forall i, j | 0 <= i < j < |xs| :: xs[i] <= xs[j]
  }

  function Insert(xs: seq<nat>, x: nat): seq<nat> {
    if xs == [] || xs[|xs| - 1] <= x then
      xs + [x]
    else
      Insert(xs[..|xs| - 1], x) + [xs[|xs| - 1]]
  }

  function Sort(xs: seq<nat>): seq<nat> {
    if xs == [] then [] else Insert(Sort(xs[..|xs| - 1]), xs[|xs| - 1])
  }

  lemma {:induction false} InsertKeepsElements(xs: seq<nat>, x: nat)
    ensures multiset(Insert(xs, x)) == multiset(xs) + multiset{x}
  {
    if xs != [] && xs[|xs| - 1] > x {
      InsertKeepsElements(xs[..|xs| - 1], x);
      assert xs == xs[..|xs| - 1] + [xs[|xs| - 1]];
    }
  }

  lemma {:induction false} InsertKeepsOrder(xs: seq<nat>, x: nat)
    requires Ascending(xs)
    ensures Ascending(Insert(xs, x))
  {
    if xs != [] && xs[|xs| - 1] > x {
      var front, last := xs[..|xs| - 1], xs[|xs| - 1];
      InsertKeepsOrder(front, x);
      InsertKeepsElements(front, x);
      forall i | 0 <= i < |Insert(front, x)| ensures Insert(front, x)[i] <= last {
        assert Insert(front, x)[i] in multiset(Insert(front, x));
      }
    }
  }

  lemma {:induction false} SortSorts(xs: seq<nat>)
    ensures Ascending(Sort(xs)) && multiset(Sort(xs)) == multiset(xs) && |Sort(xs)| == |xs|
  {
    if xs != [] {
      var front, last := xs[..|xs| - 1], xs[|xs| - 1];
      SortSorts(front);
      InsertKeepsOrder(Sort(front), last);
      InsertKeepsElements(Sort(front), last);
      assert xs == front + [last];
    }
    assert |multiset(Sort(xs))| == |Sort(xs)|;
  }

  // ---------- What a gap is ----------

  ghost function Missing(present: set<nat>, lo: nat, hi: nat): set<nat> {
    set x: nat | lo <= x <= hi && x !in present
  }

  // `n` consecutive numbers from `a` on, all in [lo, hi] and all absent.
  ghost predicate AbsentRun(present: set<nat>, lo: nat, hi: nat, a: nat, n: nat) {
    lo <= a && a + n <= hi + 1 && forall x | a <= x < a + n :: x !in present
  }

  ghost predicate LongestRun(present: set<nat>, lo: nat, hi: nat, n: nat) {
    && (exists a: nat :: AbsentRun(present, lo, hi, a, n))
    && (forall a: nat, k: nat | AbsentRun(present, lo, hi, a, k) :: k <= n)
  }

  datatype Gap = Gap(before: nat, after: nat, missed: nat)

  // A maximal run of absent numbers, named by its neighbours.
  ghost predicate IsGap(present: set<nat>, g: Gap) {
    && g.before in present && g.after in present
    && g.before + g.missed + 1 == g.after && g.missed > 0
    && forall x | g.before < x < g.after :: x !in present
  }

  // The gaps listed from left to right, none left out.
  ghost predicate Lists(present: set<nat>, hi: nat, gaps: seq<Gap>) {
    && (forall k | 0 <= k < |gaps| :: IsGap(present, gaps[k]) && gaps[k].after <= hi)
    && (forall j, k | 0 <= j < k < |gaps| :: gaps[j].after <= gaps[k].before)
  }

  datatype Report =
    | InsufficientData
    | Consecutive(first: nat, last: nat, count: nat)
    | GapsFound(gaps: nat, maxGap: nat, details: seq<Gap>)

  // ---------- One step from a present number to the next ----------

  // The numbers from `a` on, below `b`.
  ghost function Interval(a: nat, b: nat): (s: set<nat>)
    ensures forall x: nat :: x in s <==> a <= x < b
    ensures |s| == if a < b then b - a else 0
    decreases b
  {
    if a < b then Interval(a, b - 1) + {b - 1} else {}
  }

  ghost predicate Adjacent(present: set<nat>, x: nat, y: nat) {
    x in present && y in present && x <= y && forall z | x < z < y :: z !in present
  }

  lemma MissingGrows(present: set<nat>, lo: nat, x: nat, y: nat)
    requires lo <= x && Adjacent(present, x, y)
    ensures |Missing(present, lo, y)| == |Missing(present, lo, x)| + if x < y then y - x - 1 else 0
  {
    if x < y {
      var between := Interval(x + 1, y);
      assert Missing(present, lo, y) == Missing(present, lo, x) + between;
      assert Missing(present, lo, x) !! between;
    }
  }

  lemma RunGrows(present: set<nat>, lo: nat, x: nat, y: nat, n: nat)
    requires lo <= x && Adjacent(present, x, y) && LongestRun(present, lo, x, n)
    ensures LongestRun(present, lo, y, if y - x > n + 1 then y - x - 1 else n)
  {
    var n' := if y - x > n + 1 then y - x - 1 else n;
    if n' == n {
      var a :| AbsentRun(present, lo, x, a, n);
      assert AbsentRun(present, lo, y, a, n);
    } else {
      assert AbsentRun(present, lo, y, x + 1, n');
    }
    forall a: nat, k: nat | AbsentRun(present, lo, y, a, k) ensures k <= n' {
      if a + k <= x + 1 {
        assert AbsentRun(present, lo, x, a, k);
      } else if k > 0 {
        assert a > x;
      }
    }
  }

  // ---------- The check ----------

  ghost predicate Inside(x: nat, gaps: seq<Gap>) {
    exists k :: 0 <= k < |gaps| && gaps[k].before < x < gaps[k].after
  }

  // All that the three running values say about the numbers between `lo` and `hi`.
  ghost predicate Counted(present: set<nat>, lo: nat, hi: nat, gaps: nat, maxGap: nat, details: seq<Gap>) {
    && gaps == |Missing(present, lo, hi)|
    && LongestRun(present, lo, hi, maxGap)
    && Lists(present, hi, details)
    && forall x | x in Missing(present, lo, hi) :: Inside(x, details)
  }

  lemma ListingGrows(present: set<nat>, lo: nat, x: nat, y: nat, details: seq<Gap>)
    requires lo <= x && Adjacent(present, x, y) && Lists(present, x, details)
    requires forall z | z in Missing(present, lo, x) :: Inside(z, details)
    ensures var details' := if y - x > 1 then details + [Gap(x, y, y - x - 1)] else details;
            && Lists(present, y, details')
            && forall z | z in Missing(present, lo, y) :: Inside(z, details')
  {
    var details' := if y - x > 1 then details + [Gap(x, y, y - x - 1)] else details;
    forall z | z in Missing(present, lo, y) ensures Inside(z, details') {
      if z <= x {
        assert z in Missing(present, lo, x);
        var k :| 0 <= k < |details| && details[k].before < z < details[k].after;
        assert details'[k] == details[k];
      } else {
        assert details'[|details|].before < z < details'[|details|].after;
      }
    }
  }

  lemma CountedGrows(present: set<nat>, lo: nat, x: nat, y: nat, gaps: nat, maxGap: nat, details: seq<Gap>)
    requires lo <= x && Adjacent(present, x, y) && Counted(present, lo, x, gaps, maxGap, details)
    ensures var missed := y - x - 1;
            if missed > 0 then
              Counted(present, lo, y, gaps + missed, if missed > maxGap then missed else maxGap,
                      details + [Gap(x, y, missed)])
            else
              Counted(present, lo, y, gaps, maxGap, details)
  {
    MissingGrows(present, lo, x, y);
    RunGrows(present, lo, x, y, maxGap);
    ListingGrows(present, lo, x, y, details);
  }

  ghost predicate Spans(values: seq<nat>, lo: nat, hi: nat) {
    lo in values && hi in values && forall i | 0 <= i < |values| :: lo <= values[i] <= hi
  }

  ghost function Present(values: seq<nat>): set<nat> {
    set v | v in values
  }

  lemma SortedHas(values: seq<nat>, v: nat)
    ensures v in Sort(values) <==> v in values
  {
    SortSorts(values);
    assert v in multiset(values) <==> v in multiset(Sort(values));
  }

  lemma SortedSpans(values: seq<nat>)
    requires values != []
    ensures |Sort(values)| == |values|
    ensures Spans(values, Sort(values)[0], Sort(values)[|values| - 1])
  {
    var sorted := Sort(values);
    SortSorts(values);
    SortedHas(values, sorted[0]);
    SortedHas(values, sorted[|values| - 1]);
    forall i | 0 <= i < |values| ensures sorted[0] <= values[i] <= sorted[|sorted| - 1] {
      SortedHas(values, values[i]);
      var k :| 0 <= k < |sorted| && sorted[k] == values[i];
    }
  }

  lemma SortedNeighbours(values: seq<nat>, i: nat)
    requires 1 <= i < |Sort(values)|
    ensures Sort(values)[0] <= Sort(values)[i - 1]
    ensures Adjacent(Present(values), Sort(values)[i - 1], Sort(values)[i])
  {
    var sorted := Sort(values);
    SortSorts(values);
    SortedHas(values, sorted[i - 1]);
    SortedHas(values, sorted[i]);
    forall z | sorted[i - 1] < z < sorted[i] ensures z !in Present(values) {
      SortedHas(values, z);
      if z in sorted {
        var k :| 0 <= k < |sorted| && sorted[k] == z;
        NotBetween(sorted, i, k);
      }
    }
  }

  lemma NotBetween(sorted: seq<nat>, i: nat, k: nat)
    requires Ascending(sorted) && 1 <= i < |sorted| && k < |sorted|
    ensures sorted[k] <= sorted[i - 1] || sorted[i] <= sorted[k]
  {
  }

  lemma NothingBelow(present: set<nat>, lo: nat)
    requires lo in present
    ensures Counted(present, lo, lo, 0, 0, [])
  {
    assert Missing(present, lo, lo) == {};
    assert AbsentRun(present, lo, lo, lo, 0);
    forall a: nat, k: nat | AbsentRun(present, lo, lo, a, k) ensures k == 0 {}
  }

  method ValidNumbers(words: seq<string>) returns (valid: seq<nat>)
    ensures valid == Numbers(words)
  {
    valid := [];
    for i := 0 to |words|
      invariant valid == Numbers(words[..i])
    {
      assert words[..i + 1][..i] == words[..i];
      if IsNumber(words[i]) {
        valid := valid + [Value(words[i])];
      }
    }
    assert words[..|words|] == words;
  }

  method CountGaps(valid: seq<nat>) returns (sorted: seq<nat>, gaps: nat, maxGap: nat, details: seq<Gap>)
    requires valid != []
    ensures sorted == Sort(valid) && sorted != []
    ensures Counted(Present(valid), sorted[0], sorted[|sorted| - 1], gaps, maxGap, details)
  {
    sorted := Sort(valid);
    SortedSpans(valid);
    NothingBelow(Present(valid), sorted[0]);
    gaps, maxGap, details := 0, 0, [];
    for i := 1 to |sorted|
      invariant Counted(Present(valid), sorted[0], sorted[i - 1], gaps, maxGap, details)
    {
      SortedNeighbours(valid, i);
      CountedGrows(Present(valid), sorted[0], sorted[i - 1], sorted[i], gaps, maxGap, details);
      var diff := sorted[i] - sorted[i - 1];
      if diff > 1 {
        gaps := gaps + diff - 1;
        if diff - 1 > maxGap {
          maxGap := diff - 1;
        }
        details := details + [Gap(sorted[i - 1], sorted[i], diff - 1)];
      }
    }
  }

  // ---------- What CONSECUTIVE means ----------

  // No number is missing between any two that are there.
  ghost predicate Whole(present: set<nat>) {
    forall x, y, z | x in present && y in present && x < z < y :: z in present
  }

  lemma WholeIffNoneMissing(values: seq<nat>, lo: nat, hi: nat)
    requires Spans(values, lo, hi)
    ensures Missing(Present(values), lo, hi) == {} <==> Whole(Present(values))
  {
    var present := Present(values);
    if Missing(present, lo, hi) == {} {
      forall x, y, z | x in present && y in present && x < z < y ensures z in present {
        assert z in present || z in Missing(present, lo, hi);
      }
    } else {
      var y :| y in Missing(present, lo, hi);
      assert lo in present && hi in present && lo < y < hi;
    }
  }

  ghost predicate Distinct(values: seq<nat>) {
    forall i, j | 0 <= i < j < |values| :: values[i] != values[j]
  }

  lemma {:induction false} DistinctIffFull(values: seq<nat>)
    ensures |Present(values)| <= |values|
    ensures |Present(values)| == |values| <==> Distinct(values)
  {
    if values != [] {
      var n := |values| - 1;
      DistinctIffFull(values[..n]);
      assert values == values[..n] + [values[n]];
      assert Present(values) == Present(values[..n]) + {values[n]};
    }
  }

  // The count that CONSECUTIVE prints is the length of the interval exactly when no ledger holds two transactions.
  lemma CountIsLengthIff(values: seq<nat>, first: nat, last: nat)
    requires Spans(values, first, last) && Missing(Present(values), first, last) == {}
    ensures |values| == last - first + 1 <==> Distinct(values)
  {
    DistinctIffFull(values);
    forall x: nat ensures x in Present(values) <==> x in Interval(first, last + 1) {
      assert x in Present(values) || !(first <= x <= last) || x in Missing(Present(values), first, last);
    }
    assert Present(values) == Interval(first, last + 1);
  }

  // With fewer than two numbers there is nothing to say. Otherwise, between the least and the greatest number:
  // CONSECUTIVE iff none is missing, and else how many are, the longest run of them, and every gap.
  method CheckConsecutive(words: seq<string>) returns (r: Report)
    ensures r.InsufficientData? <==> |Numbers(words)| < 2
    ensures r.Consecutive? <==> |Numbers(words)| >= 2 && Whole(Present(Numbers(words)))
    ensures r.Consecutive? ==>
              && Spans(Numbers(words), r.first, r.last) && r.count == |Numbers(words)|
              && Missing(Present(Numbers(words)), r.first, r.last) == {}
    ensures r.GapsFound? ==>
              && r.gaps > 0
              && exists lo, hi :: Spans(Numbers(words), lo, hi)
                                  && Counted(Present(Numbers(words)), lo, hi, r.gaps, r.maxGap, r.details)
  {
    var valid := ValidNumbers(words);
    if |valid| < 2 {
      return InsufficientData;
    }
    var sorted, gaps, maxGap, details := CountGaps(valid);
    SortedSpans(valid);
    WholeIffNoneMissing(valid, sorted[0], sorted[|sorted| - 1]);
    if gaps == 0 {
      return Consecutive(sorted[0], sorted[|sorted| - 1], |sorted|);
    } else {
      return GapsFound(gaps, maxGap, details);
    }
  }
}
