/** Merging the segments' answers with overflow-checked addition. */
module Merge {
  import opened Wrappers
  import opened Errors

  newtype int64 = x: int | -0x8000_0000_0000_0000 <= x < 0x8000_0000_0000_0000

  const MAX_INT64: int64 := 0x7fff_ffff_ffff_ffff
  const MIN_INT64: int64 := -0x8000_0000_0000_0000

  /** Sales amounts are decimals with two fractional digits, kept here as whole cents. */
  datatype RetailSummary = RetailSummary(orders: int64, cents: int)

  datatype RenovationFunnel = RenovationFunnel(
    lead: int64, invited: int64, measured: int64, signed: int64, started: int64, completed: int64)

  predicate Fits(n: int) {
    MIN_INT64 as int <= n <= MAX_INT64 as int
  }

  /** Addition in int64 arithmetic alone: the guards themselves never wrap. */
  function SafeAdd(a: int64, b: int64): (r: Result<int64, Error>)
    ensures r.Success? <==> Fits(a as int + b as int)
    ensures r.Success? ==> r.value as int == a as int + b as int
    ensures r.Failure? ==> r.error == Overflow
  {
    if b > 0 && a > MAX_INT64 - b then Failure(Overflow)
    else if b < 0 && a < MIN_INT64 - b then Failure(Overflow)
    else Success(a + b)
  }

  // ----- What a merge should give -----

  /** The exact mathematical sum. */
  function Total(values: seq<int>): int {
    if values == [] then 0 else Total(values[..|values| - 1]) + values[|values| - 1]
  }

  /** Every partial sum, in order, is an int64. */
  ghost predicate PartialSumsFit(values: seq<int>) {
    forall k :: 0 <= k <= |values| ==> Fits(Total(values[..k]))
  }

  function Orders(parts: seq<RetailSummary>): (values: seq<int>)
    ensures |values| == |parts|
    ensures forall i :: 0 <= i < |parts| ==> values[i] == parts[i].orders as int
  {
    seq(|parts|, i requires 0 <= i < |parts| => parts[i].orders as int)
  }

  function Cents(parts: seq<RetailSummary>): (values: seq<int>)
    ensures |values| == |parts|
    ensures forall i :: 0 <= i < |parts| ==> values[i] == parts[i].cents
  {
    seq(|parts|, i requires 0 <= i < |parts| => parts[i].cents)
  }

  const STAGES := 6

  /** The count of stage k of a funnel, from leads to completions. */
  function Stage(f: RenovationFunnel, k: int): int64
    requires 0 <= k < STAGES
  {
    match k
    case 0 => f.lead
    case 1 => f.invited
    case 2 => f.measured
    case 3 => f.signed
    case 4 => f.started
    case _ => f.completed
  }

  function Stages(parts: seq<RenovationFunnel>, k: int): (values: seq<int>)
    requires 0 <= k < STAGES
    ensures |values| == |parts|
    ensures forall i :: 0 <= i < |parts| ==> values[i] == Stage(parts[i], k) as int
  {
    seq(|parts|, i requires 0 <= i < |parts| => Stage(parts[i], k) as int)
  }

  /** The exact sums when every partial sum fits, and otherwise the overflow error. */
  ghost function MergedRetail(parts: seq<RetailSummary>): Result<RetailSummary, Error> {
    if PartialSumsFit(Orders(parts)) then
      WholeSumFits(Orders(parts));
      Success(RetailSummary(Total(Orders(parts)) as int64, Total(Cents(parts))))
    else Failure(Overflow)
  }

  ghost predicate EveryStageFits(parts: seq<RenovationFunnel>) {
    forall k :: 0 <= k < STAGES ==> PartialSumsFit(Stages(parts, k))
  }

  ghost function StageTotal(parts: seq<RenovationFunnel>, k: int): int64
    requires 0 <= k < STAGES && PartialSumsFit(Stages(parts, k))
  {
    WholeSumFits(Stages(parts, k));
    Total(Stages(parts, k)) as int64
  }

  ghost function MergedFunnel(parts: seq<RenovationFunnel>): Result<RenovationFunnel, Error> {
    if EveryStageFits(parts) then
      Success(RenovationFunnel(StageTotal(parts, 0), StageTotal(parts, 1), StageTotal(parts, 2),
                               StageTotal(parts, 3), StageTotal(parts, 4), StageTotal(parts, 5)))
    else Failure(Overflow)
  }

  lemma WholeSumFits(values: seq<int>)
    requires PartialSumsFit(values)
    ensures Fits(Total(values))
  {
    assert values[..|values|] == values;
  }

  lemma TotalStep(values: seq<int>, i: nat)
    requires i < |values|
    ensures Total(values[..i + 1]) == Total(values[..i]) + values[i]
  {
    assert values[..i + 1][..i] == values[..i];
  }

  // ----- The loops -----

  method MergeRetail(parts: seq<RetailSummary>) returns (r: Result<RetailSummary, Error>)
    ensures r == MergedRetail(parts)
  {
    var merged := RetailSummary(0, 0);
    ghost var (orders, cents) := (Orders(parts), Cents(parts));
    for i := 0 to |parts|
      invariant merged.orders as int == Total(orders[..i])
      invariant merged.cents == Total(cents[..i])
      invariant forall k :: 0 <= k <= i ==> Fits(Total(orders[..k]))
    {
      TotalStep(orders, i);
      TotalStep(cents, i);
      var sum := SafeAdd(merged.orders, parts[i].orders);
      if sum.Failure? {
        return Failure(sum.error);
      }
      merged := RetailSummary(sum.value, merged.cents + parts[i].cents);
    }
    assert orders[..|parts|] == orders && cents[..|parts|] == cents;
    r := Success(merged);
  }

  /** Add v to the running count of stage k, over the first i parts. */
  method AddStage(parts: seq<RenovationFunnel>, k: int, i: nat, sum: int64)
    returns (r: Result<int64, Error>)
    requires 0 <= k < STAGES && i < |parts|
    requires sum as int == Total(Stages(parts, k)[..i])
    ensures r.Success? <==> Fits(Total(Stages(parts, k)[..i + 1]))
    ensures r.Success? ==> r.value as int == Total(Stages(parts, k)[..i + 1])
    ensures r.Failure? ==> r.error == Overflow && MergedFunnel(parts) == Failure(Overflow)
  {
    TotalStep(Stages(parts, k), i);
    r := SafeAdd(sum, Stage(parts[i], k));
    if r.Failure? {
      assert !PartialSumsFit(Stages(parts, k));
    }
  }

  /** f holds the counts of the first i parts, and no partial sum has left int64. */
  ghost predicate Holds(parts: seq<RenovationFunnel>, i: nat, f: RenovationFunnel)
    requires i <= |parts|
  {
    forall k :: 0 <= k < STAGES ==>
      && Stage(f, k) as int == Total(Stages(parts, k)[..i])
      && forall j :: 0 <= j <= i ==> Fits(Total(Stages(parts, k)[..j]))
  }

  /** The same, spelled out count by count. */
  ghost predicate Counts(parts: seq<RenovationFunnel>, i: nat, f: RenovationFunnel)
    requires i <= |parts|
  {
    && f.lead as int == Total(Stages(parts, 0)[..i])
    && f.invited as int == Total(Stages(parts, 1)[..i])
    && f.measured as int == Total(Stages(parts, 2)[..i])
    && f.signed as int == Total(Stages(parts, 3)[..i])
    && f.started as int == Total(Stages(parts, 4)[..i])
    && f.completed as int == Total(Stages(parts, 5)[..i])
  }

  lemma HoldsCounts(parts: seq<RenovationFunnel>, i: nat, f: RenovationFunnel)
    requires i <= |parts| && Holds(parts, i, f)
    ensures Counts(parts, i, f)
  {
    assert Stage(f, 0) == f.lead && Stage(f, 1) == f.invited && Stage(f, 2) == f.measured;
    assert Stage(f, 3) == f.signed && Stage(f, 4) == f.started && Stage(f, 5) == f.completed;
  }

  lemma HoldsNext(parts: seq<RenovationFunnel>, i: nat, f: RenovationFunnel, g: RenovationFunnel)
    requires i < |parts| && Holds(parts, i, f) && Counts(parts, i + 1, g)
    ensures Holds(parts, i + 1, g)
  {
    hide Total;
    forall k | 0 <= k < STAGES
      ensures Stage(g, k) as int == Total(Stages(parts, k)[..i + 1])
      ensures forall j :: 0 <= j <= i + 1 ==> Fits(Total(Stages(parts, k)[..j]))
    {
      CountOfStage(parts, i + 1, g, k);
      hide Stages, Counts, Stage;
      assert Fits(Stage(g, k) as int);
    }
  }

  lemma CountOfStage(parts: seq<RenovationFunnel>, i: nat, f: RenovationFunnel, k: int)
    requires i <= |parts| && Counts(parts, i, f) && 0 <= k < STAGES
    ensures Stage(f, k) as int == Total(Stages(parts, k)[..i])
  {
    hide Total, Stages;
  }

  lemma HoldsAll(parts: seq<RenovationFunnel>, f: RenovationFunnel)
    requires Holds(parts, |parts|, f)
    ensures MergedFunnel(parts) == Success(f)
  {
    forall k | 0 <= k < STAGES
      ensures PartialSumsFit(Stages(parts, k)) && StageTotal(parts, k) == Stage(f, k)
    {
      assert Stages(parts, k)[..|parts|] == Stages(parts, k);
    }
  }

  method MergeFunnel(parts: seq<RenovationFunnel>) returns (r: Result<RenovationFunnel, Error>)
    ensures r == MergedFunnel(parts)
  {
    var merged := RenovationFunnel(0, 0, 0, 0, 0, 0);
    for i := 0 to |parts|
      invariant Holds(parts, i, merged)
    {
      hide MergedFunnel, Total, Holds;
      HoldsCounts(parts, i, merged);
      var lead := AddStage(parts, 0, i, merged.lead);
      if lead.Failure? { return Failure(lead.error); }
      var invited := AddStage(parts, 1, i, merged.invited);
      if invited.Failure? { return Failure(invited.error); }
      var measured := AddStage(parts, 2, i, merged.measured);
      if measured.Failure? { return Failure(measured.error); }
      var signed := AddStage(parts, 3, i, merged.signed);
      if signed.Failure? { return Failure(signed.error); }
      var started := AddStage(parts, 4, i, merged.started);
      if started.Failure? { return Failure(started.error); }
      var completed := AddStage(parts, 5, i, merged.completed);
      if completed.Failure? { return Failure(completed.error); }
      var next := RenovationFunnel(lead.value, invited.value, measured.value,
                                   signed.value, started.value, completed.value);
      HoldsNext(parts, i, merged, next);
      merged := next;
    }
    HoldsAll(parts, merged);
    r := Success(merged);
  }

  // ----- When the merge overflows -----

  /** With at most two parts, as every plan has, partial sums fit exactly when the whole sum
      does. */
  lemma TwoPartsOverflowExactly(values: seq<int>)
    requires |values| <= 2
    requires forall i :: 0 <= i < |values| ==> Fits(values[i])
    ensures PartialSumsFit(values) <==> Fits(Total(values))
  {
    assert values[..|values|] == values;
    if |values| >= 1 {
      assert values[..1][..0] == [];
      assert Total(values[..1]) == values[0];
    }
  }

  /** With non-negative counts the same holds for any number of parts. */
  lemma NonNegativeOverflowExactly(values: seq<int>)
    requires forall i :: 0 <= i < |values| ==> values[i] >= 0
    ensures PartialSumsFit(values) <==> Fits(Total(values))
  {
    assert values[..|values|] == values;
    forall k | 0 <= k <= |values|
      ensures 0 <= Total(values[..k]) <= Total(values)
    {
      PartialSumsGrow(values, k);
    }
  }

  lemma {:induction false} PartialSumsGrow(values: seq<int>, k: nat)
    requires k <= |values|
    requires forall i :: 0 <= i < |values| ==> values[i] >= 0
    ensures 0 <= Total(values[..k]) <= Total(values)
    decreases |values|
  {
    if k < |values| {
      PartialSumsGrow(values[..|values| - 1], k);
      assert values[..|values| - 1][..k] == values[..k];
    } else if k > 0 {
      assert values[..k] == values;
      PartialSumsGrow(values[..k - 1], k - 1);
      assert values[..k - 1][..k - 1] == values[..k - 1];
    }
  }

  /** Three parts of mixed sign can be rejected although their sum fits. */
  lemma ThreePartsCanOverflowEarly()
    ensures Fits(Total([MAX_INT64 as int, 1, -1])) && !PartialSumsFit([MAX_INT64 as int, 1, -1])
  {
    var values := [MAX_INT64 as int, 1, -1];
    TotalStep(values, 0);
    TotalStep(values, 1);
    TotalStep(values, 2);
    assert values[..3] == values;
    assert !Fits(Total(values[..2]));
  }

  /** The retail merge overflows exactly when the orders' exact sum leaves int64. */
  lemma RetailMergeOverflowsExactly(parts: seq<RetailSummary>)
    requires |parts| <= 2 || forall i :: 0 <= i < |parts| ==> parts[i].orders >= 0
    ensures MergedRetail(parts) == Failure(Overflow) <==> !Fits(Total(Orders(parts)))
  {
    if |parts| <= 2 {
      TwoPartsOverflowExactly(Orders(parts));
    } else {
      NonNegativeOverflowExactly(Orders(parts));
    }
  }

  /** The funnel merge overflows exactly when some stage's exact sum leaves int64. */
  lemma FunnelMergeOverflowsExactly(parts: seq<RenovationFunnel>)
    requires |parts| <= 2 ||
             forall i, k :: 0 <= i < |parts| && 0 <= k < STAGES ==> Stage(parts[i], k) >= 0
    ensures MergedFunnel(parts) == Failure(Overflow) <==>
            exists k :: 0 <= k < STAGES && !Fits(Total(Stages(parts, k)))
  {
    forall k | 0 <= k < STAGES
      ensures PartialSumsFit(Stages(parts, k)) <==> Fits(Total(Stages(parts, k)))
    {
      if |parts| <= 2 {
        TwoPartsOverflowExactly(Stages(parts, k));
      } else {
        NonNegativeOverflowExactly(Stages(parts, k));
      }
    }
  }
}
