/** Splitting a block reward into fee slices, sub-slices and a remainder, with exact percentages over reals. */
module Payouts {
  import opened Results
  import opened Bytes

  const MAX_OUTPUTS := 32

  datatype Output = Output(script: Text, value: i64)
  datatype SubSlice = SubSlice(script: Text, percent: real)
  datatype FeeSlice = FeeSlice(script: Text, percent: real, subs: seq<SubSlice>)
  datatype Plan = Plan(total: i64, remainderScript: Text, slices: seq<FeeSlice>, requirePositive: bool)

  /** A value an int64 holds that is not negative. */
  type Amount = x: int | 0 <= x < 0x8000_0000_0000_0000

  datatype SliceBreakdown = SliceBreakdown(feeTotal: Amount, parent: Amount, subs: seq<Amount>)
  datatype Breakdown = Breakdown(total: i64, remainder: Amount, slices: seq<SliceBreakdown>)

  // ---------------------------------------------------------------- one fee

  function ClampPercent(percent: real, top: real): (p: real)
    requires top >= 0.0
    ensures 0.0 <= p <= top
    ensures 0.0 <= percent <= top ==> p == percent
    ensures percent < 0.0 ==> p == 0.0
    ensures percent > top ==> p == top
  {
    if percent < 0.0 then 0.0 else if percent > top then top else percent
  }

  /** `math.Round` on a value that is not negative: halves go up. */
  function Round(x: real): (n: nat)
    requires x >= 0.0
    ensures -0.5 < n as real - x <= 0.5
  {
    (x + 0.5).Floor
  }

  function Portion(base: nat, percent: real): (x: real)
    requires 0.0 <= percent <= 100.0
    ensures 0.0 <= x <= base as real
  {
    PortionBounds(base as real, percent);
    base as real * percent / 100.0
  }

  lemma PortionBounds(base: real, percent: real)
    requires base >= 0.0 && 0.0 <= percent <= 100.0
    ensures 0.0 <= base * percent / 100.0 <= base
  {
    assert base * percent <= base * 100.0;
  }

  /** The rounded percentage of `base`, but no more than `left`. */
  function Fee(base: Amount, percent: real, left: Amount): (fee: Amount)
    requires 0.0 <= percent <= 100.0
    ensures fee <= left
    ensures fee < left ==> -0.5 < fee as real - Portion(base, percent) <= 0.5
  {
    var wanted := Round(Portion(base, percent));
    if wanted > left then left else wanted
  }

  // ---------------------------------------------------------------- the split

  datatype SubSplit = SubSplit(values: seq<Amount>, left: Amount)
  datatype Split = Split(fees: seq<SliceBreakdown>, left: Amount)

  /** Shares of one fee, taken from the `left` that earlier shares have not used. */
  function SplitSubs(subs: seq<SubSlice>, fee: Amount, left: Amount): Result<SubSplit>
    decreases |subs|
  {
    if subs == [] then Ok(SubSplit([], left))
    else if subs[0].script == [] then Err("subslice script required")
    else
      var amount := Fee(fee, ClampPercent(subs[0].percent, 100.0), left);
      var rest := SplitSubs(subs[1..], fee, left - amount);
      if rest.Err? then rest else Ok(SubSplit([amount] + rest.value.values, rest.value.left))
  }

  /** Fees of a reward, taken from the `remaining` that earlier fees have not used. */
  function SplitSlices(slices: seq<FeeSlice>, total: Amount, remaining: Amount): Result<Split>
    decreases |slices|
  {
    if slices == [] then Ok(Split([], remaining))
    else if slices[0].script == [] then Err("fee slice script required")
    else
      var fee := Fee(total, ClampPercent(slices[0].percent, 99.99), remaining);
      var subs := SplitSubs(slices[0].subs, fee, fee);
      if subs.Err? then Err(subs.reason)
      else
        var rest := SplitSlices(slices[1..], total, remaining - fee);
        if rest.Err? then rest
        else Ok(Split([SliceBreakdown(fee, subs.value.left, subs.value.values)] + rest.value.fees, rest.value.left))
  }

  function LayOutSubs(subs: seq<SubSlice>, values: seq<Amount>): (outputs: seq<Output>)
    requires |subs| == |values|
    ensures |outputs| == |subs|
  {
    if subs == [] then [] else [Output(subs[0].script, values[0])] + LayOutSubs(subs[1..], values[1..])
  }

  /** The breakdown has a row for every slice and every sub-slice. */
  predicate Fits(slices: seq<FeeSlice>, fees: seq<SliceBreakdown>) {
    |slices| == |fees| && forall i :: 0 <= i < |slices| ==> |slices[i].subs| == |fees[i].subs|
  }

  /** Slice by slice: what the slice keeps, then what its sub-slices get. */
  function LayOut(slices: seq<FeeSlice>, fees: seq<SliceBreakdown>): seq<Output>
    requires Fits(slices, fees)
  {
    if slices == [] then []
    else
      [Output(slices[0].script, fees[0].parent)] + LayOutSubs(slices[0].subs, fees[0].subs)
      + LayOut(slices[1..], fees[1..])
  }

  function Validate(outputs: seq<Output>): Option<string> {
    if outputs == [] then Some("at least one payout output is required")
    else if |outputs| > MAX_OUTPUTS then Some("too many payout outputs")
    else if exists o :: o in outputs && (o.script == [] || o.value < 0) then Some("bad payout output")
    else None
  }

  function Compute(plan: Plan): Result<(seq<Output>, Breakdown)> {
    if plan.total <= 0 then Err("total coinbase value must be positive")
    else if plan.remainderScript == [] then Err("remainder payout script required")
    else
      var split := SplitSlices(plan.slices, plan.total, plan.total);
      if split.Err? then Err(split.reason)
      else if plan.requirePositive && split.value.left <= 0 then Err("remainder payout must be positive")
      else
        SplitSlicesKeeps(plan.slices, plan.total, plan.total);
        var outputs := LayOut(plan.slices, split.value.fees) + [Output(plan.remainderScript, split.value.left)];
        var bad := Validate(outputs);
        if bad.Some? then Err(bad.value)
        else Ok((outputs, Breakdown(plan.total, split.value.left, split.value.fees)))
  }

  // ---------------------------------------------------------------- conservation

  function Total(outputs: seq<Output>): int {
    if outputs == [] then 0 else outputs[0].value + Total(outputs[1..])
  }

  function SumOf(values: seq<Amount>): nat {
    if values == [] then 0 else values[0] + SumOf(values[1..])
  }

  function FeeSum(fees: seq<SliceBreakdown>): nat {
    if fees == [] then 0 else fees[0].feeTotal + FeeSum(fees[1..])
  }

  predicate Balanced(fees: seq<SliceBreakdown>) {
    forall i :: 0 <= i < |fees| ==> fees[i].feeTotal == fees[i].parent + SumOf(fees[i].subs)
  }

  lemma {:induction false} TotalConcat(a: seq<Output>, b: seq<Output>)
    ensures Total(a + b) == Total(a) + Total(b)
  {
    if a == [] {
      assert a + b == b;
    } else {
      assert (a + b)[1..] == a[1..] + b;
      TotalConcat(a[1..], b);
    }
  }

  /** Within half of the percentage, unless less than that is left to take it from: then all of it. */
  predicate CloseTo(amount: Amount, base: Amount, percent: real, left: int)
  {
    var exact := base as real * percent / 100.0;
    if exact < left as real + 0.5 then -0.5 < amount as real - exact <= 0.5 else amount == left
  }

  /** Every sub-slice is close to its percentage of the fee, given what those before it took. */
  predicate SubsClose(subs: seq<SubSlice>, values: seq<Amount>, fee: Amount, left: Amount) {
    |subs| == |values| &&
    forall i :: 0 <= i < |subs| ==>
      CloseTo(values[i], fee, ClampPercent(subs[i].percent, 100.0), left - SumOf(values[..i]))
  }

  lemma SumAfterHead(values: seq<Amount>, i: nat)
    requires 0 < i <= |values|
    ensures SumOf(values[..i]) == values[0] + SumOf(values[1..][..i - 1])
  {
    assert values[..i][1..] == values[1..][..i - 1];
  }

  lemma SubsCloseCons(subs: seq<SubSlice>, values: seq<Amount>, fee: Amount, left: Amount, after: Amount)
    requires subs != [] && values != [] && after == left - values[0]
    requires CloseTo(values[0], fee, ClampPercent(subs[0].percent, 100.0), left)
    requires SubsClose(subs[1..], values[1..], fee, after)
    ensures SubsClose(subs, values, fee, left)
  {
    forall i | 0 < i < |subs|
      ensures CloseTo(values[i], fee, ClampPercent(subs[i].percent, 100.0), left - SumOf(values[..i]))
    {
      SumAfterHead(values, i);
      assert values[1..][i - 1] == values[i] && subs[1..][i - 1] == subs[i];
    }
  }

  lemma {:induction false} SplitSubsKeeps(subs: seq<SubSlice>, fee: Amount, left: Amount)
    ensures
      var r := SplitSubs(subs, fee, left);
      r.Ok? ==> r.value.left + SumOf(r.value.values) == left && SubsClose(subs, r.value.values, fee, left)
    decreases |subs|
  {
    var r := SplitSubs(subs, fee, left);
    if r.Ok? && subs != [] {
      var amount := Fee(fee, ClampPercent(subs[0].percent, 100.0), left);
      SplitSubsKeeps(subs[1..], fee, left - amount);
      assert r.value.values[1..] == SplitSubs(subs[1..], fee, left - amount).value.values;
      SubsCloseCons(subs, r.value.values, fee, left, left - amount);
    }
  }

  /** Every fee is close to its percentage of the reward, given what those before it took, and so are its shares. */
  predicate SlicesClose(slices: seq<FeeSlice>, fees: seq<SliceBreakdown>, total: Amount, remaining: Amount) {
    |slices| == |fees| &&
    forall i :: 0 <= i < |slices| ==>
      && CloseTo(
           fees[i].feeTotal, total, ClampPercent(slices[i].percent, 99.99), remaining - FeeSum(fees[..i]))
      && SubsClose(slices[i].subs, fees[i].subs, fees[i].feeTotal, fees[i].feeTotal)
  }

  lemma FeeSumAfterHead(fees: seq<SliceBreakdown>, i: nat)
    requires 0 < i <= |fees|
    ensures FeeSum(fees[..i]) == fees[0].feeTotal + FeeSum(fees[1..][..i - 1])
  {
    assert fees[..i][1..] == fees[1..][..i - 1];
  }

  lemma SlicesCloseCons(
    slices: seq<FeeSlice>, fees: seq<SliceBreakdown>, total: Amount, remaining: Amount, after: Amount)
    requires slices != [] && fees != [] && after == remaining - fees[0].feeTotal
    requires CloseTo(fees[0].feeTotal, total, ClampPercent(slices[0].percent, 99.99), remaining)
    requires SubsClose(slices[0].subs, fees[0].subs, fees[0].feeTotal, fees[0].feeTotal)
    requires SlicesClose(slices[1..], fees[1..], total, after)
    ensures SlicesClose(slices, fees, total, remaining)
  {
    forall i | 0 < i < |slices|
      ensures CloseTo(
                fees[i].feeTotal, total, ClampPercent(slices[i].percent, 99.99), remaining - FeeSum(fees[..i]))
      ensures SubsClose(slices[i].subs, fees[i].subs, fees[i].feeTotal, fees[i].feeTotal)
    {
      FeeSumAfterHead(fees, i);
      assert fees[1..][i - 1] == fees[i] && slices[1..][i - 1] == slices[i];
    }
  }

  /** Nothing is lost or made up: what the slices do not take is left. */
  lemma {:induction false} SplitSlicesKeeps(slices: seq<FeeSlice>, total: Amount, remaining: Amount)
    ensures
      var r := SplitSlices(slices, total, remaining);
      r.Ok? ==>
        && Fits(slices, r.value.fees) && Balanced(r.value.fees)
        && r.value.left + FeeSum(r.value.fees) == remaining
        && SlicesClose(slices, r.value.fees, total, remaining)
    decreases |slices|
  {
    var r := SplitSlices(slices, total, remaining);
    if r.Ok? && slices != [] {
      var fee := Fee(total, ClampPercent(slices[0].percent, 99.99), remaining);
      SplitSubsKeeps(slices[0].subs, fee, fee);
      SplitSlicesKeeps(slices[1..], total, remaining - fee);
      assert r.value.fees[1..] == SplitSlices(slices[1..], total, remaining - fee).value.fees;
      SlicesCloseCons(slices, r.value.fees, total, remaining, remaining - fee);
    }
  }

  lemma {:induction false} LayOutSubsTotal(subs: seq<SubSlice>, values: seq<Amount>)
    requires |subs| == |values|
    ensures Total(LayOutSubs(subs, values)) == SumOf(values)
  {
    if subs != [] {
      LayOutSubsTotal(subs[1..], values[1..]);
    }
  }

  lemma {:induction false} LayOutTotal(slices: seq<FeeSlice>, fees: seq<SliceBreakdown>)
    requires Fits(slices, fees) && Balanced(fees)
    ensures Total(LayOut(slices, fees)) == FeeSum(fees)
  {
    if slices != [] {
      var subs := LayOutSubs(slices[0].subs, fees[0].subs);
      var head := [Output(slices[0].script, fees[0].parent)] + subs;
      assert head[1..] == subs;
      LayOutSubsTotal(slices[0].subs, fees[0].subs);
      LayOutTotal(slices[1..], fees[1..]);
      TotalConcat(head, LayOut(slices[1..], fees[1..]));
    }
  }

  /** The outputs pay out exactly the reward; every fee is its parent's part plus its sub-slices; every fee and
      share is within half a satoshi of its percentage, or all that those before it left when that is less. */
  lemma PayoutsConserveTheReward(plan: Plan)
    requires Compute(plan).Ok?
    ensures
      var (outputs, split) := Compute(plan).value;
      && Total(outputs) == plan.total && split.remainder + FeeSum(split.slices) == plan.total
      && Balanced(split.slices) && Fits(plan.slices, split.slices)
      && SlicesClose(plan.slices, split.slices, plan.total, plan.total)
      && forall o :: o in outputs ==> o.value >= 0 && o.script != []
  {
    var split := SplitSlices(plan.slices, plan.total, plan.total).value;
    SplitSlicesKeeps(plan.slices, plan.total, plan.total);
    LayOutTotal(plan.slices, split.fees);
    TotalConcat(LayOut(plan.slices, split.fees), [Output(plan.remainderScript, split.left)]);
  }

  // ---------------------------------------------------------------- who is paid what

  /** Where the outputs of slice `i` start: behind those of the slices before it. */
  function Offset(slices: seq<FeeSlice>, i: nat): nat
    requires i <= |slices|
  {
    if i == 0 then 0 else Offset(slices, i - 1) + 1 + |slices[i - 1].subs|
  }

  /** At `at`: the slice's script with what it keeps, then every sub-slice's script with its share. */
  predicate PaidAt(outputs: seq<Output>, at: nat, slice: FeeSlice, row: SliceBreakdown) {
    && |row.subs| == |slice.subs| && at + |slice.subs| < |outputs|
    && outputs[at] == Output(slice.script, row.parent)
    && forall j :: 0 <= j < |slice.subs| ==> outputs[at + 1 + j] == Output(slice.subs[j].script, row.subs[j])
  }

  lemma {:induction false} OffsetAfterHead(slices: seq<FeeSlice>, i: nat)
    requires 0 < i <= |slices|
    ensures Offset(slices, i) == 1 + |slices[0].subs| + Offset(slices[1..], i - 1)
  {
    if i > 1 {
      OffsetAfterHead(slices, i - 1);
    }
  }

  lemma {:induction false} LayOutSubsAt(subs: seq<SubSlice>, values: seq<Amount>, j: nat)
    requires |subs| == |values| && j < |subs|
    ensures LayOutSubs(subs, values)[j] == Output(subs[j].script, values[j])
  {
    if j > 0 {
      LayOutSubsAt(subs[1..], values[1..], j - 1);
    }
  }

  lemma HeadPaid(slice: FeeSlice, row: SliceBreakdown, rest: seq<Output>)
    requires |slice.subs| == |row.subs|
    ensures PaidAt([Output(slice.script, row.parent)] + LayOutSubs(slice.subs, row.subs) + rest, 0, slice, row)
  {
    forall j | 0 <= j < |slice.subs|
      ensures LayOutSubs(slice.subs, row.subs)[j] == Output(slice.subs[j].script, row.subs[j])
    {
      LayOutSubsAt(slice.subs, row.subs, j);
    }
  }

  lemma PaidBehind(head: seq<Output>, outputs: seq<Output>, at: nat, slice: FeeSlice, row: SliceBreakdown)
    requires PaidAt(outputs, at, slice, row)
    ensures PaidAt(head + outputs, |head| + at, slice, row)
  {
    forall j | 0 <= j < |slice.subs|
      ensures (head + outputs)[|head| + at + 1 + j] == Output(slice.subs[j].script, row.subs[j])
    {
      assert (head + outputs)[|head| + (at + 1 + j)] == outputs[at + 1 + j];
    }
  }

  lemma {:induction false} LayOutPays(slices: seq<FeeSlice>, fees: seq<SliceBreakdown>, i: nat, last: seq<Output>)
    requires Fits(slices, fees) && i < |slices|
    ensures PaidAt(LayOut(slices, fees) + last, Offset(slices, i), slices[i], fees[i])
  {
    var head := [Output(slices[0].script, fees[0].parent)] + LayOutSubs(slices[0].subs, fees[0].subs);
    var rest := LayOut(slices[1..], fees[1..]);
    Assoc(head, rest, last);
    if i == 0 {
      HeadPaid(slices[0], fees[0], rest + last);
    } else {
      LayOutPays(slices[1..], fees[1..], i - 1, last);
      OffsetAfterHead(slices, i);
      PaidBehind(head, rest + last, Offset(slices[1..], i - 1), slices[i], fees[i]);
    }
  }

  lemma {:induction false} LayOutLength(slices: seq<FeeSlice>, fees: seq<SliceBreakdown>)
    requires Fits(slices, fees)
    ensures |LayOut(slices, fees)| == Offset(slices, |slices|)
  {
    if slices != [] {
      LayOutLength(slices[1..], fees[1..]);
      OffsetAfterHead(slices, |slices|);
    }
  }

  /** What the outputs pay to one script. */
  function Received(outputs: seq<Output>, script: Text): int {
    if outputs == [] then 0
    else (if outputs[0].script == script then outputs[0].value else 0) + Received(outputs[1..], script)
  }

  /** What the sub-slices of a fee are due for one script. */
  function DueOfSubs(subs: seq<SubSlice>, values: seq<Amount>, script: Text): nat
    requires |subs| == |values|
  {
    if subs == [] then 0
    else (if subs[0].script == script then values[0] else 0) + DueOfSubs(subs[1..], values[1..], script)
  }

  /** What the slices of a reward are due for one script: the parents' parts and the shares. */
  function DueOfSlices(slices: seq<FeeSlice>, fees: seq<SliceBreakdown>, script: Text): nat
    requires Fits(slices, fees)
  {
    if slices == [] then 0
    else
      (if slices[0].script == script then fees[0].parent else 0)
      + DueOfSubs(slices[0].subs, fees[0].subs, script) + DueOfSlices(slices[1..], fees[1..], script)
  }

  lemma {:induction false} ReceivedConcat(a: seq<Output>, b: seq<Output>, script: Text)
    ensures Received(a + b, script) == Received(a, script) + Received(b, script)
  {
    if a == [] {
      assert a + b == b;
    } else {
      assert (a + b)[1..] == a[1..] + b;
      ReceivedConcat(a[1..], b, script);
    }
  }

  lemma {:induction false} ReceivedOfSubs(subs: seq<SubSlice>, values: seq<Amount>, script: Text)
    requires |subs| == |values|
    ensures Received(LayOutSubs(subs, values), script) == DueOfSubs(subs, values, script)
  {
    if subs != [] {
      ReceivedOfSubs(subs[1..], values[1..], script);
    }
  }

  lemma {:induction false} ReceivedOfSlices(slices: seq<FeeSlice>, fees: seq<SliceBreakdown>, script: Text)
    requires Fits(slices, fees)
    ensures Received(LayOut(slices, fees), script) == DueOfSlices(slices, fees, script)
  {
    if slices != [] {
      var subs := LayOutSubs(slices[0].subs, fees[0].subs);
      var head := [Output(slices[0].script, fees[0].parent)] + subs;
      assert head[1..] == subs;
      ReceivedOfSubs(slices[0].subs, fees[0].subs, script);
      ReceivedOfSlices(slices[1..], fees[1..], script);
      ReceivedConcat(head, LayOut(slices[1..], fees[1..]), script);
    }
  }

  /** Slice by slice in order, every output carries the script the plan names; the remainder comes last. */
  predicate PaysThePlan(plan: Plan, outputs: seq<Output>, split: Breakdown) {
    && split.total == plan.total && |split.slices| == |plan.slices|
    && |outputs| == Offset(plan.slices, |plan.slices|) + 1
    && outputs[|outputs| - 1] == Output(plan.remainderScript, split.remainder)
    && forall i :: 0 <= i < |plan.slices| ==>
         PaidAt(outputs, Offset(plan.slices, i), plan.slices[i], split.slices[i])
  }

  lemma LayOutPaysThePlan(plan: Plan, fees: seq<SliceBreakdown>, left: Amount)
    requires Fits(plan.slices, fees)
    ensures PaysThePlan(
              plan, LayOut(plan.slices, fees) + [Output(plan.remainderScript, left)], Breakdown(plan.total, left, fees))
  {
    LayOutLength(plan.slices, fees);
    forall i | 0 <= i < |plan.slices|
      ensures PaidAt(LayOut(plan.slices, fees) + [Output(plan.remainderScript, left)], Offset(plan.slices, i),
                     plan.slices[i], fees[i])
    {
      LayOutPays(plan.slices, fees, i, [Output(plan.remainderScript, left)]);
    }
  }

  lemma ReceivedOfPlan(plan: Plan, fees: seq<SliceBreakdown>, left: Amount, script: Text)
    requires Fits(plan.slices, fees)
    ensures Received(LayOut(plan.slices, fees) + [Output(plan.remainderScript, left)], script) ==
            DueOfSlices(plan.slices, fees, script) + if script == plan.remainderScript then left else 0
  {
    var last := [Output(plan.remainderScript, left)];
    ReceivedOfSlices(plan.slices, fees, script);
    ReceivedConcat(LayOut(plan.slices, fees), last, script);
    assert last[1..] == [];
  }

  /**
   A plan that can be paid is paid as it says: every slice and sub-slice to its own script, the remainder to the
   remainder script, so that every script receives exactly its parts of the plan.
   */
  lemma EveryScriptIsPaid(plan: Plan, script: Text)
    requires Compute(plan).Ok?
    ensures
      var (outputs, split) := Compute(plan).value;
      && PaysThePlan(plan, outputs, split) && Fits(plan.slices, split.slices)
      && Received(outputs, script) ==
         DueOfSlices(plan.slices, split.slices, script)
         + if script == plan.remainderScript then split.remainder else 0
  {
    var split := SplitSlices(plan.slices, plan.total, plan.total).value;
    SplitSlicesKeeps(plan.slices, plan.total, plan.total);
    LayOutPaysThePlan(plan, split.fees, split.left);
    ReceivedOfPlan(plan, split.fees, split.left, script);
  }

  // ---------------------------------------------------------------- when the split succeeds

  predicate ScriptsPresent(slices: seq<FeeSlice>) {
    forall s :: s in slices ==> s.script != [] && forall sub :: sub in s.subs ==> sub.script != []
  }

  function RemainderAfter(slices: seq<FeeSlice>, total: Amount, remaining: Amount): Amount {
    if slices == [] then remaining
    else RemainderAfter(slices[1..], total, remaining - Fee(total, ClampPercent(slices[0].percent, 99.99), remaining))
  }

  lemma {:induction false} SplitSubsOkIff(subs: seq<SubSlice>, fee: Amount, left: Amount)
    ensures SplitSubs(subs, fee, left).Ok? <==> forall sub :: sub in subs ==> sub.script != []
    decreases |subs|
  {
    if subs != [] {
      assert subs == [subs[0]] + subs[1..];
      SplitSubsOkIff(subs[1..], fee, left - Fee(fee, ClampPercent(subs[0].percent, 100.0), left));
    }
  }

  lemma {:induction false} SplitSlicesOkIff(slices: seq<FeeSlice>, total: Amount, remaining: Amount)
    ensures SplitSlices(slices, total, remaining).Ok? <==> ScriptsPresent(slices)
    decreases |slices|
  {
    if slices != [] {
      assert slices == [slices[0]] + slices[1..];
      var fee := Fee(total, ClampPercent(slices[0].percent, 99.99), remaining);
      SplitSubsOkIff(slices[0].subs, fee, fee);
      SplitSlicesOkIff(slices[1..], total, remaining - fee);
    }
  }

  lemma {:induction false} SplitSlicesLeaves(slices: seq<FeeSlice>, total: Amount, remaining: Amount)
    requires SplitSlices(slices, total, remaining).Ok?
    ensures SplitSlices(slices, total, remaining).value.left == RemainderAfter(slices, total, remaining)
    decreases |slices|
  {
    if slices != [] {
      SplitSlicesLeaves(
        slices[1..], total, remaining - Fee(total, ClampPercent(slices[0].percent, 99.99), remaining));
    }
  }

  lemma {:induction false} LayOutSubsScripts(subs: seq<SubSlice>, values: seq<Amount>)
    requires |subs| == |values| && forall sub :: sub in subs ==> sub.script != []
    ensures forall o :: o in LayOutSubs(subs, values) ==> o.script != [] && o.value >= 0
  {
    if subs != [] {
      LayOutSubsScripts(subs[1..], values[1..]);
    }
  }

  lemma {:induction false} LayOutScripts(slices: seq<FeeSlice>, fees: seq<SliceBreakdown>)
    requires Fits(slices, fees) && ScriptsPresent(slices)
    ensures forall o :: o in LayOut(slices, fees) ==> o.script != [] && o.value >= 0
  {
    if slices != [] {
      assert slices[0] in slices;
      LayOutSubsScripts(slices[0].subs, fees[0].subs);
      LayOutScripts(slices[1..], fees[1..]);
    }
  }

  /** A plan can be paid exactly when there is a reward, every script is there, the outputs are not too many, and a
      remainder that must be positive is. */
  lemma ComputeSucceedsIff(plan: Plan)
    ensures Compute(plan).Ok? <==>
            && plan.total > 0 && plan.remainderScript != [] && ScriptsPresent(plan.slices)
            && Offset(plan.slices, |plan.slices|) < MAX_OUTPUTS
            && (plan.requirePositive ==> RemainderAfter(plan.slices, plan.total, plan.total) > 0)
  {
    if plan.total > 0 && plan.remainderScript != [] {
      SplitSlicesOkIff(plan.slices, plan.total, plan.total);
      SplitSlicesKeeps(plan.slices, plan.total, plan.total);
      if ScriptsPresent(plan.slices) {
        SplitSlicesLeaves(plan.slices, plan.total, plan.total);
        LayOutScripts(plan.slices, SplitSlices(plan.slices, plan.total, plan.total).value.fees);
        LayOutLength(plan.slices, SplitSlices(plan.slices, plan.total, plan.total).value.fees);
      }
    }
  }

  /** One fee and one worker: paid exactly when the worker's exact share is more than half a satoshi, and then the
      fee is the rounded percentage, never cut. */
  lemma DualPayoutSucceedsIff(total: i64, pool: Text, worker: Text, percent: real)
    ensures
      var r := Compute(Plan(total, worker, [FeeSlice(pool, percent, [])], true));
      && (r.Ok? <==> && total > 0 && pool != [] && worker != []
                     && total as real - Portion(total, ClampPercent(percent, 99.99)) > 0.5)
      && (r.Ok? ==>
            var fee := Round(Portion(total, ClampPercent(percent, 99.99)));
            fee < total && r.value.0 == [Output(pool, fee), Output(worker, total - fee)])
  {
    var slice := FeeSlice(pool, percent, []);
    var plan := Plan(total, worker, [slice], true);
    ComputeSucceedsIff(plan);
    assert [slice][1..] == [] && Offset([slice], 1) == Offset([slice], 0) + 1;
    if total > 0 {
      var x := Portion(total, ClampPercent(percent, 99.99));
      var fee := Fee(total, ClampPercent(percent, 99.99), total);
      assert fee == Round(x);
      assert RemainderAfter([slice], total, total) == RemainderAfter([], total, total - fee) == total - fee;
      if pool != [] {
        SoleSlice(slice, total, fee);
      }
    }
  }

  lemma SoleSlice(slice: FeeSlice, total: Amount, fee: Amount)
    requires slice.script != [] && slice.subs == [] && fee == Fee(total, ClampPercent(slice.percent, 99.99), total)
    ensures SplitSlices([slice], total, total) == Ok(Split([SliceBreakdown(fee, fee, [])], total - fee))
    ensures LayOut([slice], [SliceBreakdown(fee, fee, [])]) == [Output(slice.script, fee)]
  {
    assert [slice][1..] == [] && [SliceBreakdown(fee, fee, [])][1..] == [];
    assert SplitSubs(slice.subs, fee, fee) == Ok(SubSplit([], fee));
    assert SplitSlices([], total, total - fee) == Ok(Split([], total - fee));
    assert [SliceBreakdown(fee, fee, [])] + [] == [SliceBreakdown(fee, fee, [])];
  }

  // ---------------------------------------------------------------- the loops

  function Joined(values: seq<Amount>, rest: Result<SubSplit>): Result<SubSplit> {
    if rest.Err? then rest else Ok(SubSplit(values + rest.value.values, rest.value.left))
  }

  lemma NothingJoined(r: Result<SubSplit>)
    ensures Joined([], r) == r
  {
    if r.Ok? { assert [] + r.value.values == r.value.values; }
  }

  lemma SubSplitStep(subs: seq<SubSlice>, j: nat, values: seq<Amount>, fee: Amount, left: Amount)
    requires j < |subs| && subs[j].script != []
    ensures
      var amount := Fee(fee, ClampPercent(subs[j].percent, 100.0), left);
      Joined(values, SplitSubs(subs[j..], fee, left)) ==
      Joined(values + [amount], SplitSubs(subs[j + 1..], fee, left - amount))
  {
    assert subs[j..][1..] == subs[j + 1..];
    var amount := Fee(fee, ClampPercent(subs[j].percent, 100.0), left);
    var rest := SplitSubs(subs[j + 1..], fee, left - amount);
    if rest.Ok? {
      Assoc(values, [amount], rest.value.values);
    }
  }

  lemma {:induction false} LayOutSubsSnoc(subs: seq<SubSlice>, values: seq<Amount>, sub: SubSlice, value: Amount)
    requires |subs| == |values|
    ensures LayOutSubs(subs + [sub], values + [value]) == LayOutSubs(subs, values) + [Output(sub.script, value)]
  {
    if subs != [] {
      assert (subs + [sub])[1..] == subs[1..] + [sub] && (values + [value])[1..] == values[1..] + [value];
      LayOutSubsSnoc(subs[1..], values[1..], sub, value);
    }
  }

  method SplitSubSlices(subs: seq<SubSlice>, feeTotal: Amount)
    returns (ok: bool, values: seq<Amount>, payouts: seq<Output>, feeRemaining: Amount)
    ensures ok == SplitSubs(subs, feeTotal, feeTotal).Ok?
    ensures ok ==> SplitSubs(subs, feeTotal, feeTotal).value == SubSplit(values, feeRemaining)
    ensures ok ==> |values| == |subs| && payouts == LayOutSubs(subs, values)
  {
    values, payouts, feeRemaining := [], [], feeTotal;
    NothingJoined(SplitSubs(subs, feeTotal, feeTotal));
    assert subs[0..] == subs;
    var j := 0;
    while j < |subs|
      invariant 0 <= j <= |subs| && |values| == j && payouts == LayOutSubs(subs[..j], values)
      invariant Joined(values, SplitSubs(subs[j..], feeTotal, feeRemaining)) == SplitSubs(subs, feeTotal, feeTotal)
    {
      if subs[j].script == [] {
        return false, values, payouts, feeRemaining;
      }
      var amount := Fee(feeTotal, ClampPercent(subs[j].percent, 100.0), feeRemaining);
      LayOutSubsSnoc(subs[..j], values, subs[j], amount);
      SubSplitStep(subs, j, values, feeTotal, feeRemaining);
      assert subs[..j + 1] == subs[..j] + [subs[j]];
      feeRemaining := feeRemaining - amount;
      values, payouts := values + [amount], payouts + [Output(subs[j].script, amount)];
      j := j + 1;
    }
    assert subs[..j] == subs;
    ok := true;
  }

  function JoinedFees(fees: seq<SliceBreakdown>, rest: Result<Split>): Result<Split> {
    if rest.Err? then rest else Ok(Split(fees + rest.value.fees, rest.value.left))
  }

  lemma NothingJoinedFees(r: Result<Split>)
    ensures JoinedFees([], r) == r
  {
    if r.Ok? { assert [] + r.value.fees == r.value.fees; }
  }

  lemma {:induction false} LayOutSnoc(
    slices: seq<FeeSlice>, fees: seq<SliceBreakdown>, slice: FeeSlice, fee: SliceBreakdown)
    requires Fits(slices, fees) && |slice.subs| == |fee.subs|
    ensures LayOut(slices + [slice], fees + [fee]) ==
            LayOut(slices, fees) + ([Output(slice.script, fee.parent)] + LayOutSubs(slice.subs, fee.subs))
  {
    if slices != [] {
      assert (slices + [slice])[1..] == slices[1..] + [slice] && (fees + [fee])[1..] == fees[1..] + [fee];
      LayOutSnoc(slices[1..], fees[1..], slice, fee);
    }
  }

  lemma RoundLaysOut(slices: seq<FeeSlice>, i: nat, fees: seq<SliceBreakdown>, row: SliceBreakdown)
    requires i < |slices| && Fits(slices[..i], fees) && |slices[i].subs| == |row.subs|
    ensures Fits(slices[..i + 1], fees + [row])
    ensures LayOut(slices[..i + 1], fees + [row]) ==
            LayOut(slices[..i], fees) + ([Output(slices[i].script, row.parent)] + LayOutSubs(slices[i].subs, row.subs))
  {
    assert slices[..i + 1] == slices[..i] + [slices[i]];
    LayOutSnoc(slices[..i], fees, slices[i], row);
  }

  lemma SplitStep(
    slices: seq<FeeSlice>, i: nat, fees: seq<SliceBreakdown>, total: Amount, remaining: Amount, row: SliceBreakdown)
    requires i < |slices| && slices[i].script != []
    requires row.feeTotal == Fee(total, ClampPercent(slices[i].percent, 99.99), remaining)
    requires SplitSubs(slices[i].subs, row.feeTotal, row.feeTotal) == Ok(SubSplit(row.subs, row.parent))
    ensures JoinedFees(fees, SplitSlices(slices[i..], total, remaining)) ==
            JoinedFees(fees + [row], SplitSlices(slices[i + 1..], total, remaining - row.feeTotal))
  {
    assert slices[i..][1..] == slices[i + 1..];
    var rest := SplitSlices(slices[i + 1..], total, remaining - row.feeTotal);
    if rest.Ok? {
      Assoc(fees, [row], rest.value.fees);
    }
  }

  lemma AllJoinedFees(fees: seq<SliceBreakdown>, total: Amount, remaining: Amount)
    ensures JoinedFees(fees, SplitSlices([], total, remaining)) == Ok(Split(fees, remaining))
  {
    assert fees + [] == fees;
  }

  /** Whether the fee of a slice can be shared out, and what its row says when it can. */
  predicate RowOk(slice: FeeSlice, row: SliceBreakdown, ok: bool) {
    var subs := SplitSubs(slice.subs, row.feeTotal, row.feeTotal);
    && ok == (slice.script != [] && subs.Ok?)
    && (ok ==> subs == Ok(SubSplit(row.subs, row.parent)))
  }

  lemma SplitFails(slices: seq<FeeSlice>, i: nat, fees: seq<SliceBreakdown>, total: Amount, remaining: Amount)
    requires i < |slices|
    requires
      var fee := Fee(total, ClampPercent(slices[i].percent, 99.99), remaining);
      slices[i].script == [] || SplitSubs(slices[i].subs, fee, fee).Err?
    ensures JoinedFees(fees, SplitSlices(slices[i..], total, remaining)).Err?
  {
  }

  lemma RoundSplits(
    slices: seq<FeeSlice>, i: nat, fees: seq<SliceBreakdown>, total: Amount, remaining: Amount, row: SliceBreakdown,
    ok: bool)
    requires i < |slices| && row.feeTotal == Fee(total, ClampPercent(slices[i].percent, 99.99), remaining)
    requires RowOk(slices[i], row, ok)
    ensures
      var before := JoinedFees(fees, SplitSlices(slices[i..], total, remaining));
      if ok then before == JoinedFees(fees + [row], SplitSlices(slices[i + 1..], total, remaining - row.feeTotal))
      else before.Err?
  {
    if ok {
      SplitStep(slices, i, fees, total, remaining, row);
    } else {
      SplitFails(slices, i, fees, total, remaining);
    }
  }

  method SplitFeeSlices(slices: seq<FeeSlice>, total: Amount)
    returns (ok: bool, fees: seq<SliceBreakdown>, payouts: seq<Output>, remaining: Amount)
    ensures if ok then SplitSlices(slices, total, total) == Ok(Split(fees, remaining))
            else SplitSlices(slices, total, total).Err?
    ensures ok ==> Fits(slices, fees) && payouts == LayOut(slices, fees)
  {
    ok, fees, payouts, remaining := true, [], [], total;
    ghost var split := SplitSlices(slices, total, total);
    NothingJoinedFees(split);
    assert slices[0..] == slices;
    var i := 0;
    while ok && i < |slices|
      invariant 0 <= i <= |slices| && Fits(slices[..i], fees) && payouts == LayOut(slices[..i], fees)
      invariant if ok then JoinedFees(fees, SplitSlices(slices[i..], total, remaining)) == split else split.Err?
      decreases |slices| - i, ok
    {
      var row, paid;
      ok, row, paid := SplitOneSlice(slices[i], total, remaining);
      RoundSplits(slices, i, fees, total, remaining, row, ok);
      if ok {
        RoundLaysOut(slices, i, fees, row);
        fees, payouts, remaining := fees + [row], payouts + paid, remaining - row.feeTotal;
        i := i + 1;
      }
    }
    if ok {
      assert slices[..i] == slices && slices[i..] == [];
      AllJoinedFees(fees, total, remaining);
    }
  }

  /** One round of the outer loop: the fee, its sub-slices, and the outputs they make. */
  method SplitOneSlice(slice: FeeSlice, total: Amount, remaining: Amount)
    returns (ok: bool, row: SliceBreakdown, payouts: seq<Output>)
    ensures row.feeTotal == Fee(total, ClampPercent(slice.percent, 99.99), remaining)
    ensures RowOk(slice, row, ok)
    ensures ok ==> |row.subs| == |slice.subs|
    ensures ok ==> payouts == [Output(slice.script, row.parent)] + LayOutSubs(slice.subs, row.subs)
  {
    var feeTotal := Fee(total, ClampPercent(slice.percent, 99.99), remaining);
    row, payouts := SliceBreakdown(feeTotal, feeTotal, []), [];
    if slice.script == [] {
      return false, row, payouts;
    }
    var subValues, subPayouts, feeRemaining;
    ok, subValues, subPayouts, feeRemaining := SplitSubSlices(slice.subs, feeTotal);
    if ok {
      row := SliceBreakdown(feeTotal, feeRemaining, subValues);
      payouts := [Output(slice.script, feeRemaining)] + subPayouts;
    }
  }

  method ComputeCoinbasePayouts(plan: Plan) returns (ok: bool, payouts: seq<Output>, breakdown: Breakdown)
    ensures ok == Compute(plan).Ok?
    ensures ok ==> Compute(plan).value == (payouts, breakdown)
    ensures ok ==>
              && PaysThePlan(plan, payouts, breakdown) && Total(payouts) == plan.total
              && (plan.requirePositive ==> breakdown.remainder > 0)
              && SlicesClose(plan.slices, breakdown.slices, plan.total, plan.total)
  {
    payouts, breakdown := [], Breakdown(plan.total, 0, []);
    if plan.total <= 0 || plan.remainderScript == [] {
      return false, payouts, breakdown;
    }
    var split, fees, paid, remaining := SplitFeeSlices(plan.slices, plan.total);
    if !split || (plan.requirePositive && remaining <= 0) {
      return false, payouts, breakdown;
    }
    payouts := paid + [Output(plan.remainderScript, remaining)];
    breakdown := Breakdown(plan.total, remaining, fees);
    ok := Validate(payouts).None?;
    if ok {
      EveryScriptIsPaid(plan, []);
      PayoutsConserveTheReward(plan);
    }
  }
}
