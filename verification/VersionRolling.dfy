/**
 BIP 310 version rolling on one connection: the negotiated mask, the guaranteed bit count, and the
 bounded list of recently active masks.
 */
module VersionRolling {
  import opened Sequences

  // ---------------------------------------------------------------- bit counts

  lemma ShiftShrinks(m: bv32)
    requires m != 0
    ensures m >> 1 < m
    ensures m & 1 == 0 ==> m >> 1 != 0
  {
  }

  /** How many bits are set. */
  function OnesCount(m: bv32): (n: nat)
    ensures n == 0 <==> m == 0
    decreases m
  {
    if m == 0 then 0
    else
      ShiftShrinks(m);
      (if m & 1 == 1 then 1 else 0) + OnesCount(m >> 1)
  }

  /** Whether bit `k` is set. */
  predicate Bit(m: bv32, k: bv32)
    requires k < 32
  {
    (m >> k) & 1 == 1
  }

  /** How many of the lowest `k` bits are set. */
  function BitsBelow(m: bv32, k: bv32): nat
    requires k <= 32
    decreases k
  {
    if k == 0 then 0 else BitsBelow(m, k - 1) + if Bit(m, k - 1) then 1 else 0
  }

  /** Counting by shifting is counting every bit once. */
  lemma {:induction false} OnesCountIsBits(m: bv32, k: bv32)
    requires k <= 32
    ensures OnesCount(m) == BitsBelow(m, k) + OnesCount(m >> k)
    decreases k
  {
    if k > 0 {
      OnesCountIsBits(m, k - 1);
      ShiftAgain(m, k - 1);
    } else {
      assert m >> 0 == m;
    }
  }

  lemma ShiftAgain(m: bv32, k: bv32)
    requires k < 32
    ensures (m >> k) >> 1 == m >> (k + 1)
  {
  }

  lemma OnesCountCountsBits(m: bv32)
    ensures OnesCount(m) == BitsBelow(m, 32)
  {
    OnesCountIsBits(m, 32);
    assert m >> 32 == 0;
  }

  /** The bits both sides allow. */
  function CommonBits(a: bv32, b: bv32): bv32 {
    a & b
  }

  lemma CommonBitByBit(a: bv32, b: bv32, k: bv32)
    requires k < 32
    ensures Bit(CommonBits(a, b), k) <==> Bit(a, k) && Bit(b, k)
  {
  }

  // ---------------------------------------------------------------- recency

  function Without<T(==)>(s: seq<T>, x: T): seq<T> {
    if s == [] then []
    else if s[0] == x then Without(s[1..], x)
    else [s[0]] + Without(s[1..], x)
  }

  /** The distinct elements of a trace, ordered by their last appearance. */
  function Recency<T(==)>(trace: seq<T>): seq<T> {
    if trace == [] then []
    else Without(Recency(trace[..|trace| - 1]), trace[|trace| - 1]) + [trace[|trace| - 1]]
  }

  lemma DistinctCons<T>(x: T, s: seq<T>)
    ensures Distinct([x] + s) <==> x !in s && Distinct(s)
  {
    var all := [x] + s;
    assert forall j :: 0 <= j < |s| ==> all[j + 1] == s[j];
    assert all[0] == x;
  }

  lemma {:induction false} WithoutElements<T>(s: seq<T>, x: T)
    ensures x !in Without(s, x)
    ensures forall y :: y in Without(s, x) <==> y in s && y != x
    ensures x !in s ==> Without(s, x) == s
  {
    if s != [] {
      WithoutElements(s[1..], x);
      assert s == [s[0]] + s[1..];
    }
  }

  lemma {:induction false} WithoutKeepsDistinct<T>(s: seq<T>, x: T)
    requires Distinct(s)
    ensures Distinct(Without(s, x))
  {
    if s != [] {
      assert s == [s[0]] + s[1..];
      DistinctCons(s[0], s[1..]);
      WithoutKeepsDistinct(s[1..], x);
      WithoutElements(s[1..], x);
      DistinctCons(s[0], Without(s[1..], x));
    }
  }

  lemma SnocKeepsDistinct<T>(s: seq<T>, x: T)
    requires Distinct(s) && x !in s
    ensures Distinct(s + [x])
  {
  }

  lemma {:induction false} RecencyElements<T>(trace: seq<T>)
    ensures Distinct(Recency(trace))
    ensures forall x :: x in Recency(trace) <==> x in trace
  {
    if trace != [] {
      RecencyElements(trace[..|trace| - 1]);
      RecencySnoc(trace, Recency(trace[..|trace| - 1]));
    }
  }

  lemma RecencySnoc<T>(trace: seq<T>, before: seq<T>)
    requires trace != [] && Distinct(before)
    requires forall x :: x in before <==> x in trace[..|trace| - 1]
    ensures
      var last := trace[|trace| - 1];
      Distinct(Without(before, last) + [last]) && forall x :: x in Without(before, last) + [last] <==> x in trace
  {
    var last := trace[|trace| - 1];
    WithoutElements(before, last);
    WithoutKeepsDistinct(before, last);
    SnocKeepsDistinct(Without(before, last), last);
    assert trace == trace[..|trace| - 1] + [last];
  }

  lemma {:induction false} WithoutConcat<T>(s: seq<T>, t: seq<T>, x: T)
    ensures Without(s + t, x) == Without(s, x) + Without(t, x)
  {
    if s == [] {
      assert s + t == t;
    } else {
      assert (s + t)[1..] == s[1..] + t;
      WithoutConcat(s[1..], t, x);
    }
  }

  lemma DistinctConcat<T>(s: seq<T>, t: seq<T>)
    requires Distinct(s + t)
    ensures Distinct(s) && Distinct(t) && forall x :: x in s ==> x !in t
  {
    assert forall i :: 0 <= i < |s| ==> (s + t)[i] == s[i];
    assert forall i :: 0 <= i < |t| ==> (s + t)[|s| + i] == t[i];
  }

  lemma {:induction false} WithoutAt<T>(s: seq<T>, i: nat)
    requires Distinct(s) && i < |s|
    ensures Without(s, s[i]) == s[..i] + s[i + 1..]
  {
    var before, after := s[..i], s[i + 1..];
    assert s == before + ([s[i]] + after);
    DistinctConcat(before, [s[i]] + after);
    WithoutConcat(before, [s[i]] + after, s[i]);
    WithoutElements(before, s[i]);
    WithoutElements(after, s[i]);
    assert s[i] in [s[i]] + after;
    assert ([s[i]] + after)[1..] == after;
  }

  /** An element of the newer part is not in the older part; one of neither is removed from neither. */
  lemma WithoutOlder<T>(older: seq<T>, kept: seq<T>, x: T)
    requires Distinct(older + kept)
    ensures Without(older + kept, x) == Without(older, x) + Without(kept, x)
    ensures x in kept ==> Without(older, x) == older
    ensures x !in kept ==> Without(kept, x) == kept
  {
    DistinctConcat(older, kept);
    WithoutConcat(older, kept, x);
    if x in kept { WithoutElements(older, x); } else { WithoutElements(kept, x); }
  }

  /** Trimming to the last `n` before or after remembering an element makes no difference. */
  lemma TrimThenRemember<T>(r: seq<T>, n: nat, x: T)
    requires Distinct(r) && n >= 1
    ensures LastN(Without(LastN(r, n), x) + [x], n) == LastN(Without(r, x) + [x], n)
  {
    if |r| > n {
      var older, kept := r[..|r| - n], r[|r| - n..];
      assert r == older + kept;
      TrimOlder(older, kept, n, x);
    }
  }

  lemma TrimOlder<T>(older: seq<T>, kept: seq<T>, n: nat, x: T)
    requires Distinct(older + kept) && |kept| == n
    ensures LastN(Without(kept, x) + [x], n) == LastN(Without(older + kept, x) + [x], n)
  {
    WithoutOlder(older, kept, x);
    DistinctConcat(older, kept);
    if x in kept {
      // One of the kept masks moves to the end, so nothing older can come back.
      WithoutOne(kept, x);
    }
    RejoinTail(Without(older, x), Without(kept, x), x, n);
  }

  /** What moving a mask to the newest place of the bounded history has to give. */
  lemma RememberedHistory<T>(trace: seq<T>, history: seq<T>, n: nat, x: T)
    requires n >= 1 && history == LastN(Recency(trace), n)
    ensures Distinct(history) && LastN(Without(history, x) + [x], n) == LastN(Recency(trace + [x]), n)
  {
    RecencyElements(trace);
    DistinctTail(Recency(trace), n);
    TrimThenRemember(Recency(trace), n, x);
    assert (trace + [x])[..|trace|] == trace;
  }

  lemma WithoutOne<T>(s: seq<T>, x: T)
    requires Distinct(s) && x in s
    ensures |Without(s, x)| == |s| - 1
  {
    var i :| 0 <= i < |s| && s[i] == x;
    WithoutAt(s, i);
  }

  lemma RejoinTail<T>(s: seq<T>, t: seq<T>, x: T, n: nat)
    requires |t| + 1 >= n
    ensures LastN(s + t + [x], n) == LastN(t + [x], n)
  {
  }

  // ---------------------------------------------------------------- the connection's state

  const DEFAULT_RECENT_JOBS := 10
  const MAX_HISTORY := 64

  /** Twice the remembered jobs, covering both job tiers, but never more than 64. */
  function HistoryLimit(maxRecentJobs: int): (n: nat)
    ensures 1 <= n <= MAX_HISTORY
    ensures maxRecentJobs <= 0 ==> n == 20
    ensures 1 <= maxRecentJobs <= 32 ==> n == 2 * maxRecentJobs
    ensures maxRecentJobs > 32 ==> n == 64
  {
    var jobs := if maxRecentJobs <= 0 then DEFAULT_RECENT_JOBS else maxRecentJobs;
    if 2 * jobs > MAX_HISTORY then MAX_HISTORY else 2 * jobs
  }

  class Policy {
    const maxRecentJobs: int
    var poolMask: bv32
    var minerMask: bv32
    var versionMask: bv32
    var minVerBits: int
    var versionRoll: bool
    var pendingVersionMask: bool
    var versionMaskHistory: seq<bv32>
    var overflowed: bool

    /** Every mask that has been active on this connection, in order of activation. */
    ghost var activations: seq<bv32>

    ghost predicate Valid()
      reads this
    {
      && versionMaskHistory == LastN(Recency(activations), HistoryLimit(maxRecentJobs))
      && (versionRoll ==>
            && versionMask == CommonBits(poolMask, minerMask)
            && minVerBits <= OnesCount(versionMask)
            && (versionMask != 0 ==> minVerBits >= 1)
            && activations != [] && activations[|activations| - 1] == versionMask)
    }

    constructor (maxRecentJobs: int, poolMask: bv32, minVerBits: int)
      ensures Valid() && activations == [] && !versionRoll && versionMask == 0
      ensures this.poolMask == poolMask && this.minVerBits == minVerBits && this.maxRecentJobs == maxRecentJobs
    {
      this.maxRecentJobs, this.poolMask, this.minVerBits := maxRecentJobs, poolMask, minVerBits;
      minerMask, versionMask, versionRoll, pendingVersionMask := 0, 0, false, false;
      versionMaskHistory, overflowed, activations := [], false, [];
    }

    /** Takes a mask out of the history, where it stands at most once, and puts it at the end. */
    method MoveToNewest(mask: bv32)
      requires Distinct(versionMaskHistory)
      modifies this`versionMaskHistory
      ensures versionMaskHistory == Without(old(versionMaskHistory), mask) + [mask]
    {
      var i := 0;
      while i < |versionMaskHistory| && versionMaskHistory[i] != mask
        invariant 0 <= i <= |versionMaskHistory|
        invariant mask !in versionMaskHistory[..i]
      {
        i := i + 1;
      }
      WithoutElements(versionMaskHistory, mask);
      if i < |versionMaskHistory| {
        WithoutAt(versionMaskHistory, i);
        versionMaskHistory := versionMaskHistory[..i] + versionMaskHistory[i + 1..];
      }
      versionMaskHistory := versionMaskHistory + [mask];
    }

    /** The bounded history with a mask at its newest place. */
    method RememberVersionMaskLocked(mask: bv32)
      requires versionMaskHistory == LastN(Recency(activations), HistoryLimit(maxRecentJobs))
      modifies this`versionMaskHistory, this`overflowed, this`activations
      ensures activations == old(activations) + [mask]
      ensures versionMaskHistory == LastN(Recency(activations), HistoryLimit(maxRecentJobs))
    {
      var limit := if maxRecentJobs <= 0 then DEFAULT_RECENT_JOBS else maxRecentJobs;
      limit := limit * 2;
      if limit > MAX_HISTORY {
        limit := MAX_HISTORY;
      }
      RememberedHistory(activations, versionMaskHistory, limit, mask);
      MoveToNewest(mask);
      if |versionMaskHistory| > limit {
        versionMaskHistory := versionMaskHistory[|versionMaskHistory| - limit..];
        overflowed := true;
      }
      activations := activations + [mask];
    }

    /** A mining.configure request; the outcome and the whole new state. */
    method NegotiateVersionRolling(requestMask: bv32, maskProvided: bool, requestedMinBits: int, minBitsProvided: bool)
      returns (mask: bv32, minBits: int, ok: bool)
      requires Valid()
      modifies this
      ensures Valid() && poolMask == old(poolMask) && versionRoll == ok
      ensures minerMask == if maskProvided then requestMask else 0xffff_ffff
      ensures ok <==> CommonBits(poolMask, minerMask) != 0
      ensures minBits == minVerBits >= 1
      ensures
        var wanted := if minBitsProvided then requestedMinBits else old(minVerBits);
        var atLeastOne := if wanted <= 0 then 1 else wanted;
        if ok then
          && mask == versionMask == CommonBits(poolMask, minerMask) && activations == old(activations) + [mask]
          && minBits == (if atLeastOne > OnesCount(mask) then OnesCount(mask) else atLeastOne)
          && pendingVersionMask == old(pendingVersionMask)
        else
          && mask == 0 && versionMask == poolMask && activations == old(activations)
          && minBits == atLeastOne && !pendingVersionMask
    {
      minBits := if minBitsProvided then requestedMinBits else minVerBits;
      if minBits <= 0 {
        minBits := 1;
      }
      mask, minBits, ok := Settle(if maskProvided then requestMask else 0xffff_ffff, minBits);
    }

    /** Grants rolling on what pool and miner have in common, or denies it when that is nothing. */
    method Settle(miner: bv32, wantedBits: int) returns (mask: bv32, minBits: int, ok: bool)
      requires Valid() && wantedBits >= 1
      modifies this
      ensures Valid() && poolMask == old(poolMask) && versionRoll == ok && minerMask == miner
      ensures (ok <==> CommonBits(poolMask, miner) != 0) && minBits == minVerBits >= 1
      ensures
        if ok then
          && mask == versionMask == CommonBits(poolMask, miner) && activations == old(activations) + [mask]
          && minBits == (if wantedBits > OnesCount(mask) then OnesCount(mask) else wantedBits)
          && pendingVersionMask == old(pendingVersionMask)
        else
          && mask == 0 && versionMask == poolMask && activations == old(activations)
          && minBits == wantedBits && !pendingVersionMask
    {
      minBits := wantedBits;
      mask := CommonBits(poolMask, miner);
      if poolMask == 0 || mask == 0 {
        NoCommonBits(miner);
        Deactivate(miner, minBits);
        return 0, minBits, false;
      }
      minBits := Activate(miner, mask, minBits);
      ok := true;
    }

    /** Turns rolling off; the pool's own mask is shown. */
    method Deactivate(miner: bv32, minBits: int)
      requires Valid()
      modifies this`minerMask, this`minVerBits, this`versionRoll, this`versionMask, this`pendingVersionMask
      ensures Valid() && !versionRoll && versionMask == poolMask && minerMask == miner && minVerBits == minBits
      ensures !pendingVersionMask
    {
      minerMask, versionRoll, versionMask := miner, false, poolMask;
      minVerBits, pendingVersionMask := minBits, false;
    }

    /** Turns rolling on with a nonzero mask and at most as many guaranteed bits as it has. */
    method Activate(miner: bv32, mask: bv32, wantedBits: int) returns (minBits: int)
      requires versionMaskHistory == LastN(Recency(activations), HistoryLimit(maxRecentJobs))
      requires mask == CommonBits(poolMask, miner) && mask != 0 && wantedBits >= 1
      modifies this`minerMask, this`minVerBits, this`versionRoll, this`versionMask,
               this`versionMaskHistory, this`overflowed, this`activations
      ensures Valid() && versionRoll && versionMask == mask && minerMask == miner && minVerBits == minBits
      ensures minBits == if wantedBits > OnesCount(mask) then OnesCount(mask) else wantedBits
      ensures activations == old(activations) + [mask]
    {
      minBits := wantedBits;
      var available := OnesCount(mask);
      if minBits > available {
        minBits := available;
      }
      minerMask, minVerBits, versionRoll, versionMask := miner, minBits, true, mask;
      RememberVersionMaskLocked(mask);
    }

    /** A job brings the pool's current mask; reports whether the miner has to be told. */
    method UpdateVersionMask(newPoolMask: bv32) returns (changed: bool)
      requires Valid()
      modifies this
      ensures Valid() && poolMask == newPoolMask
      ensures versionRoll == old(versionRoll) && minerMask == old(minerMask)
      ensures versionMask == if versionRoll then CommonBits(newPoolMask, minerMask) else newPoolMask
      ensures activations == old(activations) + if versionRoll then [versionMask] else []
      ensures
        var available := OnesCount(versionMask);
        var wanted := if available > 0 && old(minVerBits) <= 0 then 1 else old(minVerBits);
        minVerBits ==
        if !versionRoll then old(minVerBits) else if wanted > available then available else wanted
      ensures changed <==> poolMask != old(poolMask) || versionMask != old(versionMask) || minVerBits != old(minVerBits)
    {
      changed := poolMask != newPoolMask;
      poolMask := newPoolMask;
      if !versionRoll {
        changed := changed || versionMask != newPoolMask;
        versionMask := newPoolMask;
        return;
      }
      var narrowed := ShowFinalMask(CommonBits(newPoolMask, minerMask));
      changed := changed || narrowed;
    }

    /** The active mask and the guaranteed bits that follow from it: at least one while there is one, at most all. */
    method ShowFinalMask(finalMask: bv32) returns (changed: bool)
      requires versionMaskHistory == LastN(Recency(activations), HistoryLimit(maxRecentJobs))
      modifies this`minVerBits, this`versionMask, this`versionMaskHistory, this`overflowed, this`activations
      ensures versionMaskHistory == LastN(Recency(activations), HistoryLimit(maxRecentJobs))
      ensures versionMask == finalMask && activations == old(activations) + [finalMask]
      ensures
        var available := OnesCount(finalMask);
        var wanted := if available > 0 && old(minVerBits) <= 0 then 1 else old(minVerBits);
        minVerBits == if wanted > available then available else wanted
      ensures changed <==> versionMask != old(versionMask) || minVerBits != old(minVerBits)
    {
      var available := OnesCount(finalMask);
      changed := false;
      if available > 0 && minVerBits <= 0 {
        minVerBits := 1;
        changed := true;
      }
      if minVerBits > available {
        minVerBits := available;
        changed := true;
      }
      if versionMask != finalMask {
        changed := true;
      }
      versionMask := finalMask;
      RememberVersionMaskLocked(finalMask);
    }

    method QueueVersionMaskIfActive()
      requires Valid()
      modifies this`pendingVersionMask
      ensures Valid() && pendingVersionMask == (versionRoll || old(pendingVersionMask))
    {
      if versionRoll {
        pendingVersionMask := true;
      }
    }
  }

  lemma NoCommonBits(b: bv32)
    ensures CommonBits(0, b) == 0
  {
  }

  lemma DistinctTail<T>(s: seq<T>, n: nat)
    requires Distinct(s)
    ensures Distinct(LastN(s, n))
  {
    if |s| > n {
      assert s == s[..|s| - n] + s[|s| - n..];
      DistinctConcat(s[..|s| - n], s[|s| - n..]);
    }
  }

  /** What a valid active state's history is: bounded, distinct, the most recent masks, the current one last. */
  lemma HistoryIsRecent(activations: seq<bv32>, limit: nat, mask: bv32)
    requires activations != [] && limit >= 1 && activations[|activations| - 1] == mask
    ensures
      var history := LastN(Recency(activations), limit);
      && Distinct(history) && 1 <= |history| <= limit && history[|history| - 1] == mask
      && (forall m :: m in history ==> m in activations)
      && (|history| < limit ==> forall m :: m in activations ==> m in history)
  {
    RecencyElements(activations);
    DistinctTail(Recency(activations), limit);
  }
}
