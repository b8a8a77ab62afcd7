/** The list of best shares: a sorted array of twelve, filled by binary search and a shift, behind an early filter. */
module BestShares {
  const LIMIT := 12

  /** Difficulties are exact here. */
  datatype Share = Share(worker: string, difficulty: real, hash: string)

  // ---------------------------------------------------------------- the ranking

  function Insert(list: seq<Share>, x: Share): (r: seq<Share>)
    ensures |r| == |list| + 1
  {
    if list == [] || x.difficulty >= list[0].difficulty then [x] + list else [list[0]] + Insert(list[1..], x)
  }

  function Top(list: seq<Share>): (r: seq<Share>)
    ensures |r| <= LIMIT && |r| <= |list|
  {
    if |list| > LIMIT then list[..LIMIT] else list
  }

  predicate Full(list: seq<Share>, d: real) {
    |list| >= LIMIT && d <= list[|list| - 1].difficulty
  }

  function Record(list: seq<Share>, x: Share): seq<Share> {
    if x.difficulty <= 0.0 || Full(list, x.difficulty) then list else Top(Insert(list, x))
  }

  function Play(list: seq<Share>, shares: seq<Share>): seq<Share>
    decreases |shares|
  {
    if shares == [] then list else Play(Record(list, shares[0]), shares[1..])
  }

  predicate Sorted(list: seq<Share>) {
    forall i, j :: 0 <= i < j < |list| ==> list[i].difficulty >= list[j].difficulty
  }

  predicate Ranking(list: seq<Share>) {
    |list| <= LIMIT && Sorted(list) && forall i :: 0 <= i < |list| ==> list[i].difficulty > 0.0
  }

  // ---------------------------------------------------------------- against plain sorting

  function InsertNumber(ds: seq<real>, d: real): (r: seq<real>)
    ensures |r| == |ds| + 1
  {
    if ds == [] || d >= ds[0] then [d] + ds else [ds[0]] + InsertNumber(ds[1..], d)
  }

  /** All positive difficulties ever recorded, largest first. */
  function SortedDown(shares: seq<Share>): seq<real> {
    if shares == [] then []
    else
      var rest := SortedDown(shares[..|shares| - 1]);
      var d := shares[|shares| - 1].difficulty;
      if d <= 0.0 then rest else InsertNumber(rest, d)
  }

  function Largest(ds: seq<real>): seq<real> {
    if |ds| > LIMIT then ds[..LIMIT] else ds
  }

  function Difficulties(list: seq<Share>): (ds: seq<real>)
    ensures |ds| == |list|
    ensures forall i :: 0 <= i < |list| ==> ds[i] == list[i].difficulty
  {
    seq(|list|, i requires 0 <= i < |list| => list[i].difficulty)
  }

  predicate Descending(ds: seq<real>) {
    forall i, j :: 0 <= i < j < |ds| ==> ds[i] >= ds[j]
  }

  function Positives(shares: seq<Share>): multiset<real> {
    if shares == [] then multiset{}
    else
      var d := shares[|shares| - 1].difficulty;
      Positives(shares[..|shares| - 1]) + if d <= 0.0 then multiset{} else multiset{d}
  }

  lemma {:induction false} InsertNumberSorted(ds: seq<real>, d: real, top: real)
    requires Descending(ds) && d <= top && forall i :: 0 <= i < |ds| ==> ds[i] <= top
    ensures Descending(InsertNumber(ds, d))
    ensures forall i :: 0 <= i < |ds| + 1 ==> InsertNumber(ds, d)[i] <= top
  {
    if ds != [] && d < ds[0] {
      InsertNumberSorted(ds[1..], d, ds[0]);
    }
  }

  lemma {:induction false} InsertNumberAdds(ds: seq<real>, d: real)
    ensures multiset(InsertNumber(ds, d)) == multiset(ds) + multiset{d}
  {
    if ds != [] {
      assert ds == [ds[0]] + ds[1..];
      if d < ds[0] {
        InsertNumberAdds(ds[1..], d);
      }
    }
  }

  /** The reference really is all positive difficulties in descending order. */
  lemma {:induction false} SortedDownIsSorting(shares: seq<Share>)
    ensures Descending(SortedDown(shares)) && multiset(SortedDown(shares)) == Positives(shares)
  {
    if shares != [] {
      var front, d := shares[..|shares| - 1], shares[|shares| - 1].difficulty;
      SortedDownIsSorting(front);
      var rest := SortedDown(front);
      if d > 0.0 {
        InsertNumberSorted(rest, d, if rest == [] || rest[0] <= d then d else rest[0]);
        InsertNumberAdds(rest, d);
      }
    }
  }

  lemma {:induction false} InsertMatches(list: seq<Share>, x: Share)
    ensures Difficulties(Insert(list, x)) == InsertNumber(Difficulties(list), x.difficulty)
  {
    if list != [] && x.difficulty < list[0].difficulty {
      InsertMatches(list[1..], x);
      assert Difficulties(list)[1..] == Difficulties(list[1..]);
    }
  }

  /** Cutting off the tail before inserting does not change the head. */
  lemma {:induction false} InsertIntoPrefix(ds: seq<real>, d: real, n: nat)
    requires n <= |ds|
    ensures InsertNumber(ds, d)[..n] == InsertNumber(ds[..n], d)[..n]
  {
    if n > 0 && d < ds[0] {
      InsertIntoPrefix(ds[1..], d, n - 1);
      assert ds[..n][1..] == ds[1..][..n - 1];
    } else if n > 0 {
      assert ([d] + ds)[..n] == [d] + ds[..n - 1];
      assert ([d] + ds[..n])[..n] == [d] + ds[..n][..n - 1];
      assert ds[..n][..n - 1] == ds[..n - 1];
    }
  }

  /** A number that is not above the last of a full prefix leaves the prefix alone. */
  lemma {:induction false} InsertBehind(ds: seq<real>, d: real)
    requires Descending(ds) && ds != [] && d <= ds[|ds| - 1]
    ensures InsertNumber(ds, d)[..|ds|] == ds
  {
    assert ds == [ds[0]] + ds[1..];
    if d >= ds[0] {
      assert forall i :: 0 <= i < |ds| ==> ds[i] == d;
    } else if |ds| > 1 {
      InsertBehind(ds[1..], d);
    }
  }

  lemma LargestOfInsert(ds: seq<real>, d: real)
    ensures Largest(InsertNumber(ds, d)) == Largest(InsertNumber(Largest(ds), d))
  {
    if |ds| > LIMIT {
      InsertIntoPrefix(ds, d, LIMIT);
    }
  }

  lemma RecordMatches(list: seq<Share>, x: Share)
    requires Ranking(list)
    ensures Difficulties(Record(list, x)) ==
            if x.difficulty <= 0.0 then Difficulties(list)
            else Largest(InsertNumber(Difficulties(list), x.difficulty))
  {
    InsertMatches(list, x);
    if x.difficulty > 0.0 && Full(list, x.difficulty) {
      InsertBehind(Difficulties(list), x.difficulty);
    }
  }

  lemma {:induction false} InsertKeepsSorted(list: seq<Share>, x: Share, top: real)
    requires Sorted(list) && x.difficulty <= top && forall i :: 0 <= i < |list| ==> list[i].difficulty <= top
    ensures Sorted(Insert(list, x))
    ensures forall i :: 0 <= i < |list| + 1 ==> Insert(list, x)[i].difficulty <= top
  {
    if list != [] && x.difficulty < list[0].difficulty {
      InsertKeepsSorted(list[1..], x, list[0].difficulty);
    }
  }

  lemma {:induction false} InsertKeepsPositive(list: seq<Share>, x: Share)
    requires x.difficulty > 0.0 && forall i :: 0 <= i < |list| ==> list[i].difficulty > 0.0
    ensures forall i :: 0 <= i < |list| + 1 ==> Insert(list, x)[i].difficulty > 0.0
  {
    if list != [] && x.difficulty < list[0].difficulty {
      InsertKeepsPositive(list[1..], x);
    }
  }

  lemma RecordKeepsRanking(list: seq<Share>, x: Share)
    requires Ranking(list)
    ensures Ranking(Record(list, x))
  {
    if x.difficulty > 0.0 {
      InsertKeepsPositive(list, x);
      InsertKeepsSorted(
        list, x, if list == [] || list[0].difficulty <= x.difficulty then x.difficulty else list[0].difficulty);
    }
  }

  lemma {:induction false} PlaySnoc(list: seq<Share>, shares: seq<Share>, x: Share)
    ensures Play(list, shares + [x]) == Record(Play(list, shares), x)
    decreases |shares|
  {
    if shares == [] {
      assert [x][1..] == [] && [] + [x] == [x];
    } else {
      assert (shares + [x])[1..] == shares[1..] + [x];
      PlaySnoc(Record(list, shares[0]), shares[1..], x);
    }
  }

  /** After any shares the list is sorted and its difficulties are the twelve largest recorded, ties counted. */
  lemma {:induction false} ListIsTheTwelveBest(shares: seq<Share>)
    ensures Ranking(Play([], shares)) && Difficulties(Play([], shares)) == Largest(SortedDown(shares))
  {
    if shares != [] {
      var front, x := shares[..|shares| - 1], shares[|shares| - 1];
      assert shares == front + [x];
      ListIsTheTwelveBest(front);
      PlaySnoc([], front, x);
      RecordKeepsRanking(Play([], front), x);
      RecordMatches(Play([], front), x);
      LargestOfInsert(SortedDown(front), x.difficulty);
    }
  }

  // ---------------------------------------------------------------- the filter in front of the write lock

  /** Recording never lowers the bar: a share that could not rank before cannot rank after. */
  lemma StaysFull(list: seq<Share>, x: Share, d: real)
    requires Ranking(list) && Full(list, d)
    ensures Full(Record(list, x), d)
  {
    if x.difficulty > 0.0 && !Full(list, x.difficulty) {
      InsertKeepsLow(list, x, d);
    }
  }

  lemma {:induction false} InsertKeepsLow(list: seq<Share>, x: Share, d: real)
    requires d <= x.difficulty && forall i :: 0 <= i < |list| ==> d <= list[i].difficulty
    ensures forall i :: 0 <= i < |list| + 1 ==> d <= Insert(list, x)[i].difficulty
  {
    if list != [] && x.difficulty < list[0].difficulty {
      InsertKeepsLow(list[1..], x, d);
    }
  }

  /** What the filter drops after a look at the list would still not rank when its turn came, whatever was recorded in
      between: leaving it out changes nothing, then or later. */
  lemma {:induction false} FilterDropsNothingThatRanks(
    list: seq<Share>, between: seq<Share>, x: Share, after: seq<Share>)
    requires Ranking(list) && Full(list, x.difficulty)
    ensures Play(list, between + [x] + after) == Play(list, between + after)
    decreases |between|
  {
    if between == [] {
      assert [] + [x] + after == [x] + after && ([x] + after)[1..] == after && [] + after == after;
    } else {
      assert (between + [x] + after)[1..] == between[1..] + [x] + after;
      assert (between + after)[1..] == between[1..] + after;
      StaysFull(list, between[0], x.difficulty);
      RecordKeepsRanking(list, between[0]);
      FilterDropsNothingThatRanks(Record(list, between[0]), between[1..], x, after);
    }
  }

  // ---------------------------------------------------------------- the array

  /** Where the binary search stops: the first entry that is not above `d`. */
  function Rank(list: seq<Share>, d: real): (i: nat)
    ensures i <= |list|
    ensures forall k :: 0 <= k < i ==> list[k].difficulty > d
    ensures i < |list| ==> d >= list[i].difficulty
  {
    if list == [] || d >= list[0].difficulty then 0 else 1 + Rank(list[1..], d)
  }

  lemma {:induction false} InsertAtRank(list: seq<Share>, x: Share)
    ensures Insert(list, x) == list[..Rank(list, x.difficulty)] + [x] + list[Rank(list, x.difficulty)..]
  {
    if list != [] && x.difficulty < list[0].difficulty {
      InsertAtRank(list[1..], x);
      var r := Rank(list[1..], x.difficulty);
      assert list[..1 + r] == [list[0]] + list[1..][..r];
    }
  }

  lemma {:induction false} RankIs(list: seq<Share>, d: real, i: nat)
    requires i <= |list| && (forall k :: 0 <= k < i ==> list[k].difficulty > d)
    requires i < |list| ==> d >= list[i].difficulty
    ensures Rank(list, d) == i
  {
    if i > 0 {
      RankIs(list[1..], d, i - 1);
    }
  }

  /** How many entries stay behind the new one. */
  function Cut(n: nat): nat {
    if n >= LIMIT then LIMIT - 1 else n
  }

  lemma TakeAround(a: seq<Share>, x: Share, b: seq<Share>, n: nat)
    requires |a| <= n <= |a| + |b|
    ensures (a + [x] + b)[..n + 1] == a + [x] + b[..n - |a|]
  {
  }

  lemma RankFits(list: seq<Share>, x: Share)
    requires Ranking(list) && !Full(list, x.difficulty)
    ensures Rank(list, x.difficulty) <= Cut(|list|)
  {
    if |list| == LIMIT {
      assert list[LIMIT - 1].difficulty < x.difficulty;
    }
  }

  lemma TopAround(a: seq<Share>, x: Share, b: seq<Share>)
    requires |a| + |b| <= LIMIT && |a| <= Cut(|a| + |b|)
    ensures Top(a + [x] + b) == a + [x] + b[..Cut(|a| + |b|) - |a|]
  {
    TakeAround(a, x, b, Cut(|a| + |b|));
    if |a| + |b| < LIMIT {
      assert b[..|b|] == b;
    }
  }

  /** What the array must hold after a share that ranks: the entry at its rank, and those behind it moved on. */
  lemma RecordAtRank(list: seq<Share>, x: Share, idx: nat)
    requires Ranking(list) && x.difficulty > 0.0 && !Full(list, x.difficulty) && idx == Rank(list, x.difficulty)
    ensures idx <= Cut(|list|) && Record(list, x) == list[..idx] + [x] + list[idx..Cut(|list|)]
  {
    RankFits(list, x);
    InsertAtRank(list, x);
    TopOfInserted(list, x, idx);
  }

  lemma TopOfInserted(list: seq<Share>, x: Share, idx: nat)
    requires |list| <= LIMIT && idx <= Cut(|list|)
    ensures Top(list[..idx] + [x] + list[idx..]) == list[..idx] + [x] + list[idx..Cut(|list|)]
  {
    TopAround(list[..idx], x, list[idx..]);
    SliceOfDrop(list, idx, Cut(|list|));
  }

  lemma SliceOfDrop(list: seq<Share>, lo: nat, hi: nat)
    requires lo <= hi <= |list|
    ensures list[lo..][..hi - lo] == list[lo..hi]
  {
  }

  lemma ShiftedAround(after: seq<Share>, before: seq<Share>, idx: nat, end: nat, x: Share)
    requires idx <= end <= |before| && |after| == end + 1 && after[idx] == x
    requires forall k :: 0 <= k < idx ==> after[k] == before[k]
    requires forall k :: idx < k <= end ==> after[k] == before[k - 1]
    ensures after == before[..idx] + [x] + before[idx..end]
  {
  }

  class PoolMetrics {
    const bestShares: array<Share>
    var bestShareCount: nat

    ghost predicate Valid()
      reads this, bestShares
    {
      bestShares.Length == LIMIT && bestShareCount <= LIMIT && Ranking(Best())
    }

    ghost function Best(): seq<Share>
      reads this, bestShares
      requires bestShareCount <= bestShares.Length
    {
      bestShares[..bestShareCount]
    }

    constructor ()
      ensures Valid() && Best() == [] && fresh(bestShares)
    {
      bestShares := new Share[LIMIT](i => Share("", 0.0, ""));
      bestShareCount := 0;
    }

    /** Binary search for the first entry that is not above `d`. */
    method Search(d: real) returns (idx: nat)
      requires Valid()
      ensures idx == Rank(Best(), d)
    {
      var lo, hi := 0, bestShareCount;
      while lo < hi
        invariant lo <= hi <= bestShareCount
        invariant forall k :: 0 <= k < lo ==> bestShares[k].difficulty > d
        invariant hi < bestShareCount ==> d >= bestShares[hi].difficulty
      {
        var mid := (lo + hi) / 2;
        assert Best()[mid] == bestShares[mid];
        if d >= bestShares[mid].difficulty {
          hi := mid;
        } else {
          assert forall k :: 0 <= k <= mid ==> Best()[k].difficulty >= Best()[mid].difficulty;
          lo := mid + 1;
        }
      }
      idx := lo;
      RankIs(Best(), d, lo);
    }

    /** Moves the entries from `idx` on by one. */
    method ShiftUp(idx: nat, end: nat, ghost before: seq<Share>)
      requires idx <= end < bestShares.Length && end <= |before|
      requires forall k :: 0 <= k < end ==> bestShares[k] == before[k]
      modifies bestShares
      ensures forall k :: 0 <= k < idx ==> bestShares[k] == before[k]
      ensures forall k :: idx < k <= end ==> bestShares[k] == before[k - 1]
    {
      var i := end;
      while i > idx
        invariant idx <= i <= end
        invariant forall k :: 0 <= k < i ==> bestShares[k] == before[k]
        invariant forall k :: i < k <= end ==> bestShares[k] == before[k - 1]
      {
        bestShares[i] := bestShares[i - 1];
        i := i - 1;
      }
    }

    /** The entry at `idx`, everything behind it moved on. */
    method InsertAt(idx: nat, share: Share)
      requires bestShareCount <= LIMIT == bestShares.Length && idx <= Cut(bestShareCount)
      modifies this, bestShares
      ensures bestShareCount == Cut(old(bestShareCount)) + 1
      ensures Best() == old(Best())[..idx] + [share] + old(Best())[idx..Cut(old(bestShareCount))]
    {
      ghost var before := Best();
      var end := bestShareCount;
      if end >= LIMIT {
        end := LIMIT - 1;
      }
      ShiftUp(idx, end, before);
      bestShares[idx] := share;
      if bestShareCount < LIMIT {
        bestShareCount := bestShareCount + 1;
      }
      ShiftedAround(bestShares[..end + 1], before, idx, end, share);
    }

    /** Puts a share that ranks into its place. */
    method Place(share: Share)
      requires Valid() && share.difficulty > 0.0 && !Full(Best(), share.difficulty)
      modifies this, bestShares
      ensures bestShareCount <= LIMIT == bestShares.Length && Best() == Record(old(Best()), share)
    {
      var idx := Search(share.difficulty);
      RecordAtRank(Best(), share, idx);
      if idx == bestShareCount {
        if bestShareCount < LIMIT {
          ghost var before := Best();
          bestShares[idx] := share;
          bestShareCount := bestShareCount + 1;
          assert Best() == before + [share] && before[..idx] == before && before[idx..idx] == [];
        }
      } else {
        InsertAt(idx, share);
      }
    }

    method RecordBestShare(share: Share)
      requires Valid()
      modifies this, bestShares
      ensures Valid() && Best() == Record(old(Best()), share)
    {
      if share.difficulty <= 0.0 {
        return;
      }
      if bestShareCount >= LIMIT && share.difficulty <= bestShares[bestShareCount - 1].difficulty {
        return;
      }
      RecordKeepsRanking(Best(), share);
      Place(share);
    }

    /** The filter and the recording, one after the other. */
    method TrackBestShare(share: Share)
      requires Valid()
      modifies this, bestShares
      ensures Valid() && Best() == Record(old(Best()), share)
    {
      if share.difficulty <= 0.0 {
        return;
      }
      var count := bestShareCount;
      if count >= LIMIT && share.difficulty <= bestShares[count - 1].difficulty {
        return;
      }
      RecordBestShare(share);
    }
  }
}
