/**
 What a connection remembers of the work it sent, as two short queues: live jobs, and retired jobs
 kept only to rebuild a block.
 */
module JobTiers {
  import opened Results
  import opened Bytes
  import opened NotifyIds
  import opened Sequences

  datatype Job = Job(
    base: string, generation: nat, previous: string, height: int, scriptTime: int, curTime: int, minTime: int)

  /** The coinbase halves sent with a notify, and the version-rolling policy of that moment. */
  datatype Parts = Parts(
    coinb1: string, coinb2: string, worker: string, prefix: seq<byte>, suffix: seq<byte>, rolling: bool, mask: bv32)

  datatype Bounds = Bounds(min: int, max: int)

  datatype Notified = Notified(id: JobId, job: Job, parts: Option<Parts>, scriptTime: int, bounds: Option<Bounds>)

  /** Retired jobs are kept without their hex halves and without their time bounds. */
  datatype Tiers = Tiers(active: seq<Notified>, retired: seq<Notified>)

  /** Both halves of the coinbase are there. */
  predicate Whole(parts: Parts) {
    parts.prefix != [] && parts.suffix != []
  }

  predicate Rebuildable(e: Notified) {
    e.parts.Some? && Whole(e.parts.value)
  }

  function Strip(e: Notified): Notified {
    match e.parts
    case None => e.(bounds := None)
    case Some(p) => e.(parts := Some(p.(coinb1 := "", coinb2 := "")), bounds := None)
  }

  function Put(active: seq<Notified>, e: Notified): (r: seq<Notified>)
    ensures |r| == |active| || |r| == |active| + 1
  {
    if active == [] then [e]
    else if active[0].id == e.id then [e] + active[1..]
    else [active[0]] + Put(active[1..], e)
  }

  function Forget(retired: seq<Notified>, id: JobId): (r: seq<Notified>)
    ensures |r| <= |retired|
  {
    if retired == [] then []
    else if retired[0].id == id then retired[1..]
    else [retired[0]] + Forget(retired[1..], id)
  }

  function Retire(retired: seq<Notified>, n: nat, e: Notified): seq<Notified> {
    if Rebuildable(e) then LastN(retired + [Strip(e)], n) else retired
  }

  /** When there are more than `n` live jobs the oldest one retires. */
  function Settle(t: Tiers, n: nat): Tiers {
    if |t.active| <= n then t else Tiers(t.active[1..], Retire(t.retired, n, t.active[0]))
  }

  /** One notify on a connection that remembers `n` jobs. */
  function Notify(t: Tiers, n: nat, e: Notified): Tiers {
    Settle(Tiers(Put(t.active, e), Forget(t.retired, e.id)), n)
  }

  function Play(n: nat, history: seq<Notified>): Tiers {
    if history == [] then Tiers([], [])
    else Notify(Play(n, history[..|history| - 1]), n, history[|history| - 1])
  }

  // ---------------------------------------------------------------- arbitrary, even reused, IDs

  predicate Differ(s: seq<Notified>, i: nat, j: nat)
    requires i < |s| && j < |s|
  {
    s[i].id != s[j].id
  }

  /** No two entries share an ID. (The trigger keeps the pairs from being compared unasked.) */
  predicate UniqueIds(s: seq<Notified>) {
    forall i, j {:trigger Differ(s, i, j)} :: 0 <= i < j < |s| ==> Differ(s, i, j)
  }

  lemma UniqueSlice(s: seq<Notified>, lo: nat, hi: nat)
    requires UniqueIds(s) && lo <= hi <= |s|
    ensures UniqueIds(s[lo..hi])
  {
    forall i, j | 0 <= i < j < hi - lo
      ensures Differ(s[lo..hi], i, j)
    {
      assert Differ(s, lo + i, lo + j);
    }
  }

  lemma UniqueCons(e: Notified, s: seq<Notified>)
    requires UniqueIds(s) && forall x :: x in s ==> x.id != e.id
    ensures UniqueIds([e] + s)
  {
    var t := [e] + s;
    forall i, j | 0 <= i < j < |t|
      ensures Differ(t, i, j)
    {
      if i > 0 { assert Differ(s, i - 1, j - 1); } else { assert t[j] in s; }
    }
  }

  lemma UniqueSnoc(s: seq<Notified>, e: Notified)
    requires UniqueIds(s) && forall x :: x in s ==> x.id != e.id
    ensures UniqueIds(s + [e])
  {
    var t := s + [e];
    forall i, j | 0 <= i < j < |t|
      ensures Differ(t, i, j)
    {
      if j < |s| { assert Differ(s, i, j); } else { assert t[i] in s; }
    }
  }

  /** A unique sequence cut at its head. */
  lemma UniqueSplit(s: seq<Notified>)
    requires UniqueIds(s) && s != []
    ensures s == [s[0]] + s[1..] && UniqueIds(s[1..])
    ensures forall x :: x in s[1..] ==> x.id != s[0].id
  {
    UniqueSlice(s, 1, |s|);
    assert s[1..] == s[1..|s|];
    forall x | x in s[1..]
      ensures x.id != s[0].id
    {
      var i :| 0 <= i < |s| - 1 && s[1..][i] == x;
      assert Differ(s, 0, i + 1);
    }
  }

  /** Both queues are free of repeats, share no ID, and hold at most `n` jobs each. */
  predicate Sound(t: Tiers, n: nat) {
    && UniqueIds(t.active) && UniqueIds(t.retired) && Apart(t.active, t.retired)
    && |t.active| <= n && |t.retired| <= n
  }

  lemma {:induction false} PutAbsent(active: seq<Notified>, e: Notified)
    requires forall i :: 0 <= i < |active| ==> active[i].id != e.id
    ensures Put(active, e) == active + [e]
  {
    if active != [] {
      PutAbsent(active[1..], e);
      assert active == [active[0]] + active[1..];
    }
  }

  lemma {:induction false} PutKeepsUnique(active: seq<Notified>, e: Notified)
    requires UniqueIds(active)
    ensures UniqueIds(Put(active, e))
    ensures forall x :: x in Put(active, e) ==> x == e || (x in active && x.id != e.id)
  {
    if active != [] {
      UniqueSplit(active);
      PutKeepsUnique(active[1..], e);
      if active[0].id == e.id {
        UniqueCons(e, active[1..]);
      } else {
        UniqueCons(active[0], Put(active[1..], e));
      }
    }
  }

  lemma {:induction false} ForgetAbsent(retired: seq<Notified>, id: JobId)
    requires forall i :: 0 <= i < |retired| ==> retired[i].id != id
    ensures Forget(retired, id) == retired
  {
    if retired != [] {
      ForgetAbsent(retired[1..], id);
    }
  }

  lemma {:induction false} ForgetKeepsUnique(retired: seq<Notified>, id: JobId)
    requires UniqueIds(retired)
    ensures UniqueIds(Forget(retired, id))
    ensures forall r :: r in Forget(retired, id) ==> r in retired && r.id != id
  {
    if retired != [] {
      UniqueSplit(retired);
      ForgetKeepsUnique(retired[1..], id);
      if retired[0].id != id {
        UniqueCons(retired[0], Forget(retired[1..], id));
      }
    }
  }

  predicate SameId(x: Notified, y: Notified) {
    x.id == y.id
  }

  /** No ID is in both queues. */
  predicate Apart(active: seq<Notified>, retired: seq<Notified>) {
    forall x, y {:trigger SameId(x, y)} :: x in active && y in retired ==> !SameId(x, y)
  }

  lemma RetireKeepsUnique(active: seq<Notified>, retired: seq<Notified>, n: nat)
    requires active != [] && UniqueIds(active) && UniqueIds(retired) && Apart(active, retired)
    ensures UniqueIds(active[1..]) && UniqueIds(Retire(retired, n, active[0]))
    ensures Apart(active[1..], Retire(retired, n, active[0]))
  {
    UniqueSplit(active);
    var e := active[0];
    assert forall y :: y in retired ==> !SameId(e, y);
    if Rebuildable(e) {
      var all := retired + [Strip(e)];
      UniqueSnoc(retired, Strip(e));
      UniqueSlice(all, |all| - |LastN(all, n)|, |all|);
      assert LastN(all, n) == all[|all| - |LastN(all, n)|..|all|];
      assert forall y :: y in LastN(all, n) ==> y in all;
    }
  }

  lemma NotifyKeepsSound(t: Tiers, n: nat, e: Notified)
    requires n >= 1 && Sound(t, n)
    ensures Sound(Notify(t, n, e), n)
  {
    PutKeepsUnique(t.active, e);
    ForgetKeepsUnique(t.retired, e.id);
    var active, retired := Put(t.active, e), Forget(t.retired, e.id);
    forall x, y | x in active && y in retired
      ensures !SameId(x, y)
    {
      assert x in t.active && y in t.retired ==> !SameId(x, y);
    }
    if |active| > n {
      RetireKeepsUnique(active, retired, n);
    }
  }

  /** Whatever IDs are notified, the queues stay sound. */
  lemma {:induction false} TiersAlwaysSound(n: nat, history: seq<Notified>)
    requires n >= 1
    ensures Sound(Play(n, history), n)
  {
    if history != [] {
      var init := history[..|history| - 1];
      TiersAlwaysSound(n, init);
      NotifyKeepsSound(Play(n, init), n, history[|history| - 1]);
    }
  }

  // ---------------------------------------------------------------- the notify history

  /** The stripped form of every rebuildable notify, in order. */
  function Stripped(history: seq<Notified>): seq<Notified> {
    if history == [] then []
    else
      var init, e := Stripped(history[..|history| - 1]), history[|history| - 1];
      if Rebuildable(e) then init + [Strip(e)] else init
  }

  lemma {:induction false} StrippedIdsAreOld(history: seq<Notified>)
    ensures forall r :: r in Stripped(history) ==> exists i :: 0 <= i < |history| && history[i].id == r.id
  {
    if history != [] {
      var init := history[..|history| - 1];
      StrippedIdsAreOld(init);
      forall r | r in Stripped(history)
        ensures exists i :: 0 <= i < |history| && history[i].id == r.id
      {
        if r in Stripped(init) {
          var i :| 0 <= i < |init| && init[i].id == r.id;
          assert history[i].id == r.id;
        }
      }
    }
  }

  /** How many notifies have left the live queue. */
  function Gone(n: nat, history: seq<Notified>): nat {
    if |history| <= n then 0 else |history| - n
  }

  /** With fresh IDs the queues are the last N notifies, and the last N rebuildable before them. */
  lemma {:induction false} TiersRefineHistory(n: nat, history: seq<Notified>)
    requires n >= 1 && UniqueIds(history)
    ensures Play(n, history).active == history[Gone(n, history)..]
    ensures Play(n, history).retired == LastN(Stripped(history[..Gone(n, history)]), n)
  {
    if history != [] {
      UniqueSlice(history, 0, |history| - 1);
      TiersRefineHistory(n, history[..|history| - 1]);
      RefineOneNotify(n, history, Play(n, history[..|history| - 1]));
    }
  }

  lemma RefineOneNotify(n: nat, history: seq<Notified>, t: Tiers)
    requires n >= 1 && history != [] && UniqueIds(history)
    requires
      var init := history[..|history| - 1];
      t.active == init[Gone(n, init)..] && t.retired == LastN(Stripped(init[..Gone(n, init)]), n)
    ensures
      var t' := Notify(t, n, history[|history| - 1]);
      && t'.active == history[Gone(n, history)..]
      && t'.retired == LastN(Stripped(history[..Gone(n, history)]), n)
  {
    var init, e := history[..|history| - 1], history[|history| - 1];
    var g := Gone(n, init);
    PutFresh(t.active, history, g);
    forall i | 0 <= i < g
      ensures init[..g][i].id != e.id
    {
      assert Differ(history, i, |history| - 1);
    }
    ForgetFresh(t.retired, init[..g], e.id, n);
    assert init[..g] == history[..g];
    if |history| > n {
      RetireNext(t.retired, history, g, n);
      assert history[g..][1..] == history[g + 1..];
    }
  }

  /** The notify that leaves the live queue extends the retired one. */
  lemma RetireNext(retired: seq<Notified>, history: seq<Notified>, g: nat, n: nat)
    requires g < |history| && retired == LastN(Stripped(history[..g]), n)
    ensures Retire(retired, n, history[g]) == LastN(Stripped(history[..g + 1]), n)
  {
    var e := history[g];
    assert history[..g + 1][..g] == history[..g];
    if Rebuildable(e) {
      LastNSnoc(Stripped(history[..g]), Strip(e), n);
    }
  }

  lemma LastNSnoc<T>(s: seq<T>, x: T, n: nat)
    ensures LastN(LastN(s, n) + [x], n) == LastN(s + [x], n)
  {
  }

  lemma PutFresh(active: seq<Notified>, history: seq<Notified>, g: nat)
    requires g < |history| && UniqueIds(history)
    requires active == history[..|history| - 1][g..]
    ensures Put(active, history[|history| - 1]) == history[g..]
  {
    var e := history[|history| - 1];
    forall i | 0 <= i < |active|
      ensures active[i].id != e.id
    {
      assert Differ(history, g + i, |history| - 1);
    }
    PutAbsent(active, e);
    assert active + [e] == history[g..];
  }

  lemma ForgetFresh(retired: seq<Notified>, past: seq<Notified>, id: JobId, n: nat)
    requires forall i :: 0 <= i < |past| ==> past[i].id != id
    requires retired == LastN(Stripped(past), n)
    ensures Forget(retired, id) == retired
  {
    StrippedIdsAreOld(past);
    forall i | 0 <= i < |retired|
      ensures retired[i].id != id
    {
      assert retired[i] in Stripped(past);
    }
    ForgetAbsent(retired, id);
  }

  // ---------------------------------------------------------------- looking a job up

  datatype Found = Live(e: Notified) | Past(e: Notified) | Missing

  function FindIn(s: seq<Notified>, id: JobId): Option<Notified> {
    if s == [] then None else if s[0].id == id then Some(s[0]) else FindIn(s[1..], id)
  }

  function Find(t: Tiers, id: JobId): Found {
    if FindIn(t.active, id).Some? then Live(FindIn(t.active, id).value)
    else if FindIn(t.retired, id).Some? then Past(FindIn(t.retired, id).value)
    else Missing
  }

  lemma {:induction false} FindInAt(s: seq<Notified>, i: nat)
    requires UniqueIds(s) && i < |s|
    ensures FindIn(s, s[i].id) == Some(s[i])
  {
    if i > 0 {
      UniqueSplit(s);
      assert s[i] in s[1..];
      FindInAt(s[1..], i - 1);
    }
  }

  lemma {:induction false} FindInAbsent(s: seq<Notified>, id: JobId)
    requires forall i :: 0 <= i < |s| ==> s[i].id != id
    ensures FindIn(s, id).None?
  {
    if s != [] {
      FindInAbsent(s[1..], id);
    }
  }

  predicate AllRebuildable(history: seq<Notified>) {
    forall i :: 0 <= i < |history| ==> Rebuildable(history[i])
  }

  lemma {:induction false} StrippedPointwise(history: seq<Notified>)
    requires AllRebuildable(history)
    ensures |Stripped(history)| == |history|
    ensures forall i :: 0 <= i < |history| ==> Stripped(history)[i] == Strip(history[i])
  {
    if history != [] {
      StrippedPointwise(history[..|history| - 1]);
    }
  }

  /** `retired` is the stripped stretch of the history that ends just before position `gone`. */
  predicate EndsAt(retired: seq<Notified>, history: seq<Notified>, gone: nat) {
    && |retired| <= gone <= |history|
    && forall i :: 0 <= i < |retired| ==> retired[i] == Strip(history[gone - |retired| + i])
  }

  /** The last N of a fully rebuildable past, as a plain stretch of the history. */
  lemma RetiredStretch(retired: seq<Notified>, n: nat, history: seq<Notified>, gone: nat)
    requires gone <= |history| && AllRebuildable(history)
    requires retired == LastN(Stripped(history[..gone]), n)
    ensures |retired| == (if gone <= n then gone else n) && EndsAt(retired, history, gone)
  {
    StrippedPointwise(history[..gone]);
    var all := Stripped(history[..gone]);
    forall i | 0 <= i < |retired|
      ensures retired[i] == Strip(history[gone - |retired| + i])
    {
      assert retired[i] == all[gone - |retired| + i];
    }
  }

  lemma LookupInStretches(t: Tiers, history: seq<Notified>, gone: nat, k: nat)
    requires UniqueIds(history) && UniqueIds(t.active) && UniqueIds(t.retired)
    requires k < |history| && gone <= |history| && t.active == history[gone..]
    requires EndsAt(t.retired, history, gone)
    ensures
      Find(t, history[k].id) ==
      if k >= gone then Live(history[k])
      else if k >= gone - |t.retired| then Past(Strip(history[k]))
      else Missing
  {
    if k >= gone {
      FindInAt(t.active, k - gone);
    } else {
      AbsentAbove(t.active, history, gone, k);
      var start := gone - |t.retired|;
      if k >= start {
        FindInAt(t.retired, k - start);
      } else {
        AbsentAbove(t.retired, history, start, k);
      }
    }
  }

  /** All that a late block needs is as it was sent. */
  predicate SameForBlock(kept: Notified, sent: Notified) {
    && kept.id == sent.id && kept.job == sent.job && kept.scriptTime == sent.scriptTime
    && kept.parts.Some? && sent.parts.Some?
    && kept.parts.value.worker == sent.parts.value.worker
    && kept.parts.value.prefix == sent.parts.value.prefix && kept.parts.value.suffix == sent.parts.value.suffix
    && kept.parts.value.rolling == sent.parts.value.rolling && kept.parts.value.mask == sent.parts.value.mask
  }

  /** What a connection that keeps `n` recent jobs knows of the `k`-th notify it sent. */
  function ByAge(n: nat, history: seq<Notified>, k: nat): Found
    requires k < |history|
  {
    var age := |history| - 1 - k;
    if age < n then Live(history[k])
    else if age < 2 * n then Past(Strip(history[k]))
    else Missing
  }

  /**
   The k-th of all notifies, looked up now: live if among the last N, rebuildable from the retired
   queue if among the N before, unknown if older.
   */
  lemma LookupByAge(n: nat, history: seq<Notified>, k: nat)
    requires n >= 1 && UniqueIds(history) && k < |history| && AllRebuildable(history)
    ensures Find(Play(n, history), history[k].id) == ByAge(n, history, k)
    ensures |history| - n <= k ==> Find(Play(n, history), history[k].id) == Live(history[k])
    ensures |history| - 2 * n <= k < |history| - n ==>
              Find(Play(n, history), history[k].id).Past? &&
              SameForBlock(Find(Play(n, history), history[k].id).e, history[k])
    ensures k < |history| - 2 * n ==> Find(Play(n, history), history[k].id) == Missing
  {
    var t := Play(n, history);
    assert Sound(t, n) by { TiersAlwaysSound(n, history); }
    var gone := Gone(n, history);
    assert t.active == history[gone..] && t.retired == LastN(Stripped(history[..gone]), n) by {
      TiersRefineHistory(n, history);
    }
    RetiredStretch(t.retired, n, history, gone);
    LookupInStretches(t, history, gone, k);
  }

  /** A stretch of the history that starts after position `k` does not know the k-th ID. */
  lemma AbsentAbove(s: seq<Notified>, history: seq<Notified>, from: nat, k: nat)
    requires UniqueIds(history) && k < from && from + |s| <= |history|
    requires forall i :: 0 <= i < |s| ==> s[i].id == history[from + i].id
    ensures FindIn(s, history[k].id).None?
  {
    forall i | 0 <= i < |s|
      ensures s[i].id != history[k].id
    {
      assert Differ(history, k, from + i);
    }
    FindInAbsent(s, history[k].id);
  }

  /** An ID that was never sent is never found. */
  lemma UnknownIdIsMissing(n: nat, history: seq<Notified>, id: JobId)
    requires n >= 1 && UniqueIds(history) && forall i :: 0 <= i < |history| ==> history[i].id != id
    ensures Find(Play(n, history), id) == Missing
  {
    var t, past := Play(n, history), history[..Gone(n, history)];
    TiersRefineHistory(n, history);
    StrippedIdsAreOld(past);
    forall i | 0 <= i < |t.retired|
      ensures t.retired[i].id != id
    {
      assert t.retired[i] in Stripped(past);
    }
    FindInAbsent(t.active, id);
    FindInAbsent(t.retired, id);
  }

  // ---------------------------------------------------------------- real IDs are fresh

  /** Which IDs a counter can give. */
  type Issuer = (JobId, u64) -> bool

  /** Different counters never give the same ID. */
  ghost predicate Separates(issuer: Issuer) {
    forall x: JobId, c: u64, y: JobId, d: u64 :: issuer(x, c) && issuer(y, d) && c != d ==> x != y
  }

  /** The ID comes from one of the first `limit` counters. */
  ghost predicate IssuedBy(issuer: Issuer, id: JobId, limit: u64)
    decreases limit
  {
    limit > 0 && (issuer(id, limit) || IssuedBy(issuer, id, limit - 1))
  }

  lemma {:induction false} LaterIdIsNew(issuer: Issuer, later: JobId, next: u64, id: JobId, limit: u64)
    requires Separates(issuer) && limit < next && issuer(later, next) && IssuedBy(issuer, id, limit)
    ensures later != id
    decreases limit
  {
    if !issuer(id, limit) {
      LaterIdIsNew(issuer, later, next, id, limit - 1);
    }
  }

  lemma {:induction false} IssuedByMore(issuer: Issuer, id: JobId, limit: u64, more: u64)
    requires IssuedBy(issuer, id, limit) && limit <= more
    ensures IssuedBy(issuer, id, more)
    decreases more - limit
  {
    if limit < more {
      IssuedByMore(issuer, id, limit, more - 1);
    }
  }

  /** A history as a connection produces it: each ID from a counter of its own, rising up to `top`. */
  ghost predicate FromCounters(issuer: Issuer, history: seq<Notified>, top: u64)
    decreases |history|
  {
    history == [] || exists c: u64 :: 1 <= c <= top && FromCounter(issuer, history, c)
  }

  ghost predicate FromCounter(issuer: Issuer, history: seq<Notified>, c: u64)
    requires history != [] && c >= 1
    decreases |history|, 0
  {
    issuer(history[|history| - 1].id, c) && FromCounters(issuer, history[..|history| - 1], c - 1)
  }

  lemma {:induction false} HistoryIsIssued(issuer: Issuer, history: seq<Notified>, top: u64, i: nat)
    requires FromCounters(issuer, history, top) && i < |history|
    ensures IssuedBy(issuer, history[i].id, top)
    decreases |history|
  {
    var c: u64 :| 1 <= c <= top && FromCounter(issuer, history, c);
    if i < |history| - 1 {
      HistoryIsIssued(issuer, history[..|history| - 1], c - 1, i);
      IssuedByMore(issuer, history[i].id, c - 1, top);
    } else {
      IssuedByMore(issuer, history[i].id, c, top);
    }
  }

  lemma {:induction false} CountersGiveUniqueIds(issuer: Issuer, history: seq<Notified>, top: u64)
    requires Separates(issuer) && FromCounters(issuer, history, top)
    ensures UniqueIds(history)
    decreases |history|
  {
    if history != [] {
      var init, last := history[..|history| - 1], history[|history| - 1];
      var c: u64 :| 1 <= c <= top && FromCounter(issuer, history, c);
      CountersGiveUniqueIds(issuer, init, c - 1);
      forall i, j | 0 <= i < j < |history|
        ensures Differ(history, i, j)
      {
        if j < |init| {
          assert Differ(init, i, j);
        } else {
          HistoryIsIssued(issuer, init, c - 1, i);
          LaterIdIsNew(issuer, last.id, c, init[i].id, c - 1);
        }
      }
    }
  }

  lemma FromCountersHigher(issuer: Issuer, history: seq<Notified>, top: u64, more: u64)
    requires FromCounters(issuer, history, top) && top <= more
    ensures FromCounters(issuer, history, more)
  {
  }

  /** One more notify, under the next counter. */
  lemma HistoryGrows(issuer: Issuer, n: nat, history: seq<Notified>, e: Notified, next: u64)
    requires next >= 1 && FromCounters(issuer, history, next - 1) && issuer(e.id, next)
    ensures FromCounters(issuer, history + [e], next)
    ensures Play(n, history + [e]) == Notify(Play(n, history), n, e)
    ensures AllRebuildable(history) && Rebuildable(e) ==> AllRebuildable(history + [e])
  {
    assert (history + [e])[..|history|] == history;
    assert FromCounter(issuer, history + [e], next);
  }

  /** The counters of notify IDs. */
  ghost predicate IssuedAt(id: JobId, s: u64) {
    s >= 1 && exists base: string :: id == StratumNotifyJobID(base, s)
  }

  ghost function NotifyCounter(): Issuer {
    (id: JobId, s: u64) => IssuedAt(id, s)
  }

  lemma NotifyCounterSeparates()
    ensures Separates(NotifyCounter())
  {
    forall x: JobId, c: u64, y: JobId, d: u64 | IssuedAt(x, c) && IssuedAt(y, d) && c != d
      ensures x != y
    {
      var a: string :| x == StratumNotifyJobID(a, c);
      var b: string :| y == StratumNotifyJobID(b, d);
      NotifyIdsDistinct(a, c, b, d);
    }
  }
}
