/** The per-connection job tables: maps, order lists and side tables, updated on every notify. */
module JobMemory {
  import opened Results
  import opened Bytes
  import opened JobTiers
  import opened NotifyIds
  import DuplicateShares
  import ShareHistory
  import opened Sequences

  /** What a retired job keeps. */
  datatype Binding = Binding(
    job: Job, worker: string, prefix: seq<byte>, suffix: seq<byte>, scriptTime: int, rolling: bool, mask: bv32)

  function Get<V>(m: map<JobId, V>, id: JobId): Option<V> {
    if id in m then Some(m[id]) else None
  }

  function TimeOf(times: map<JobId, int>, id: JobId): int {
    if id in times then times[id] else 0
  }

  // ---------------------------------------------------------------- tables against queues

  type Entries = map<JobId, Notified>

  /** The order list names each table entry once, and the queue spells the entries out in order. */
  ghost predicate Tied(order: seq<JobId>, entries: Entries, queue: seq<Notified>) {
    if order == [] then entries == map[] && queue == []
    else
      && queue != [] && order[0] in entries && queue[0] == entries[order[0]] && queue[0].id == order[0]
      && Tied(order[1..], entries - {order[0]}, queue[1..])
  }

  lemma {:induction false} TiedBasics(order: seq<JobId>, entries: Entries, queue: seq<Notified>)
    requires Tied(order, entries, queue)
    ensures |queue| == |order| && UniqueIds(queue)
    ensures forall x :: x in queue ==> x.id in entries
    ensures forall id :: id in order ==> id in entries
  {
    if order != [] {
      TiedBasics(order[1..], entries - {order[0]}, queue[1..]);
      UniqueCons(queue[0], queue[1..]);
      assert queue == [queue[0]] + queue[1..] && order == [order[0]] + order[1..];
    }
  }

  /** Searching the queue is looking the table up. */
  lemma {:induction false} TiedFind(order: seq<JobId>, entries: Entries, queue: seq<Notified>, id: JobId)
    requires Tied(order, entries, queue)
    ensures FindIn(queue, id) == Get(entries, id)
    ensures id in entries <==> id in order
  {
    if order != [] {
      TiedFind(order[1..], entries - {order[0]}, queue[1..], id);
      assert order == [order[0]] + order[1..];
    }
  }

  lemma {:induction false} TiedNewest(order: seq<JobId>, entries: Entries, queue: seq<Notified>, e: Notified)
    requires Tied(order, entries, queue) && e.id !in entries
    ensures Tied(order + [e.id], entries[e.id := e], queue + [e]) && Put(queue, e) == queue + [e]
  {
    if order != [] {
      TiedNewest(order[1..], entries - {order[0]}, queue[1..], e);
      assert (order + [e.id])[1..] == order[1..] + [e.id] && (queue + [e])[1..] == queue[1..] + [e];
      assert entries[e.id := e] - {order[0]} == (entries - {order[0]})[e.id := e];
      assert queue == [queue[0]] + queue[1..];
    } else {
      assert map[e.id := e] - {e.id} == map[];
    }
  }

  lemma {:induction false} TiedUpdate(order: seq<JobId>, entries: Entries, queue: seq<Notified>, e: Notified)
    requires Tied(order, entries, queue) && e.id in entries
    ensures Tied(order, entries[e.id := e], Put(queue, e))
  {
    var rest := entries - {order[0]};
    if order[0] == e.id {
      assert entries[e.id := e] - {e.id} == rest;
      assert Put(queue, e)[1..] == queue[1..];
    } else {
      TiedUpdate(order[1..], rest, queue[1..], e);
      assert entries[e.id := e] - {order[0]} == rest[e.id := e];
      assert Put(queue, e)[1..] == Put(queue[1..], e);
    }
  }

  lemma TiedPut(order: seq<JobId>, entries: Entries, queue: seq<Notified>, e: Notified)
    requires Tied(order, entries, queue)
    ensures Tied(if e.id in entries then order else order + [e.id], entries[e.id := e], Put(queue, e))
  {
    if e.id in entries {
      TiedUpdate(order, entries, queue, e);
    } else {
      TiedNewest(order, entries, queue, e);
    }
  }

  lemma {:induction false} TiedWithout(order: seq<JobId>, entries: Entries, queue: seq<Notified>, i: nat)
    requires Tied(order, entries, queue) && i < |order|
    ensures Tied(order[..i] + order[i + 1..], entries - {order[i]}, Forget(queue, order[i]))
  {
    var id, rest := order[i], entries - {order[0]};
    if i == 0 {
      assert order[..0] + order[1..] == order[1..];
    } else {
      TiedBasics(order[1..], rest, queue[1..]);
      assert id in order[1..];
      TiedWithout(order[1..], rest, queue[1..], i - 1);
      var order' := order[..i] + order[i + 1..];
      assert order'[1..] == order[1..][..i - 1] + order[1..][i..];
      assert (entries - {id}) - {order[0]} == rest - {id};
      assert Forget(queue, id)[1..] == Forget(queue[1..], id);
    }
  }

  lemma TiedAbsent(order: seq<JobId>, entries: Entries, queue: seq<Notified>, id: JobId)
    requires Tied(order, entries, queue) && id !in entries
    ensures Forget(queue, id) == queue
  {
    TiedBasics(order, entries, queue);
    forall i | 0 <= i < |queue|
      ensures queue[i].id != id
    {
      assert queue[i] in queue;
    }
    ForgetAbsent(queue, id);
  }

  datatype SideTables = SideTables(parts: map<JobId, Parts>, times: map<JobId, int>, bounds: map<JobId, Bounds>)

  function LiveEntry(job: Job, side: SideTables, id: JobId): Notified {
    Notified(id, job, Get(side.parts, id), TimeOf(side.times, id), Get(side.bounds, id))
  }

  function LiveEntries(jobs: map<JobId, Job>, side: SideTables): Entries {
    map id | id in jobs :: LiveEntry(jobs[id], side, id)
  }

  function PastEntry(b: Binding, id: JobId): Notified {
    Notified(id, b.job, Some(Parts("", "", b.worker, b.prefix, b.suffix, b.rolling, b.mask)), b.scriptTime, None)
  }

  function PastEntries(jobs: map<JobId, Binding>): Entries {
    map id | id in jobs :: PastEntry(jobs[id], id)
  }

  /** The side tables after an ID has been taken out of all of them. */
  function SideWithout(side: SideTables, id: JobId): SideTables {
    SideTables(side.parts - {id}, side.times - {id}, side.bounds - {id})
  }

  lemma EntriesWithout(jobs: map<JobId, Job>, side: SideTables, id: JobId)
    ensures LiveEntries(jobs - {id}, SideWithout(side, id)) == LiveEntries(jobs, side) - {id}
  {
  }

  ghost predicate SideAgrees(side: SideTables, side': SideTables, except: JobId) {
    forall k :: k != except ==>
      && Get(side.parts, k) == Get(side'.parts, k) && TimeOf(side.times, k) == TimeOf(side'.times, k)
      && Get(side.bounds, k) == Get(side'.bounds, k)
  }

  lemma EntriesWith(jobs: map<JobId, Job>, side: SideTables, side': SideTables, id: JobId, job: Job)
    requires SideAgrees(side, side', id)
    ensures LiveEntries(jobs[id := job], side') == LiveEntries(jobs, side)[id := LiveEntry(job, side', id)]
  {
  }

  /** Side-table values of an ID that is not live do not show. */
  lemma EntriesIgnoreStrangers(jobs: map<JobId, Job>, side: SideTables, side': SideTables, id: JobId)
    requires SideAgrees(side, side', id) && id !in jobs
    ensures LiveEntries(jobs, side') == LiveEntries(jobs, side)
  {
  }

  /** What a live job has, no retired one has. */
  lemma NotRetired(order: seq<JobId>, entries: Entries, past: seq<Notified>, live: seq<Notified>)
    requires Tied(order, entries, past) && live != [] && Apart(live, past)
    ensures live[0].id !in entries
  {
    TiedFind(order, entries, past, live[0].id);
    assert live[0] in live;
    forall i | 0 <= i < |past|
      ensures past[i].id != live[0].id
    {
      assert past[i] in past && !SameId(live[0], past[i]);
    }
    FindInAbsent(past, live[0].id);
  }

  lemma PutForgetApart(t: Tiers, n: nat, e: Notified)
    requires Sound(t, n)
    ensures Apart(Put(t.active, e), Forget(t.retired, e.id)) && |Put(t.active, e)| <= n + 1
  {
    PutKeepsUnique(t.active, e);
    ForgetKeepsUnique(t.retired, e.id);
    forall x, y | x in Put(t.active, e) && y in Forget(t.retired, e.id)
      ensures !SameId(x, y)
    {
      assert x in t.active && y in t.retired ==> !SameId(x, y);
    }
  }

  /** With room for one job, the job just notified is live. */
  lemma NewestIsLive(t: Tiers, n: nat, e: Notified)
    requires n >= 1 && Sound(t, n)
    ensures FindIn(Notify(t, n, e).active, e.id) == Some(e)
  {
    var active := Put(t.active, e);
    FindAfterPut(t.active, e);
    if |active| > n {
      // The queue grew, so the new job is its last entry and not the one that leaves.
      PutKeepsUnique(t.active, e);
      PutGrows(t.active, e);
      UniqueSplit(active);
      assert active[|active| - 1] in active[1..];
    }
  }

  lemma NewestSurvives(order: seq<JobId>, entries: Entries, queue: seq<Notified>, e: Notified, n: nat)
    requires n >= 1 && Tied(order, entries, LastN(queue + [e], n))
    ensures e.id in entries && entries[e.id] == e
  {
    var kept := LastN(queue + [e], n);
    TiedBasics(order, entries, kept);
    FindInAt(kept, |kept| - 1);
    TiedFind(order, entries, kept, e.id);
  }

  lemma NewestIsTied(t: Tiers, n: nat, e: Notified, order: seq<JobId>, entries: Entries)
    requires n >= 1 && Sound(t, n) && Tied(order, entries, Notify(t, n, e).active)
    ensures e.id in entries && entries[e.id] == e
  {
    NewestIsLive(t, n, e);
    TiedFind(order, entries, Notify(t, n, e).active, e.id);
  }

  lemma {:induction false} FindAfterPut(active: seq<Notified>, e: Notified)
    ensures FindIn(Put(active, e), e.id) == Some(e)
  {
    if active != [] && active[0].id != e.id {
      FindAfterPut(active[1..], e);
      assert Put(active, e)[1..] == Put(active[1..], e);
    }
  }

  lemma {:induction false} PutGrows(active: seq<Notified>, e: Notified)
    requires |Put(active, e)| > |active|
    ensures Put(active, e) == active + [e]
  {
    if active != [] {
      PutGrows(active[1..], e);
      assert active == [active[0]] + active[1..];
    }
  }

  type Shares = ShareHistory.Shares<DuplicateShares.ShareKey>

  /** The job a grown live queue gives up, if any. */
  function EvictedBy(grown: seq<Notified>, n: nat): (ids: seq<JobId>)
    ensures |ids| <= 1
  {
    if |grown| > n then [grown[0].id] else []
  }

  /** The share sets after a notify: the evicted job's set moves, expired sets go. */
  function SharesAfter(s: Shares, evicted: seq<JobId>, now: int): Shares {
    var moved := if evicted == [] then s else ShareHistory.Apply(s, ShareHistory.Evict(evicted[0], now));
    ShareHistory.Apply(moved, ShareHistory.Expire(now))
  }

  // ---------------------------------------------------------------- notify IDs

  /** One more counter: the new ID is new, and everything issued stays issued. */
  lemma IssueNext(base: string, next: u64, ids: set<JobId>)
    requires next >= 1 && forall id :: id in ids ==> IssuedBy(NotifyCounter(), id, next - 1)
    ensures StratumNotifyJobID(base, next) !in ids && IssuedAt(StratumNotifyJobID(base, next), next)
    ensures forall id :: id in ids + {StratumNotifyJobID(base, next)} ==> IssuedBy(NotifyCounter(), id, next)
  {
    assert IssuedAt(StratumNotifyJobID(base, next), next);
    NotifyCounterSeparates();
    forall id | id in ids
      ensures id != StratumNotifyJobID(base, next)
    {
      LaterIdIsNew(NotifyCounter(), StratumNotifyJobID(base, next), next, id, next - 1);
    }
  }

  lemma NotifyIdNotEmpty(base: string, s: u64)
    ensures StratumNotifyJobID(base, s) != ""
  {
    NotifyIdShape(base, s);
  }

  // ---------------------------------------------------------------- the connection

  /** The answer of a lookup; an unknown ID still reports the last job's data. */
  datatype Lookup = Lookup(
    found: bool, retired: bool, job: Option<Job>, lastJob: Option<Job>, scriptTime: int,
    parts: Option<Parts>, bounds: Option<Bounds>)

  /** The answer shows just what was found. */
  predicate Shows(l: Lookup, f: Found, withBounds: bool) {
    match f
    case Live(e) =>
      l.found && !l.retired && l.job == Some(e.job) && l.scriptTime == e.scriptTime && l.parts == e.parts &&
      l.bounds == if withBounds then e.bounds else None
    case Past(e) =>
      l.found && l.retired && l.job == Some(e.job) && l.scriptTime == e.scriptTime && l.parts == e.parts &&
      l.bounds.None?
    case Missing => !l.found && !l.retired && l.job.None?
  }

  /** An answer for an unknown ID carries what the last notify left, for the miner that omits the ID. */
  predicate ShowsLast(l: Lookup, last: Option<Notified>, withBounds: bool) {
    match last
    case Some(e) =>
      l.lastJob == Some(e.job) && l.scriptTime == e.scriptTime && l.parts == e.parts &&
      l.bounds == if withBounds then e.bounds else None
    case None => l.lastJob.None? && l.scriptTime == 0 && l.parts.None? && l.bounds.None?
  }

  /** Of a history as a connection produces it, a lookup shows what its age says, and nothing else is known. */
  ghost predicate ShowsByAge(l: Lookup, id: JobId, n: nat, history: seq<Notified>, withBounds: bool) {
    && (forall k :: 0 <= k < |history| && history[k].id == id ==> Shows(l, ByAge(n, history, k), withBounds))
    && ((forall k :: 0 <= k < |history| ==> history[k].id != id) ==> Shows(l, Missing, withBounds))
  }

  /** Job, time, worker, coinbase halves and version policy are those of the notify. */
  predicate AsSent(l: Lookup, sent: Notified) {
    && l.found && l.job == Some(sent.job) && l.scriptTime == sent.scriptTime && l.parts.Some? && sent.parts.Some?
    && l.parts.value.worker == sent.parts.value.worker
    && l.parts.value.prefix == sent.parts.value.prefix && l.parts.value.suffix == sent.parts.value.suffix
    && l.parts.value.rolling == sent.parts.value.rolling && l.parts.value.mask == sent.parts.value.mask
  }

  /**
   The answer for every notify ever sent: one of the last `n` shows everything advertised, one of the `n` before shows
   what a late block needs, an older one nothing.
   */
  ghost predicate AnswersAsSent(l: Lookup, id: JobId, n: nat, history: seq<Notified>, withBounds: bool) {
    forall k :: 0 <= k < |history| && history[k].id == id ==>
      if |history| - n <= k then
        && AsSent(l, history[k]) && !l.retired && l.parts == history[k].parts
        && l.bounds == if withBounds then history[k].bounds else None
      else if |history| - 2 * n <= k then AsSent(l, history[k]) && l.retired && l.bounds.None?
      else !l.found && !l.retired && l.job.None?
  }

  lemma FoundIsByAge(
    l: Lookup, id: JobId, n: nat, history: seq<Notified>, top: u64, withBounds: bool)
    requires n >= 1 && FromCounters(NotifyCounter(), history, top) && AllRebuildable(history)
    requires Shows(l, Find(Play(n, history), id), withBounds)
    ensures ShowsByAge(l, id, n, history, withBounds) && AnswersAsSent(l, id, n, history, withBounds)
  {
    NotifyCounterSeparates();
    CountersGiveUniqueIds(NotifyCounter(), history, top);
    forall k | 0 <= k < |history| && history[k].id == id
      ensures Shows(l, ByAge(n, history, k), withBounds)
    {
      LookupByAge(n, history, k);
    }
    forall k | 0 <= k < |history| && history[k].id == id && |history| - 2 * n <= k
      ensures AsSent(l, history[k])
    {
      LookupByAge(n, history, k);
    }
    if forall k :: 0 <= k < |history| ==> history[k].id != id {
      UnknownIdIsMissing(n, history, id);
    }
  }

  /** The history after a notify that used the counter `next`, whether or not it was sent. */
  lemma HistoryAfter(n: nat, history: seq<Notified>, e: Notified, next: u64, sent: bool)
    requires next >= 1 && FromCounters(NotifyCounter(), history, next - 1) && IssuedAt(e.id, next)
    requires AllRebuildable(history) && (sent ==> Rebuildable(e))
    ensures
      var after := if sent then history + [e] else history;
      && FromCounters(NotifyCounter(), after, next) && AllRebuildable(after)
      && Play(n, after) == if sent then Notify(Play(n, history), n, e) else Play(n, history)
  {
    HistoryGrows(NotifyCounter(), n, history, e, next);
    FromCountersHigher(NotifyCounter(), history, next - 1, next);
  }

  class Connection {
    const maxRecentJobs: nat
    const checkDuplicates: bool
    const checkNTimeWindow: bool
    const forwardSeconds: int
    const shares: ShareHistory.ShareCaches

    var activeJobs: map<JobId, Job>
    var jobOrder: seq<JobId>
    var jobNotifyCoinbase: map<JobId, Parts>
    var jobScriptTime: map<JobId, int>
    var jobNTimeBounds: map<JobId, Bounds>
    var retiredJobs: map<JobId, Binding>
    var retiredJobOrder: seq<JobId>
    var lastJob: Option<Job>
    var lastJobID: JobId
    var notifySeq: u64

    /** The two queues the tables stand for. */
    ghost var live: seq<Notified>
    ghost var past: seq<Notified>

    /** All notifies sent, oldest first. */
    ghost var history: seq<Notified>

    function Side(): SideTables
      reads this`jobNotifyCoinbase, this`jobScriptTime, this`jobNTimeBounds
    {
      SideTables(jobNotifyCoinbase, jobScriptTime, jobNTimeBounds)
    }

    ghost predicate LiveTied()
      reads this`activeJobs, this`jobOrder, this`jobNotifyCoinbase, this`jobScriptTime, this`jobNTimeBounds, this`live
    {
      Tied(jobOrder, LiveEntries(activeJobs, Side()), live)
    }

    ghost predicate PastTied()
      reads this`retiredJobs, this`retiredJobOrder, this`past
    {
      Tied(retiredJobOrder, PastEntries(retiredJobs), past)
    }

    ghost predicate Valid()
      reads this`activeJobs, this`jobOrder, this`jobNotifyCoinbase, this`jobScriptTime, this`jobNTimeBounds,
            this`retiredJobs, this`retiredJobOrder, this`live, this`past, this`lastJob, this`lastJobID
    {
      && maxRecentJobs >= 1
      && LiveTied() && PastTied() && Sound(Tiers(live, past), maxRecentJobs)
      && (lastJob.Some? ==> lastJobID in activeJobs && activeJobs[lastJobID] == lastJob.value)
      && (lastJob.None? ==> lastJobID == "")
    }

    /** The queues are what the notifies sent so far leave; each had a counter of its own and both halves. */
    ghost predicate Recorded()
      reads this`live, this`past, this`history, this`notifySeq
    {
      && Tiers(live, past) == Play(maxRecentJobs, history) && FromCounters(NotifyCounter(), history, notifySeq)
      && AllRebuildable(history)
    }

    /** The share sets are well formed and share nothing with the job tables. */
    ghost predicate SharesOk()
      reads shares, shares.Repr
    {
      shares.Valid() && this !in shares.Repr
    }

    /** Every live ID was issued by this connection's own counter. */
    ghost predicate Issued()
      reads this`activeJobs, this`notifySeq
    {
      forall id :: id in activeJobs ==> IssuedBy(NotifyCounter(), id, notifySeq)
    }

    constructor (n: nat, checkDuplicates: bool, checkNTimeWindow: bool, forwardSeconds: int)
      ensures Valid() && Issued() && Recorded() && SharesOk() && fresh(shares.Repr)
      ensures history == [] && notifySeq == 0
      ensures maxRecentJobs == if n == 0 then 10 else n
    {
      this.maxRecentJobs := if n == 0 then 10 else n;
      this.checkDuplicates, this.checkNTimeWindow := checkDuplicates, checkNTimeWindow;
      this.forwardSeconds := if forwardSeconds <= 0 then 7000 else forwardSeconds;
      shares := new ShareHistory.ShareCaches();
      activeJobs, jobOrder, retiredJobs, retiredJobOrder := map[], [], map[], [];
      jobNotifyCoinbase, jobScriptTime, jobNTimeBounds := map[], map[], map[];
      lastJob, lastJobID, notifySeq := None, "", 0;
      live, past, history := [], [], [];
    }

    /** Takes an ID out of the retired map and its order list. */
    method RemoveRetiredJobLocked(id: JobId)
      requires PastTied()
      modifies this`retiredJobs, this`retiredJobOrder, this`past
      ensures PastTied() && past == Forget(old(past), id)
    {
      ghost var entries := PastEntries(retiredJobs);
      if id !in retiredJobs {
        TiedAbsent(retiredJobOrder, entries, past, id);
        return;
      }
      TiedFind(retiredJobOrder, entries, past, id);
      var i := 0;
      while retiredJobOrder[i] != id
        invariant 0 <= i < |retiredJobOrder| && id in retiredJobOrder[i..]
        decreases |retiredJobOrder| - i
      {
        i := i + 1;
      }
      TiedWithout(retiredJobOrder, entries, past, i);
      past := Forget(past, id);
      retiredJobs := retiredJobs - {id};
      retiredJobOrder := retiredJobOrder[..i] + retiredJobOrder[i + 1..];
      assert PastEntries(retiredJobs) == entries - {id};
    }

    /** Keeps what a block needs of a job that is leaving the live tier. */
    method RetireJobLocked(id: JobId)
      requires PastTied() && id in activeJobs && id !in retiredJobs
      modifies this`retiredJobs, this`retiredJobOrder, this`past
      ensures PastTied()
      ensures past == Retire(old(past), maxRecentJobs, LiveEntry(activeJobs[id], Side(), id))
      ensures maxRecentJobs >= 1 && id in jobNotifyCoinbase && Whole(jobNotifyCoinbase[id]) ==>
                var sent := jobNotifyCoinbase[id];
                id in retiredJobs && retiredJobs[id] == Binding(activeJobs[id], sent.worker, sent.prefix, sent.suffix,
                                                                TimeOf(jobScriptTime, id), sent.rolling, sent.mask)
    {
      if id !in jobNotifyCoinbase || jobNotifyCoinbase[id].prefix == [] || jobNotifyCoinbase[id].suffix == [] {
        return;
      }
      var parts := jobNotifyCoinbase[id];
      var binding := Binding(activeJobs[id], parts.worker, parts.prefix, parts.suffix,
                             TimeOf(jobScriptTime, id), parts.rolling, parts.mask);
      Bind(id, binding);
    }

    /** The binding is the newest retired one. */
    method Bind(id: JobId, binding: Binding)
      requires PastTied() && id !in retiredJobs
      modifies this`retiredJobs, this`retiredJobOrder, this`past
      ensures PastTied() && past == LastN(old(past) + [PastEntry(binding, id)], maxRecentJobs)
      ensures maxRecentJobs >= 1 ==> id in retiredJobs && retiredJobs[id] == binding
    {
      ghost var entries, e := PastEntries(retiredJobs), PastEntry(binding, id);
      TiedNewest(retiredJobOrder, entries, past, e);
      retiredJobOrder := retiredJobOrder + [id];
      retiredJobs := retiredJobs[id := binding];
      past := past + [e];
      assert PastEntries(retiredJobs) == entries[id := e];
      TrimRetired();
      if maxRecentJobs >= 1 {
        NewestSurvives(retiredJobOrder, PastEntries(retiredJobs), old(past), e, maxRecentJobs);
      }
    }

    /** Drops the oldest retired jobs beyond the limit. */
    method TrimRetired()
      requires PastTied()
      modifies this`retiredJobs, this`retiredJobOrder, this`past
      ensures PastTied() && past == LastN(old(past), maxRecentJobs)
    {
      TiedBasics(retiredJobOrder, PastEntries(retiredJobs), past);
      ghost var k := 0;
      while |retiredJobOrder| > maxRecentJobs
        invariant PastTied() && |past| == |retiredJobOrder|
        invariant 0 <= k <= |old(past)| && past == old(past)[k..]
        invariant k > 0 ==> |past| >= maxRecentJobs
        decreases |retiredJobOrder|
      {
        ghost var entries := PastEntries(retiredJobs);
        var oldest := retiredJobOrder[0];
        retiredJobs := retiredJobs - {oldest};
        retiredJobOrder := retiredJobOrder[1..];
        past, k := past[1..], k + 1;
        assert PastEntries(retiredJobs) == entries - {oldest};
      }
    }

    /** The oldest live job leaves every live table; its block data live on. */
    method EvictOldest() returns (oldest: JobId)
      requires LiveTied() && PastTied() && jobOrder != [] && jobOrder[0] !in retiredJobs
      modifies this`activeJobs, this`jobOrder, this`jobNotifyCoinbase, this`jobScriptTime, this`jobNTimeBounds,
               this`retiredJobs, this`retiredJobOrder, this`live, this`past
      ensures LiveTied() && PastTied() && jobOrder == old(jobOrder)[1..]
      ensures old(live) != [] && live == old(live)[1..] && oldest == old(live)[0].id
      ensures past == Retire(old(past), maxRecentJobs, old(live)[0])
      ensures activeJobs == old(activeJobs) - {oldest}
    {
      oldest := jobOrder[0];
      assert live[0] == LiveEntry(activeJobs[oldest], Side(), oldest);
      RetireJobLocked(oldest);
      ForgetOldest(oldest);
    }

    /** Takes the oldest live job out of every live table. */
    method ForgetOldest(oldest: JobId)
      requires LiveTied() && jobOrder != [] && oldest == jobOrder[0]
      modifies this`activeJobs, this`jobOrder, this`jobNotifyCoinbase, this`jobScriptTime, this`jobNTimeBounds,
               this`live
      ensures LiveTied() && jobOrder == old(jobOrder)[1..] && old(live) != [] && live == old(live)[1..]
      ensures activeJobs == old(activeJobs) - {oldest}
    {
      ghost var jobs, side := activeJobs, Side();
      jobOrder := jobOrder[1..];
      activeJobs := activeJobs - {oldest};
      jobScriptTime := jobScriptTime - {oldest};
      jobNotifyCoinbase := jobNotifyCoinbase - {oldest};
      jobNTimeBounds := jobNTimeBounds - {oldest};
      live := live[1..];
      EntriesWithout(jobs, side, oldest);
    }

    /** The time window a job gets, when windows are checked at all. */
    function WindowOf(job: Job, id: JobId): (w: Option<Bounds>)
      reads this`jobNTimeBounds
      ensures checkNTimeWindow ==>
                && w.Some? && w.value.min in {job.curTime, job.minTime} && w.value.max - w.value.min == forwardSeconds
                && job.curTime <= w.value.min && (job.minTime > 0 ==> job.minTime <= w.value.min)
                && (job.minTime <= 0 ==> w.value.min == job.curTime)
    {
      var earliest := if job.minTime > 0 && job.minTime > job.curTime then job.minTime else job.curTime;
      if checkNTimeWindow then Some(Bounds(earliest, earliest + forwardSeconds)) else Get(jobNTimeBounds, id)
    }

    /** The entry a notify leaves behind: what the side tables hold for the ID, and the time window. */
    function Tracked(job: Job, id: JobId): Notified
      reads this`jobNotifyCoinbase, this`jobScriptTime, this`jobNTimeBounds
    {
      Notified(id, job, Get(jobNotifyCoinbase, id), TimeOf(jobScriptTime, id), WindowOf(job, id))
    }

    /** Enters the job into the live tables; a reused ID keeps its place in the queue. */
    method PutActive(job: Job, id: JobId)
      requires LiveTied()
      modifies this`activeJobs, this`jobOrder, this`jobNTimeBounds, this`live
      ensures LiveTied() && live == Put(old(live), old(Tracked(job, id)))
      ensures activeJobs == old(activeJobs)[id := job]
    {
      ghost var e, entries, jobs, side := Tracked(job, id), LiveEntries(activeJobs, Side()), activeJobs, Side();
      TiedPut(jobOrder, entries, live, e);
      if id !in activeJobs {
        jobOrder := jobOrder + [id];
      }
      live := Put(live, e);
      activeJobs := activeJobs[id := job];
      SetWindow(job, id);
      EntriesWith(jobs, side, Side(), id, job);
    }

    /** Writes the time window of an ID, when windows are checked at all. */
    method SetWindow(job: Job, id: JobId)
      modifies this`jobNTimeBounds
      ensures Get(jobNTimeBounds, id) == old(WindowOf(job, id))
      ensures forall k :: k != id ==> Get(jobNTimeBounds, k) == Get(old(jobNTimeBounds), k)
    {
      if checkNTimeWindow {
        var minNTime := job.curTime;
        if job.minTime > 0 && job.minTime > minNTime {
          minNTime := job.minTime;
        }
        jobNTimeBounds := jobNTimeBounds[id := Bounds(minNTime, minNTime + forwardSeconds)];
      }
    }

    /** Evicts live jobs beyond the limit; there is at most one. */
    method EvictSurplus() returns (evicted: seq<JobId>)
      requires LiveTied() && PastTied() && Apart(live, past) && |jobOrder| == |live| <= maxRecentJobs + 1
      modifies this`activeJobs, this`jobOrder, this`jobNotifyCoinbase, this`jobScriptTime, this`jobNTimeBounds,
               this`retiredJobs, this`retiredJobOrder, this`live, this`past
      ensures LiveTied() && PastTied() && activeJobs.Keys <= old(activeJobs).Keys
      ensures Tiers(live, past) == Settle(old(Tiers(live, past)), maxRecentJobs)
      ensures evicted == if |old(live)| > maxRecentJobs then [old(live)[0].id] else []
    {
      evicted := [];
      while |jobOrder| > maxRecentJobs
        invariant LiveTied() && PastTied() && activeJobs.Keys <= old(activeJobs).Keys
        invariant |jobOrder| == |live| && (|live| == |old(live)| || |live| + 1 == |old(live)| == maxRecentJobs + 1)
        invariant |live| == |old(live)| ==> live == old(live) && past == old(past) && evicted == []
        invariant |live| < |old(live)| ==>
                    && live == old(live)[1..] && past == Retire(old(past), maxRecentJobs, old(live)[0])
                    && evicted == [old(live)[0].id]
        decreases |jobOrder|
      {
        NotRetired(retiredJobOrder, PastEntries(retiredJobs), past, live);
        var oldest := EvictOldest();
        evicted := evicted + [oldest];
      }
    }

    /** Both tiers take in a notify: the ID leaves the retired one, joins the live one, the surplus moves down. */
    method ShiftTiers(job: Job, id: JobId) returns (evicted: seq<JobId>)
      requires LiveTied() && PastTied() && Sound(Tiers(live, past), maxRecentJobs)
      modifies this`activeJobs, this`jobOrder, this`jobNotifyCoinbase, this`jobScriptTime, this`jobNTimeBounds,
               this`retiredJobs, this`retiredJobOrder, this`live, this`past
      ensures LiveTied() && PastTied() && activeJobs.Keys <= old(activeJobs).Keys + {id}
      ensures Tiers(live, past) == Notify(old(Tiers(live, past)), maxRecentJobs, old(Tracked(job, id)))
      ensures evicted == EvictedBy(Put(old(live), old(Tracked(job, id))), maxRecentJobs)
    {
      ghost var t, e := Tiers(live, past), Tracked(job, id);
      RemoveRetiredJobLocked(id);
      PutActive(job, id);
      PutForgetApart(t, maxRecentJobs, e);
      TiedBasics(jobOrder, LiveEntries(activeJobs, Side()), live);
      evicted := EvictSurplus();
    }

    /** Records in the job tables that `job` was sent as `id`; older jobs move down a tier. */
    method TrackTables(job: Job, id: JobId) returns (evicted: seq<JobId>)
      requires Valid()
      modifies this`activeJobs, this`jobOrder, this`jobNotifyCoinbase, this`jobScriptTime, this`jobNTimeBounds,
               this`retiredJobs, this`retiredJobOrder, this`live, this`past, this`lastJob, this`lastJobID
      ensures Valid() && lastJob == Some(job) && lastJobID == id
      ensures Tiers(live, past) == Notify(old(Tiers(live, past)), maxRecentJobs, old(Tracked(job, id)))
      ensures activeJobs.Keys <= old(activeJobs).Keys + {id}
      ensures evicted == EvictedBy(Put(old(live), old(Tracked(job, id))), maxRecentJobs)
    {
      ghost var t, e := Tiers(live, past), Tracked(job, id);
      evicted := ShiftTiers(job, id);
      lastJob, lastJobID := Some(job), id;
      NotifyKeepsSound(t, maxRecentJobs, e);
      NewestIsTied(t, maxRecentJobs, e, jobOrder, LiveEntries(activeJobs, Side()));
    }

    /** The same, and the share sets of evicted jobs move with them; expired ones go. */
    method TrackJob(job: Job, stratumJobID: JobId, now: int)
      requires Valid() && SharesOk()
      modifies this`activeJobs, this`jobOrder, this`jobNotifyCoinbase, this`jobScriptTime, this`jobNTimeBounds,
               this`retiredJobs, this`retiredJobOrder, this`live, this`past, this`lastJob, this`lastJobID, shares
      ensures Valid() && SharesOk() && shares.Repr == old(shares.Repr)
      ensures
        var id := if stratumJobID == "" then job.base else stratumJobID;
        && lastJob == Some(job) && lastJobID == id && activeJobs.Keys <= old(activeJobs).Keys + {id}
        && Tiers(live, past) == Notify(old(Tiers(live, past)), maxRecentJobs, old(Tracked(job, id)))
        && shares.shares ==
           if checkDuplicates
           then SharesAfter(old(shares.shares), EvictedBy(Put(old(live), old(Tracked(job, id))), maxRecentJobs), now)
           else old(shares.shares)
    {
      var evicted := TrackTables(job, if stratumJobID == "" then job.base else stratumJobID);
      if checkDuplicates {
        MoveShares(evicted, now);
      }
    }

    method MoveShares(evicted: seq<JobId>, now: int)
      requires SharesOk() && |evicted| <= 1
      modifies shares
      ensures SharesOk() && shares.Repr == old(shares.Repr)
      ensures shares.shares == SharesAfter(old(shares.shares), evicted, now)
    {
      if evicted != [] {
        shares.EvictJob(evicted[0], now);
      }
      shares.ExpireEvicted(now);
    }

    /** Writes the side tables of an ID that is not live yet; the queues do not notice. */
    method RecordSend(id: JobId, scriptTime: int, parts: Option<Parts>)
      requires Valid() && id !in activeJobs
      modifies this`jobScriptTime, this`jobNotifyCoinbase
      ensures Valid()
      ensures jobScriptTime == old(jobScriptTime)[id := scriptTime]
      ensures parts.Some? ==> jobNotifyCoinbase == old(jobNotifyCoinbase)[id := parts.value]
    {
      ghost var side := Side();
      jobScriptTime := jobScriptTime[id := scriptTime];
      if parts.Some? {
        jobNotifyCoinbase := jobNotifyCoinbase[id := parts.value];
      }
      EntriesIgnoreStrangers(activeJobs, side, Side(), id);
    }

    /** Counts one notify and names it; nothing live has that name. */
    method NextNotifyID(base: string) returns (id: JobId)
      requires Issued() && notifySeq < 0xffff_ffff_ffff_ffff
      modifies this`notifySeq
      ensures notifySeq == old(notifySeq) + 1 && id == StratumNotifyJobID(base, notifySeq)
      ensures id != "" && id !in activeJobs && IssuedAt(id, notifySeq)
      ensures forall k :: k in activeJobs.Keys + {id} ==> IssuedBy(NotifyCounter(), k, notifySeq)
    {
      notifySeq := notifySeq + 1;
      id := StratumNotifyJobID(base, notifySeq);
      IssueNext(base, notifySeq, activeJobs.Keys);
      NotifyIdNotEmpty(base, notifySeq);
    }

    /** Advertises a job under a fresh ID: side tables first, then the tiers. */
    method Advertise(job: Job, id: JobId, scriptTime: int, parts: Parts, now: int) returns (ghost e: Notified)
      requires Valid() && SharesOk() && id != "" && id !in activeJobs
      modifies this`activeJobs, this`jobOrder, this`jobNotifyCoinbase, this`jobScriptTime, this`jobNTimeBounds,
               this`retiredJobs, this`retiredJobOrder, this`live, this`past, this`lastJob, this`lastJobID, shares
      ensures Valid() && SharesOk() && shares.Repr == old(shares.Repr)
      ensures e == Notified(id, job, Some(parts), scriptTime, old(WindowOf(job, id)))
      ensures Tiers(live, past) == Notify(old(Tiers(live, past)), maxRecentJobs, e)
      ensures activeJobs.Keys <= old(activeJobs).Keys + {id}
    {
      e := Notified(id, job, Some(parts), scriptTime, WindowOf(job, id));
      RecordSend(id, scriptTime, Some(parts));
      assert Tracked(job, id) == e;
      TrackJob(job, id, now);
    }

    /**
     One mining.notify. `parts` is None when the wallet or the coinbase build fails: then the counter
     has moved and a script time may stay behind, but no queue changes.
     */
    method SendNotify(job: Job, parts: Option<Parts>, now: int) returns (id: JobId, ghost e: Notified)
      requires Valid() && Issued() && Recorded() && SharesOk() && notifySeq < 0xffff_ffff_ffff_ffff
      requires parts.Some? ==> Whole(parts.value)
      modifies this, shares
      ensures Valid() && Issued() && Recorded() && SharesOk() && shares.Repr == old(shares.Repr)
      ensures notifySeq == old(notifySeq) + 1 && id == StratumNotifyJobID(job.base, notifySeq)
      ensures e == Notified(id, job, parts, job.scriptTime + notifySeq, old(WindowOf(job, id)))
      ensures history == if parts.Some? then old(history) + [e] else old(history)
    {
      id, e := SendCounted(job, parts, now);
      Record(e, parts.Some?);
    }

    /** Enters the notify that has just used the counter into the history, when it has reached the queues. */
    ghost method Record(e: Notified, sent: bool)
      requires Valid() && Issued() && SharesOk()
      requires notifySeq >= 1 && FromCounters(NotifyCounter(), history, notifySeq - 1) && IssuedAt(e.id, notifySeq)
      requires var played := Play(maxRecentJobs, history);
               Tiers(live, past) == if sent then Notify(played, maxRecentJobs, e) else played
      requires AllRebuildable(history) && (sent ==> Rebuildable(e))
      modifies this`history
      ensures Valid() && Issued() && SharesOk()
      ensures Recorded() && history == if sent then old(history) + [e] else old(history)
    {
      HistoryAfter(maxRecentJobs, history, e, notifySeq, sent);
      history := if sent then history + [e] else history;
    }

    /** One notify under the next counter. */
    method SendCounted(job: Job, parts: Option<Parts>, now: int) returns (id: JobId, ghost e: Notified)
      requires Valid() && Issued() && SharesOk() && notifySeq < 0xffff_ffff_ffff_ffff
      modifies this`activeJobs, this`jobOrder, this`jobNotifyCoinbase, this`jobScriptTime, this`jobNTimeBounds,
               this`retiredJobs, this`retiredJobOrder, this`live, this`past, this`lastJob, this`lastJobID,
               this`notifySeq, shares
      ensures Valid() && Issued() && SharesOk() && shares.Repr == old(shares.Repr)
      ensures notifySeq == old(notifySeq) + 1 && id == StratumNotifyJobID(job.base, notifySeq)
      ensures IssuedAt(id, notifySeq)
      ensures e == Notified(id, job, parts, job.scriptTime + notifySeq, old(WindowOf(job, id)))
      ensures Tiers(live, past) ==
              if parts.Some? then Notify(old(Tiers(live, past)), maxRecentJobs, e) else old(Tiers(live, past))
    {
      id := NextNotifyID(job.base);
      e := SendAs(job, id, job.scriptTime + notifySeq, parts, now);
    }

    /** Under a fresh ID: the job is advertised, or only its script time stays behind. */
    method SendAs(job: Job, id: JobId, scriptTime: int, parts: Option<Parts>, now: int) returns (ghost e: Notified)
      requires Valid() && SharesOk() && id != "" && id !in activeJobs
      modifies this`activeJobs, this`jobOrder, this`jobNotifyCoinbase, this`jobScriptTime, this`jobNTimeBounds,
               this`retiredJobs, this`retiredJobOrder, this`live, this`past, this`lastJob, this`lastJobID, shares
      ensures Valid() && SharesOk() && shares.Repr == old(shares.Repr)
      ensures e == Notified(id, job, parts, scriptTime, old(WindowOf(job, id)))
      ensures Tiers(live, past) ==
              if parts.Some? then Notify(old(Tiers(live, past)), maxRecentJobs, e) else old(Tiers(live, past))
      ensures activeJobs.Keys <= old(activeJobs).Keys + {id}
    {
      e := Notified(id, job, parts, scriptTime, WindowOf(job, id));
      if parts.Some? {
        e := Advertise(job, id, scriptTime, parts.value, now);
      } else {
        RecordSend(id, scriptTime, None);
      }
    }

    /** What a submitted job ID refers to. */
    method JobForSubmissionWithLast(id: JobId) returns (l: Lookup)
      requires Valid()
      ensures l.lastJob == lastJob && Shows(l, Find(Tiers(live, past), id), checkNTimeWindow)
      ensures Recorded() ==> ShowsByAge(l, id, maxRecentJobs, history, checkNTimeWindow)
      ensures Recorded() ==> AnswersAsSent(l, id, maxRecentJobs, history, checkNTimeWindow)
      ensures !l.found && (lastJob.Some? ==> lastJobID != "") ==>
                ShowsLast(l, if lastJob.Some? then FindIn(live, lastJobID) else None, checkNTimeWindow)
    {
      l := LookUp(id);
      if Recorded() {
        FoundIsByAge(l, id, maxRecentJobs, history, notifySeq, checkNTimeWindow);
      }
    }

    method LookUp(id: JobId) returns (l: Lookup)
      requires Valid()
      ensures l.lastJob == lastJob && Shows(l, Find(Tiers(live, past), id), checkNTimeWindow)
      ensures !l.found && (lastJob.Some? ==> lastJobID != "") ==>
                ShowsLast(l, if lastJob.Some? then FindIn(live, lastJobID) else None, checkNTimeWindow)
    {
      TiedFind(jobOrder, LiveEntries(activeJobs, Side()), live, id);
      TiedFind(jobOrder, LiveEntries(activeJobs, Side()), live, lastJobID);
      TiedFind(retiredJobOrder, PastEntries(retiredJobs), past, id);
      l := Lookup(false, false, None, lastJob, 0, None, None);
      if id in activeJobs {
        l := Lookup(true, false, Some(activeJobs[id]), lastJob, TimeOf(jobScriptTime, id), Get(jobNotifyCoinbase, id),
                    if checkNTimeWindow then Get(jobNTimeBounds, id) else None);
      } else if id in retiredJobs {
        var b := retiredJobs[id];
        l := Lookup(true, true, Some(b.job), lastJob, b.scriptTime,
                    Some(Parts("", "", b.worker, b.prefix, b.suffix, b.rolling, b.mask)), None);
      } else if lastJobID != "" {
        l := l.(parts := Get(jobNotifyCoinbase, lastJobID), scriptTime := TimeOf(jobScriptTime, lastJobID),
                bounds := if checkNTimeWindow then Get(jobNTimeBounds, lastJobID) else None);
      }
    }
  }
}
