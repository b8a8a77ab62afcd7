/**
 The block-history worker: callers that schedule a walk for a new job, the one goroutine that walks, the commit that
 may install its result, and raw block notifications that race with all of it. Every critical section is one step.
 */
module BlockHistory {
  import opened Results

  /** A block hash; "" when unknown. */
  type Hash = string

  datatype Tip = Tip(hash: Hash, height: int, time: nat)

  datatype Job = Job(generation: nat, parent: Hash)

  /** A request carries the raw-tip counter its caller read when it was made. */
  datatype Request = Request(generation: nat, prevHash: Hash, tipSequence: nat)

  datatype Walk = Walking(req: Request) | Fetched(req: Request, tip: Tip) | Finishing(req: Request)

  /**
   `callers` have read the counter but not yet entered the queueing section. The last three fields only record what
   happened: the generation of the newest walk started, the hash of the last raw notification, and the counter value
   carried by the request whose commit last changed the tip's hash.
   */
  datatype State = State(
    current: Option<Job>, callers: seq<Request>, latest: nat, running: bool, pending: Option<Request>,
    walks: seq<Walk>, sequence: nat, tip: Tip, walked: nat, lastRaw: Hash, tipReadAt: nat)

  datatype Event =
    | NewJob(job: Job)
    | Call(job: Job)
    | Queue(caller: nat)
    | FetchOk(walk: nat, found: Tip)
    | FetchFails(walk: nat)
    | Commit(walk: nat)
    | Finish(walk: nat)
    | RawTip(raw: Tip)
    | TemplateTip(height: int, time: nat)

  const START: State := State(None, [], 0, false, None, [], 0, Tip("", 0, 0), 0, "", 0)

  // ---------------------------------------------------------------- the critical sections

  predicate Schedulable(job: Job) {
    job.generation > 0 && job.parent != ""
  }

  /** The queueing section of scheduling. */
  function Enqueue(s: State, req: Request): State {
    if req.generation < s.latest then s
    else if s.running then
      var replace := s.pending.None? || req.generation >= s.pending.value.generation;
      s.(latest := req.generation, pending := if replace then Some(req) else s.pending)
    else
      s.(latest := req.generation, running := true, walks := s.walks + [Walking(req)], walked := req.generation)
  }

  /** Whether a fetched history may still be installed. */
  predicate MayCommit(s: State, req: Request) {
    && s.current.Some? && s.current.value.parent == req.prevHash
    && !(s.sequence != req.tipSequence && s.tip.hash != "" && s.tip.hash != req.prevHash)
  }

  function CommitIfCurrent(s: State, req: Request, tip: Tip): State {
    if !MayCommit(s, req) then s
    else s.(tip := tip, tipReadAt := if tip.hash == s.tip.hash then s.tipReadAt else req.tipSequence)
  }

  /** The section after a walk: go on with the pending request or stop. */
  function FinishWalk(s: State, i: nat): State
    requires i < |s.walks|
  {
    match s.pending
    case Some(req) => s.(pending := None, walks := s.walks[i := Walking(req)], walked := req.generation)
    case None => s.(running := false, walks := s.walks[..i] + s.walks[i + 1..])
  }

  function RecordRaw(s: State, tip: Tip): State {
    s.(sequence := s.sequence + 1, tip := tip, lastRaw := tip.hash)
  }

  predicate Enabled(s: State, e: Event) {
    match e
    case NewJob(job) => Schedulable(job)
    case Call(job) => Schedulable(job)
    case Queue(i) => i < |s.callers|
    case FetchOk(i, found) => i < |s.walks| && s.walks[i].Walking? && found.hash == s.walks[i].req.prevHash
    case FetchFails(i) => i < |s.walks| && s.walks[i].Walking?
    case Commit(i) => i < |s.walks| && s.walks[i].Fetched?
    case Finish(i) => i < |s.walks| && s.walks[i].Finishing?
    case RawTip(raw) => raw.hash != ""
    case TemplateTip(_, _) => true
  }

  function Apply(s: State, e: Event): State
    requires Enabled(s, e)
  {
    match e
    case NewJob(job) => s.(current := Some(job))
    case Call(job) => s.(callers := s.callers + [Request(job.generation, job.parent, s.sequence)])
    case Queue(i) => Enqueue(s, s.callers[i]).(callers := s.callers[..i] + s.callers[i + 1..])
    case FetchOk(i, found) => s.(walks := s.walks[i := Fetched(s.walks[i].req, found)])
    case FetchFails(i) => s.(walks := s.walks[i := Finishing(s.walks[i].req)])
    case Commit(i) =>
      CommitIfCurrent(s, s.walks[i].req, s.walks[i].tip).(walks := s.walks[i := Finishing(s.walks[i].req)])
    case Finish(i) => FinishWalk(s, i)
    case RawTip(raw) => RecordRaw(s, raw)
    case TemplateTip(height, time) => s.(tip := s.tip.(height := height, time := time))
  }

  predicate Runs(s: State, events: seq<Event>)
    decreases |events|
  {
    events == [] || (Enabled(s, events[0]) && Runs(Apply(s, events[0]), events[1..]))
  }

  function End(s: State, events: seq<Event>): State
    requires Runs(s, events)
    decreases |events|
  {
    if events == [] then s else End(Apply(s, events[0]), events[1..])
  }

  // ---------------------------------------------------------------- what every step keeps

  predicate RequestOk(s: State, req: Request) {
    req.prevHash != "" && req.tipSequence <= s.sequence
  }

  /** At most one walk, exactly when running; a pending request only beside it; and the newest request accepted is
      either pending or the one being walked, or was walked last. */
  predicate OneWalk(s: State) {
    && |s.walks| == (if s.running then 1 else 0)
    && (s.pending.Some? ==> s.running)
    && s.latest == (if s.pending.Some? then s.pending.value.generation else s.walked)
    && (s.running ==> s.walks[0].req.generation == s.walked <= s.latest)
  }

  predicate CallersOk(s: State) {
    && (forall i :: 0 <= i < |s.callers| ==> RequestOk(s, s.callers[i]))
    && (s.pending.Some? ==> RequestOk(s, s.pending.value))
  }

  /** A fetched tip is the one asked for. */
  predicate WalksOk(s: State) {
    forall i :: 0 <= i < |s.walks| ==>
                  && RequestOk(s, s.walks[i].req)
                  && (s.walks[i].Fetched? ==> s.walks[i].tip.hash == s.walks[i].req.prevHash)
  }

  /** The tip is the last raw one, or was installed for a request made after it. */
  predicate TipJustified(s: State) {
    && (s.sequence > 0 ==> s.tip.hash != "" && s.lastRaw != "")
    && (s.tip.hash == s.lastRaw || s.tipReadAt == s.sequence)
  }

  predicate Inv(s: State) {
    OneWalk(s) && CallersOk(s) && WalksOk(s) && TipJustified(s)
  }

  lemma StepKeepsOneWalk(s: State, e: Event)
    requires Inv(s) && Enabled(s, e)
    ensures OneWalk(Apply(s, e))
  {
  }

  lemma StepKeepsCallers(s: State, e: Event)
    requires Inv(s) && Enabled(s, e)
    ensures CallersOk(Apply(s, e))
  {
  }

  lemma StepKeepsWalks(s: State, e: Event)
    requires Inv(s) && Enabled(s, e)
    ensures WalksOk(Apply(s, e))
  {
  }

  lemma StepKeepsTip(s: State, e: Event)
    requires Inv(s) && Enabled(s, e)
    ensures TipJustified(Apply(s, e))
  {
  }

  lemma {:induction false} RunKeepsInv(s: State, events: seq<Event>)
    requires Inv(s) && Runs(s, events)
    ensures Inv(End(s, events))
    decreases |events|
  {
    if events != [] {
      StepKeepsOneWalk(s, events[0]);
      StepKeepsCallers(s, events[0]);
      StepKeepsWalks(s, events[0]);
      StepKeepsTip(s, events[0]);
      RunKeepsInv(Apply(s, events[0]), events[1..]);
    }
  }

  // ---------------------------------------------------------------- theorems

  /** The greatest generation any caller has queued so far. */
  function Scheduled(s: State, events: seq<Event>, top: nat): nat
    requires Runs(s, events)
    decreases |events|
  {
    if events == [] then top
    else
      var asked := if events[0].Queue? then s.callers[events[0].caller].generation else 0;
      Scheduled(Apply(s, events[0]), events[1..], if asked > top then asked else top)
  }

  lemma {:induction false} LatestIsScheduled(s: State, events: seq<Event>)
    requires Runs(s, events)
    ensures End(s, events).latest == Scheduled(s, events, s.latest)
    decreases |events|
  {
    if events != [] {
      LatestIsScheduled(Apply(s, events[0]), events[1..]);
    }
  }

  /** In every run at most one walk is under way, a pending request has one to wait for, and when nothing is under way
      the last walk was for the greatest generation ever scheduled. */
  lemma OneWalkAndNoneForgotten(events: seq<Event>)
    requires Runs(START, events)
    ensures
      var s := End(START, events);
      && |s.walks| <= 1 && (s.pending.Some? ==> |s.walks| == 1)
      && (s.walks == [] ==> s.pending.None? && !s.running && s.walked == Scheduled(START, events, 0))
  {
    RunKeepsInv(START, events);
    LatestIsScheduled(START, events);
  }

  /** In every run the tip shown is the last raw one, or the parent of a job whose request came after that one. */
  lemma TipIsNeverRolledBack(events: seq<Event>)
    requires Runs(START, events)
    ensures
      var s := End(START, events);
      s.tip.hash == s.lastRaw || s.tipReadAt == s.sequence
  {
    RunKeepsInv(START, events);
  }

  /** A commit installs the parent of the current job, or changes nothing; and it never replaces a different raw tip
      that arrived after its request was made. */
  lemma CommitInstallsCurrentParent(s: State, i: nat)
    requires Inv(s) && Enabled(s, Commit(i))
    ensures
      var t := Apply(s, Commit(i));
      && (t.tip != s.tip ==> s.current.Some? && t.tip.hash == s.current.value.parent)
      && (s.sequence > s.walks[i].req.tipSequence && s.lastRaw == s.tip.hash != s.walks[i].req.prevHash ==>
            t.tip == s.tip)
  {
  }

  // ---------------------------------------------------------------- the methods

  function LastFour(times: seq<nat>): (r: seq<nat>)
    ensures |r| <= 4 && (|times| <= 4 ==> r == times)
  {
    if |times| > 4 then times[|times| - 4..] else times
  }

  /** A different block, as far as the old tip can tell. */
  predicate IsNewBlock(shown: Tip, tip: Tip) {
    shown.height == 0 || tip.height > shown.height || (tip.hash != "" && tip.hash != shown.hash)
  }

  /** The fields behind the two locks; a walk runs as a goroutine, here as a request handed back to the caller. */
  class JobManager {
    var curJob: Option<Job>
    var historyRunning: bool
    var historyPending: Option<Request>
    var historyLatest: nat
    var blockTipSequence: nat
    var blockTip: Tip
    var recentBlockTimes: seq<nat>

    /** What the protocol sees of these fields, given the walks under way and its records. */
    ghost function View(s: State): State
      reads this
    {
      s.(current := curJob, latest := historyLatest, running := historyRunning, pending := historyPending,
         sequence := blockTipSequence, tip := blockTip)
    }

    /** Reads the counter, then queues; a request to walk comes back when a worker has to be started. */
    method ScheduleBlockHistoryRefresh(job: Job, ghost s: State) returns (start: Option<Request>)
      modifies this`historyRunning, this`historyPending, this`historyLatest
      ensures
        var req := Request(job.generation, job.parent, blockTipSequence);
        var t := Enqueue(old(View(s)), req);
        if !Schedulable(job) then start == None && View(s) == old(View(s))
        else
          && View(s) == t.(walks := s.walks, walked := s.walked)
          && (start.Some? <==> t.walks != s.walks) && (start.Some? ==> start == Some(req))
    {
      if !(job.generation > 0 && job.parent != "") {
        return None;
      }
      var req := Request(job.generation, job.parent, blockTipSequence);
      if req.generation < historyLatest {
        return None;
      }
      historyLatest := req.generation;
      if historyRunning {
        if historyPending.None? || req.generation >= historyPending.value.generation {
          historyPending := Some(req);
        }
        return None;
      }
      historyRunning := true;
      return Some(req);
    }

    /** The section after a walk: the next request, or the end of the worker. */
    method NextWalk() returns (next: Option<Request>)
      modifies this`historyRunning, this`historyPending
      ensures next == old(historyPending) && historyPending == None
      ensures historyRunning == (next.Some? && old(historyRunning))
    {
      next := historyPending;
      historyPending := None;
      if next.None? {
        historyRunning := false;
      }
    }

    method CommitBlockHistoryIfCurrent(req: Request, tip: Tip, recentTimes: seq<nat>, ghost s: State)
      returns (committed: bool)
      modifies this`blockTip, this`recentBlockTimes
      ensures committed == MayCommit(old(View(s)), req)
      ensures View(s) == CommitIfCurrent(old(View(s)), req, tip).(tipReadAt := s.tipReadAt)
      ensures recentBlockTimes == if committed then recentTimes else old(recentBlockTimes)
    {
      if curJob.None? || curJob.value.parent != req.prevHash {
        return false;
      }
      if blockTipSequence != req.tipSequence && blockTip.hash != "" && blockTip.hash != req.prevHash {
        return false;
      }
      blockTip, recentBlockTimes := tip, recentTimes;
      return true;
    }

    method RecordBlockTip(tip: Tip, ghost s: State)
      modifies this`blockTipSequence, this`blockTip, this`recentBlockTimes
      ensures View(s) == RecordRaw(old(View(s)), tip).(lastRaw := s.lastRaw)
      ensures recentBlockTimes ==
              if IsNewBlock(old(blockTip), tip) && tip.time != 0 then LastFour(old(recentBlockTimes) + [tip.time])
              else old(recentBlockTimes)
    {
      blockTipSequence := blockTipSequence + 1;
      var isNewBlock := blockTip.height == 0 || tip.height > blockTip.height ||
                        (tip.hash != "" && tip.hash != blockTip.hash);
      blockTip := tip;
      if isNewBlock && tip.time != 0 {
        recentBlockTimes := recentBlockTimes + [tip.time];
        if |recentBlockTimes| > 4 {
          recentBlockTimes := recentBlockTimes[|recentBlockTimes| - 4..];
        }
      }
    }
  }
}
