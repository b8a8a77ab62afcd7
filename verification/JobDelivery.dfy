/**
 How jobs reach miners: a bounded queue with one dispatcher, bounded subscriber channels that drop their oldest entry,
 a synchronous broadcast that overtakes the queue, and the per-connection guard against older work. A job is named by
 its generation. Every select, lock and receive of the program is one step of the machine.
 */
module JobDelivery {
  import opened Results
  import opened Sequences

  type Job = nat
  type ConnId = nat

  const QUEUE_CAP := 100
  const CHANNEL_CAP := 4

  /** The publisher, which holds the template lock from taking a generation to the end of the broadcast. */
  datatype Publisher = Resting | Trying(job: Job) | Dropping(job: Job) | Retrying(job: Job) | Direct(job: Job)

  datatype Move = Try | Drop | Retry

  /** A sender that holds the subscriber lock: the job, the channels still to serve, and where it is with the first. */
  datatype Fan = NoFan | Fan(job: Job, todo: seq<ConnId>, move: Move, direct: bool)

  /**
   One subscriber. `base` is the job that was current when it subscribed, or the newest one thrown away before its
   listener started; `received` is what the listener has taken; `held` the job the listener is about to notify;
   `others` snapshots that initial work and difficulty changes are about to notify; `last` the newest notified;
   `missed` the jobs that passed the guard but whose notify then failed.
   */
  datatype Conn = Conn(
    base: Job, listening: bool, chan: seq<Job>, received: seq<Job>, held: Option<Job>, others: seq<Job>, last: Job,
    missed: set<Job>)

  datatype State = State(
    current: Job, publisher: Publisher, queue: seq<Job>, hand: Option<Job>, fan: Fan, conns: map<ConnId, Conn>)

  datatype Event =
    | Publish(job: Job, direct: bool)
    | QueueTry
    | QueueDrop
    | QueueRetry
    | WorkerTake
    | WorkerLock(order: seq<ConnId>)
    | DirectLock(order: seq<ConnId>)
    | Send
    | FanDone
    | Subscribe(conn: ConnId)
    | Unsubscribe(conn: ConnId)
    | DrainOne(conn: ConnId)
    | StartListening(conn: ConnId)
    | ListenerTake(conn: ConnId)
    | ListenerNotify(conn: ConnId, sent: bool)
    | Snapshot(conn: ConnId)
    | OtherNotify(conn: ConnId, which: nat, sent: bool)

  // ---------------------------------------------------------------- the steps

  /** A job is refused when it is older than the newest one notified; 0 stands for none. */
  predicate IsOlder(candidate: Job, newest: Job) {
    candidate > 0 && newest > 0 && candidate < newest
  }

  /** The guard, and behind it a notify that is recorded or fails before that. */
  function Notify(c: Conn, job: Job, sent: bool): Conn {
    if IsOlder(job, c.last) then c
    else if sent then c.(last := job)
    else c.(missed := c.missed + {job})
  }

  ghost predicate Lists(order: seq<ConnId>, conns: map<ConnId, Conn>) {
    (forall c :: c in order <==> c in conns) && Distinct(order)
  }

  ghost predicate Enabled(s: State, e: Event) {
    match e
    case Publish(job, _) => s.publisher.Resting? && job > s.current
    case QueueTry => s.publisher.Trying?
    case QueueDrop => s.publisher.Dropping?
    case QueueRetry => s.publisher.Retrying?
    case WorkerTake => s.hand.None? && (s.fan.NoFan? || s.fan.direct) && s.queue != []
    case WorkerLock(order) => s.fan.NoFan? && s.hand.Some? && Lists(order, s.conns)
    case DirectLock(order) => s.fan.NoFan? && s.publisher.Direct? && Lists(order, s.conns)
    case Send => s.fan.Fan? && s.fan.todo != [] && s.fan.todo[0] in s.conns
    case FanDone => s.fan.Fan? && s.fan.todo == []
    case Subscribe(c) => s.fan.NoFan? && c !in s.conns
    case Unsubscribe(c) => s.fan.NoFan? && c in s.conns
    case DrainOne(c) => c in s.conns && !s.conns[c].listening && s.conns[c].chan != []
    case StartListening(c) => c in s.conns && !s.conns[c].listening
    case ListenerTake(c) =>
      c in s.conns && s.conns[c].listening && s.conns[c].held.None? && s.conns[c].chan != []
    case ListenerNotify(c, _) => c in s.conns && s.conns[c].held.Some?
    case Snapshot(c) => c in s.conns && s.current > 0
    case OtherNotify(c, i, _) => c in s.conns && i < |s.conns[c].others|
  }

  function Put(s: State, id: ConnId, c: Conn): State {
    s.(conns := s.conns[id := c])
  }

  function Behead(jobs: seq<Job>): seq<Job> {
    if jobs == [] then [] else jobs[1..]
  }

  /** One select of a sender on the channel it is serving. */
  function SendStep(s: State): State
    requires Enabled(s, Send)
  {
    var id, job := s.fan.todo[0], s.fan.job;
    var c := s.conns[id];
    var next := s.fan.(todo := s.fan.todo[1..], move := Try);
    match s.fan.move
    case Try =>
      if |c.chan| < CHANNEL_CAP then Put(s, id, c.(chan := c.chan + [job])).(fan := next)
      else s.(fan := s.fan.(move := Drop))
    case Drop => Put(s, id, c.(chan := Behead(c.chan))).(fan := s.fan.(move := Retry))
    case Retry =>
      if |c.chan| < CHANNEL_CAP then Put(s, id, c.(chan := c.chan + [job])).(fan := next) else s.(fan := next)
  }

  /** The steps that touch one connection only. */
  predicate OfConn(e: Event) {
    e.DrainOne? || e.StartListening? || e.ListenerTake? || e.ListenerNotify? || e.Snapshot? || e.OtherNotify?
  }

  function ConnStep(c: Conn, e: Event, current: Job): Conn
    requires OfConn(e) && (e.DrainOne? || e.ListenerTake? ==> c.chan != [])
    requires (e.ListenerNotify? ==> c.held.Some?) && (e.OtherNotify? ==> e.which < |c.others|)
  {
    match e
    case DrainOne(_) => c.(chan := c.chan[1..], base := c.chan[0])
    case StartListening(_) => c.(listening := true)
    case ListenerTake(_) => c.(chan := c.chan[1..], received := c.received + [c.chan[0]], held := Some(c.chan[0]))
    case ListenerNotify(_, sent) => Notify(c, c.held.value, sent).(held := None)
    case Snapshot(_) => c.(others := c.others + [current])
    case OtherNotify(_, i, sent) => Notify(c, c.others[i], sent).(others := c.others[..i] + c.others[i + 1..])
  }

  function Apply(s: State, e: Event): State
    requires Enabled(s, e)
  {
    match e
    case Publish(job, direct) => s.(current := job, publisher := if direct then Direct(job) else Trying(job))
    case QueueTry =>
      if |s.queue| < QUEUE_CAP then s.(queue := s.queue + [s.publisher.job], publisher := Resting)
      else s.(publisher := Dropping(s.publisher.job))
    case QueueDrop => s.(queue := Behead(s.queue), publisher := Retrying(s.publisher.job))
    case QueueRetry =>
      if |s.queue| < QUEUE_CAP then s.(queue := s.queue + [s.publisher.job], publisher := Resting)
      else s.(publisher := Resting)
    case WorkerTake => s.(queue := s.queue[1..], hand := Some(s.queue[0]))
    case WorkerLock(order) => s.(hand := None, fan := Fan(s.hand.value, order, Try, false))
    case DirectLock(order) => s.(fan := Fan(s.publisher.job, order, Try, true))
    case Send => SendStep(s)
    case FanDone => s.(fan := NoFan, publisher := if s.fan.direct then Resting else s.publisher)
    case Subscribe(c) => Put(s, c, Conn(s.current, false, [], [], None, [], 0, {}))
    case Unsubscribe(c) => s.(conns := s.conns - {c})
    case _ => Put(s, e.conn, ConnStep(s.conns[e.conn], e, s.current))
  }

  const START: State := State(0, Resting, [], None, NoFan, map[])

  ghost predicate Runs(s: State, events: seq<Event>)
    decreases |events|
  {
    events == [] || (Enabled(s, events[0]) && Runs(Apply(s, events[0]), events[1..]))
  }

  ghost function End(s: State, events: seq<Event>): State
    requires Runs(s, events)
    decreases |events|
  {
    if events == [] then s else End(Apply(s, events[0]), events[1..])
  }

  // ---------------------------------------------------------------- what every step keeps

  predicate Known(jobs: seq<Job>, top: Job) {
    forall i :: 0 <= i < |jobs| ==> 0 < jobs[i] <= top
  }

  predicate KnownOption(job: Option<Job>, top: Job) {
    job.Some? ==> 0 < job.value <= top
  }

  /** How many of the received jobs have been put before the guard. */
  function Handled(c: Conn): nat
    requires c.held.Some? ==> c.received != []
  {
    if c.held.Some? then |c.received| - 1 else |c.received|
  }

  /** The connection works on the job or on a newer one, or the job's notify failed. */
  predicate Settled(c: Conn, job: Job) {
    job <= c.last || job in c.missed
  }

  predicate GoodConn(c: Conn, top: Job) {
    && Known(c.chan, top) && Known(c.received, top) && Known(c.others, top) && KnownOption(c.held, top)
    && c.last <= top && c.base <= top && |c.chan| <= CHANNEL_CAP && (forall j :: j in c.missed ==> j <= top)
    && (c.held.Some? ==> c.received != [] && c.received[|c.received| - 1] == c.held.value)
    && (!c.listening ==> c.received == [] && c.held.None?)
    && forall i :: 0 <= i < Handled(c) ==> Settled(c, c.received[i])
  }

  predicate GoodConns(conns: map<ConnId, Conn>, top: Job) {
    forall c :: c in conns ==> GoodConn(conns[c], top)
  }

  /** A sender serves subscribers, each once; once it has dropped an entry, the channel has room. */
  predicate GoodFan(s: State) {
    s.fan.Fan? ==>
      && 0 < s.fan.job <= s.current && Distinct(s.fan.todo)
      && (forall i :: 0 <= i < |s.fan.todo| ==> s.fan.todo[i] in s.conns)
      && (s.fan.move != Try ==> s.fan.todo != [])
      && (s.fan.move == Retry ==> |s.conns[s.fan.todo[0]].chan| < CHANNEL_CAP)
      && (s.fan.direct ==> s.publisher == Direct(s.fan.job))
  }

  /** A publisher at work carries the current job; once it has dropped an entry, the queue has room. */
  predicate GoodPublisher(s: State) {
    && (!s.publisher.Resting? ==> s.publisher.job == s.current > 0)
    && (s.publisher.Retrying? ==> |s.queue| < QUEUE_CAP)
  }

  predicate Inv(s: State) {
    && GoodConns(s.conns, s.current) && GoodFan(s) && GoodPublisher(s)
    && Known(s.queue, s.current) && |s.queue| <= QUEUE_CAP && KnownOption(s.hand, s.current)
  }

  lemma KnownLater(s: State, top: Job)
    requires Inv(s) && top > s.current
    ensures GoodConns(s.conns, top) && Known(s.queue, top) && KnownOption(s.hand, top)
  {
  }

  /** Replacing one connection by a good one whose channel is no fuller. */
  lemma PutKeepsInv(s: State, id: ConnId, d: Conn)
    requires Inv(s) && id in s.conns && GoodConn(d, s.current) && |d.chan| <= |s.conns[id].chan|
    ensures Inv(Put(s, id, d))
  {
  }

  lemma NotifyKeepsGood(c: Conn, job: Job, sent: bool, top: Job)
    requires GoodConn(c, top) && 0 < job <= top
    ensures
      var d := Notify(c, job, sent);
      && GoodConn(d, top) && c.last <= d.last && c.missed <= d.missed && Settled(d, job)
      && (c.held == Some(job) ==> GoodConn(d.(held := None), top))
  {
    var d := Notify(c, job, sent);
    assert forall i :: 0 <= i < Handled(c) ==> Settled(c, c.received[i]) && Settled(d, c.received[i]);
    if c.held == Some(job) {
      assert forall i :: 0 <= i < Handled(d.(held := None)) ==> Settled(d.(held := None), c.received[i]);
    }
  }

  lemma TakeKeepsGood(c: Conn, top: Job)
    requires GoodConn(c, top) && c.listening && c.held.None? && c.chan != []
    ensures GoodConn(c.(chan := c.chan[1..], received := c.received + [c.chan[0]], held := Some(c.chan[0])), top)
  {
  }

  lemma OthersKeepGood(c: Conn, others: seq<Job>, top: Job)
    requires GoodConn(c, top) && Known(others, top)
    ensures GoodConn(c.(others := others), top)
  {
    var d := c.(others := others);
    assert forall i :: 0 <= i < Handled(d) ==> Settled(c, c.received[i]) && Settled(d, d.received[i]);
  }

  lemma ConnStepKeepsGood(c: Conn, e: Event, top: Job)
    requires GoodConn(c, top) && OfConn(e) && (e.DrainOne? || e.ListenerTake? ==> c.chan != [])
    requires (e.ListenerNotify? ==> c.held.Some?) && (e.OtherNotify? ==> e.which < |c.others|)
    requires (e.DrainOne? ==> !c.listening) && (e.ListenerTake? ==> c.listening && c.held.None?)
    requires e.Snapshot? ==> top > 0
    ensures GoodConn(ConnStep(c, e, top), top) && |ConnStep(c, e, top).chan| <= |c.chan|
    ensures c.last <= ConnStep(c, e, top).last && c.missed <= ConnStep(c, e, top).missed
  {
    match e
    case ListenerTake(_) => TakeKeepsGood(c, top);
    case ListenerNotify(_, sent) => NotifyKeepsGood(c, c.held.value, sent, top);
    case Snapshot(_) => OthersKeepGood(c, c.others + [top], top);
    case OtherNotify(_, i, sent) => OtherNotifyKeepsGood(c, i, sent, top);
    case _ =>
  }

  lemma OtherNotifyKeepsGood(c: Conn, i: nat, sent: bool, top: Job)
    requires GoodConn(c, top) && i < |c.others|
    ensures
      var d := Notify(c, c.others[i], sent).(others := c.others[..i] + c.others[i + 1..]);
      GoodConn(d, top) && c.last <= d.last && c.missed <= d.missed && d.chan == c.chan
  {
    NotifyKeepsGood(c, c.others[i], sent, top);
    OthersKeepGood(Notify(c, c.others[i], sent), c.others[..i] + c.others[i + 1..], top);
  }

  lemma ConnStepKeepsInv(s: State, e: Event)
    requires Inv(s) && Enabled(s, e) && OfConn(e)
    ensures Inv(Apply(s, e))
  {
    ConnStepKeepsGood(s.conns[e.conn], e, s.current);
    PutKeepsInv(s, e.conn, ConnStep(s.conns[e.conn], e, s.current));
  }

  lemma SendKeepsConns(s: State)
    requires Inv(s) && Enabled(s, Send)
    ensures GoodConns(Apply(s, Send).conns, s.current)
  {
    var c, job := s.conns[s.fan.todo[0]], s.fan.job;
    assert GoodConn(c, s.current);
    if |c.chan| < CHANNEL_CAP {
      assert GoodConn(c.(chan := c.chan + [job]), s.current) by { assert Known(c.chan + [job], s.current); }
    }
    assert GoodConn(c.(chan := Behead(c.chan)), s.current);
  }

  lemma SendKeepsInv(s: State)
    requires Inv(s) && Enabled(s, Send)
    ensures Inv(Apply(s, Send))
  {
    SendKeepsConns(s);
    SendKeepsFan(s);
  }

  lemma SendKeepsFan(s: State)
    requires Inv(s) && Enabled(s, Send)
    ensures GoodFan(Apply(s, Send))
  {
    assert GoodConn(s.conns[s.fan.todo[0]], s.current);
  }

  lemma StepKeepsInv(s: State, e: Event)
    requires Inv(s) && Enabled(s, e)
    ensures Inv(Apply(s, e))
  {
    if OfConn(e) {
      ConnStepKeepsInv(s, e);
    } else if e.Send? {
      SendKeepsInv(s);
    } else if e.Publish? {
      KnownLater(s, e.job);
    } else {
      PoolStepKeepsInv(s, e);
    }
  }

  lemma PoolStepKeepsInv(s: State, e: Event)
    requires Inv(s) && Enabled(s, e) && !OfConn(e) && !e.Send? && !e.Publish?
    ensures Inv(Apply(s, e))
  {
  }

  lemma {:induction false} RunKeepsInv(s: State, events: seq<Event>)
    requires Inv(s) && Runs(s, events)
    ensures Inv(End(s, events))
    decreases |events|
  {
    if events != [] {
      StepKeepsInv(s, events[0]);
      RunKeepsInv(Apply(s, events[0]), events[1..]);
    }
  }

  // ---------------------------------------------------------------- work on a connection never goes back

  lemma StepNeverGoesBack(s: State, e: Event, id: ConnId)
    requires Inv(s) && Enabled(s, e) && id in s.conns && id in Apply(s, e).conns
    ensures s.conns[id].last <= Apply(s, e).conns[id].last
  {
    if OfConn(e) {
      ConnStepKeepsGood(s.conns[e.conn], e, s.current);
    }
  }

  /** As long as a connection stays subscribed, the job it works on never gets older. */
  lemma {:induction false} WorkNeverGoesBack(s: State, events: seq<Event>, id: ConnId)
    requires Inv(s) && Runs(s, events) && id in s.conns
    requires forall i :: 0 <= i < |events| ==> events[i] != Unsubscribe(id)
    ensures id in End(s, events).conns && s.conns[id].last <= End(s, events).conns[id].last
    decreases |events|
  {
    if events != [] {
      StepNeverGoesBack(s, events[0], id);
      StepKeepsInv(s, events[0]);
      WorkNeverGoesBack(Apply(s, events[0]), events[1..], id);
    }
  }

  // ---------------------------------------------------------------- a send leaves the newest job last

  /** A retry always finds room, so no sender and no publisher ever loses the job it carries. */
  lemma RetryAlwaysFindsRoom(s: State)
    requires Inv(s)
    ensures s.publisher.Retrying? ==> Apply(s, QueueRetry).queue == s.queue + [s.publisher.job]
    ensures s.fan.Fan? && s.fan.move == Retry ==>
              && Enabled(s, Send)
              && Apply(s, Send).conns[s.fan.todo[0]].chan == s.conns[s.fan.todo[0]].chan + [s.fan.job]
  {
  }

  /** When a sender moves on to the next channel, the one it served ends with the job sent, and nothing newer or
      older was put behind it. */
  lemma SendLeavesNewestLast(s: State)
    requires Inv(s) && Enabled(s, Send) && |Apply(s, Send).fan.todo| < |s.fan.todo|
    ensures
      var chan := Apply(s, Send).conns[s.fan.todo[0]].chan;
      chan != [] && chan[|chan| - 1] == s.fan.job && chan[..|chan| - 1] == s.conns[s.fan.todo[0]].chan
  {
  }

  // ---------------------------------------------------------------- without direct broadcasts every channel converges

  /** What the dispatcher still has to hand out, oldest first. */
  function Coming(s: State): seq<Job> {
    (if s.hand.Some? then [s.hand.value] else []) + s.queue
    + (if s.publisher.Resting? || s.publisher.Direct? then [] else [s.publisher.job])
  }

  /** The job a subscriber has got to: the last received, or the one it started from. */
  function Seen(c: Conn): Job {
    if c.received == [] then c.base else c.received[|c.received| - 1]
  }

  function Newest(seen: Job, line: seq<Job>): Job {
    if line == [] then seen else line[|line| - 1]
  }

  /** The newest job a subscriber has seen, holds in its channel, or is about to be sent. */
  function Front(s: State, id: ConnId): Job
    requires id in s.conns
  {
    if s.fan.Fan? && id in s.fan.todo then s.fan.job else Newest(Seen(s.conns[id]), s.conns[id].chan)
  }

  /** No direct broadcast is under way; and either the newest job is the last to come, or it has reached everyone. */
  predicate Converging(s: State) {
    && !s.publisher.Direct? && (s.fan.Fan? ==> !s.fan.direct)
    && Newest(s.current, Coming(s)) == s.current
    && (Coming(s) == [] ==> forall id :: id in s.conns ==> Front(s, id) == s.current)
  }

  /** Replacing one connection by another that has got, or holds, the same newest job. */
  lemma PutConverges(s: State, id: ConnId, d: Conn)
    requires Converging(s) && id in s.conns
    requires Newest(Seen(d), d.chan) == Newest(Seen(s.conns[id]), s.conns[id].chan)
    ensures Converging(Put(s, id, d))
  {
    var t := Put(s, id, d);
    assert Coming(t) == Coming(s);
    assert forall k :: k in t.conns ==> Front(t, k) == Front(s, k);
  }

  lemma ConnStepKeepsFront(c: Conn, e: Event, top: Job)
    requires OfConn(e) && (e.DrainOne? ==> c.chan != [] && c.received == []) && (e.ListenerTake? ==> c.chan != [])
    requires (e.ListenerNotify? ==> c.held.Some?) && (e.OtherNotify? ==> e.which < |c.others|)
    ensures Newest(Seen(ConnStep(c, e, top)), ConnStep(c, e, top).chan) == Newest(Seen(c), c.chan)
  {
  }

  lemma ConnStepConverges(s: State, e: Event)
    requires Inv(s) && Converging(s) && Enabled(s, e) && OfConn(e)
    ensures Converging(Apply(s, e))
  {
    assert GoodConn(s.conns[e.conn], s.current);
    ConnStepKeepsFront(s.conns[e.conn], e, s.current);
    PutConverges(s, e.conn, ConnStep(s.conns[e.conn], e, s.current));
  }

  lemma SendConverges(s: State)
    requires Inv(s) && Converging(s) && Enabled(s, Send)
    ensures Converging(Apply(s, Send))
  {
    var t := Apply(s, Send);
    var served := s.fan.todo[0];
    assert Coming(t) == Coming(s);
    forall id | id in t.conns
      ensures Front(t, id) == Front(s, id)
    {
      if id == served {
        RetryAlwaysFindsRoom(s);
      }
    }
  }

  lemma WorkerStepConverges(s: State, e: Event)
    requires Inv(s) && Converging(s) && Enabled(s, e) && (e.WorkerTake? || e.WorkerLock?)
    ensures Converging(Apply(s, e))
  {
    if e.WorkerTake? {
      assert Coming(Apply(s, e)) == Coming(s);
    } else {
      assert Coming(s) == [s.hand.value] + Coming(Apply(s, e));
    }
  }

  lemma PoolStepConverges(s: State, e: Event)
    requires Inv(s) && Converging(s) && Enabled(s, e) && !OfConn(e) && !e.Send? && (e.Publish? ==> !e.direct)
    requires !e.WorkerTake? && !e.WorkerLock?
    ensures Converging(Apply(s, e))
  {
    var t := Apply(s, e);
    if e.Unsubscribe? {
      assert Coming(t) == Coming(s);
      assert forall id :: id in t.conns ==> Front(t, id) == Front(s, id);
    }
  }

  lemma {:induction false} RunConverges(s: State, events: seq<Event>)
    requires Inv(s) && Converging(s) && Runs(s, events)
    requires forall i :: 0 <= i < |events| ==> events[i].Publish? ==> !events[i].direct
    ensures Converging(End(s, events))
    decreases |events|
  {
    if events != [] {
      StepKeepsInv(s, events[0]);
      if OfConn(events[0]) {
        ConnStepConverges(s, events[0]);
      } else if events[0].Send? {
        SendConverges(s);
      } else if events[0].WorkerTake? || events[0].WorkerLock? {
        WorkerStepConverges(s, events[0]);
      } else {
        PoolStepConverges(s, events[0]);
      }
      RunConverges(Apply(s, events[0]), events[1..]);
    }
  }

  predicate Drained(s: State) {
    && s.publisher.Resting? && s.queue == [] && s.hand.None? && s.fan.NoFan?
    && forall id :: id in s.conns ==> s.conns[id].chan == []
  }

  /**
   In every run without direct broadcasts: once queue and channels are drained, the last job a subscriber received is
   the last one published since it started, and once that job has been put before the guard it is the job the
   connection works on, unless the notify of that very job failed.
   */
  lemma QueuedBroadcastsConverge(events: seq<Event>, id: ConnId)
    requires Runs(START, events) && (forall i :: 0 <= i < |events| ==> events[i].Publish? ==> !events[i].direct)
    requires Drained(End(START, events)) && id in End(START, events).conns
    ensures
      var s := End(START, events);
      var c := s.conns[id];
      s.current > c.base ==>
        && c.received != [] && c.received[|c.received| - 1] == s.current
        && (c.held.None? && s.current !in c.missed ==> c.last == s.current)
  {
    RunKeepsInv(START, events);
    RunConverges(START, events);
    DrainedHasNewest(End(START, events), id);
  }

  lemma DrainedHasNewest(s: State, id: ConnId)
    requires Inv(s) && Converging(s) && Drained(s) && id in s.conns
    ensures
      var c := s.conns[id];
      s.current > c.base ==>
        && c.received != [] && c.received[|c.received| - 1] == s.current
        && (c.held.None? && s.current !in c.missed ==> c.last == s.current)
  {
    assert GoodConn(s.conns[id], s.current);
    assert Front(s, id) == s.current;
  }

  /** A notify on this connection that passes the guard and then fails. */
  predicate Fails(e: Event, id: ConnId) {
    (e.ListenerNotify? || e.OtherNotify?) && e.conn == id && !e.sent
  }

  /** A connection on which no notify fails misses nothing. */
  lemma {:induction false} MissedOnlyByFailure(s: State, events: seq<Event>, id: ConnId)
    requires Runs(s, events) && (id in s.conns ==> s.conns[id].missed == {})
    requires forall i :: 0 <= i < |events| ==> !Fails(events[i], id)
    ensures id in End(s, events).conns ==> End(s, events).conns[id].missed == {}
    decreases |events|
  {
    if events != [] {
      StepMissesNothing(s, events[0], id);
      MissedOnlyByFailure(Apply(s, events[0]), events[1..], id);
    }
  }

  lemma StepMissesNothing(s: State, e: Event, id: ConnId)
    requires Enabled(s, e) && !Fails(e, id) && (id in s.conns ==> s.conns[id].missed == {})
    ensures id in Apply(s, e).conns ==> Apply(s, e).conns[id].missed == {}
  {
  }

  // ---------------------------------------------------------------- a subscriber that starts on the current job

  /** A job a connection has still to notify, or that is settled. */
  predicate ShownOrOwed(c: Conn, job: Job) {
    job in c.others || Settled(c, job)
  }

  lemma ConnStepKeepsShown(c: Conn, e: Event, top: Job, job: Job)
    requires GoodConn(c, top) && OfConn(e) && (e.ListenerTake? ==> c.chan != [] && c.held.None?)
    requires (e.ListenerNotify? ==> c.held.Some?) && (e.OtherNotify? ==> e.which < |c.others|)
    requires c.listening && !e.DrainOne? && (e.Snapshot? ==> top > 0) && ShownOrOwed(c, job)
    ensures
      var d := ConnStep(c, e, top);
      d.listening && d.base == c.base && ShownOrOwed(d, job)
  {
    ConnStepKeepsGood(c, e, top);
    if e.OtherNotify? {
      NotifyKeepsGood(c, c.others[e.which], e.sent, top);
      assert c.others == c.others[..e.which] + [c.others[e.which]] + c.others[e.which + 1..];
    }
  }

  lemma StepKeepsShown(s: State, e: Event, id: ConnId, job: Job)
    requires Inv(s) && Enabled(s, e) && e != Unsubscribe(id)
    requires id in s.conns && s.conns[id].listening && ShownOrOwed(s.conns[id], job)
    ensures id in Apply(s, e).conns
    ensures
      var c, d := s.conns[id], Apply(s, e).conns[id];
      d.listening && d.base == c.base && ShownOrOwed(d, job)
  {
    if OfConn(e) {
      assert GoodConn(s.conns[e.conn], s.current);
      if e.conn == id {
        ConnStepKeepsShown(s.conns[id], e, s.current, job);
      }
    }
  }

  lemma {:induction false} RunKeepsShown(s: State, events: seq<Event>, id: ConnId, job: Job)
    requires Inv(s) && Runs(s, events) && id in s.conns && s.conns[id].listening && ShownOrOwed(s.conns[id], job)
    requires forall i :: 0 <= i < |events| ==> events[i] != Unsubscribe(id)
    ensures id in End(s, events).conns && End(s, events).conns[id].base == s.conns[id].base
    ensures ShownOrOwed(End(s, events).conns[id], job)
    decreases |events|
  {
    if events != [] {
      StepKeepsInv(s, events[0]);
      StepKeepsShown(s, events[0], id, job);
      RunKeepsShown(Apply(s, events[0]), events[1..], id, job);
    }
  }

  /**
   The same for a subscriber that starts on the job that is already current: when its initial work is the job that
   was current at some moment after it began to listen, then once everything is drained and notified it works on the
   newest job, published since or not, unless the notify of that very job failed.
   */
  lemma InitialWorkConverges(before: seq<Event>, was: State, after: seq<Event>, id: ConnId)
    requires Runs(START, before) && was == End(START, before)
    requires Enabled(was, Snapshot(id)) && was.conns[id].listening && Runs(Apply(was, Snapshot(id)), after)
    requires forall i :: 0 <= i < |before| ==> before[i].Publish? ==> !before[i].direct
    requires forall i :: 0 <= i < |after| ==> after[i].Publish? ==> !after[i].direct
    requires forall i :: 0 <= i < |after| ==> after[i] != Unsubscribe(id)
    ensures SettlesOn(End(Apply(was, Snapshot(id)), after), id)
  {
    RunKeepsInv(START, before);
    RunConverges(START, before);
    SnapshotIsOwed(was, id);
    SettlesOnNewest(Apply(was, Snapshot(id)), after, id, was.current);
  }

  /** Still subscribed; and once all is drained and the newest job notified, the connection works on it. */
  predicate SettlesOn(s: State, id: ConnId) {
    && id in s.conns
    && (Drained(s) && s.conns[id].held.None? && s.conns[id].others == [] && s.current !in s.conns[id].missed ==>
          s.conns[id].last == s.current)
  }

  lemma SnapshotIsOwed(s: State, id: ConnId)
    requires Inv(s) && Converging(s) && Enabled(s, Snapshot(id))
    ensures
      var t := Apply(s, Snapshot(id));
      && Inv(t) && Converging(t) && id in t.conns && t.conns[id].listening == s.conns[id].listening
      && t.conns[id].base <= s.current && ShownOrOwed(t.conns[id], s.current)
  {
    StepKeepsInv(s, Snapshot(id));
    ConnStepConverges(s, Snapshot(id));
    assert s.current in Apply(s, Snapshot(id)).conns[id].others;
    assert GoodConn(s.conns[id], s.current);
  }

  lemma SettlesOnNewest(s: State, events: seq<Event>, id: ConnId, job: Job)
    requires Inv(s) && Converging(s) && Runs(s, events)
    requires id in s.conns && s.conns[id].listening && s.conns[id].base <= job && ShownOrOwed(s.conns[id], job)
    requires forall i :: 0 <= i < |events| ==> events[i].Publish? ==> !events[i].direct
    requires forall i :: 0 <= i < |events| ==> events[i] != Unsubscribe(id)
    ensures SettlesOn(End(s, events), id)
  {
    RunKeepsInv(s, events);
    RunConverges(s, events);
    RunKeepsShown(s, events, id, job);
    OwedSettlesOn(End(s, events), id, job);
  }

  lemma OwedSettlesOn(s: State, id: ConnId, job: Job)
    requires Inv(s) && Converging(s)
    requires id in s.conns && s.conns[id].base <= job && ShownOrOwed(s.conns[id], job)
    ensures SettlesOn(s, id)
  {
    if Drained(s) {
      DrainedHasNewest(s, id);
    }
    assert GoodConn(s.conns[id], s.current);
  }
}
