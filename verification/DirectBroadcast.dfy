/**
 What a direct broadcast risks by overtaking the queue. Right after its send the job is last in a subscriber's channel,
 and the older jobs it overtook are still to come. It is safe exactly when the channel has room for all of them.
 */
module DirectBroadcast {
  import opened Results
  import opened Sequences
  import opened JobDelivery

  // ---------------------------------------------------------------- the direct job is new

  predicate Below(jobs: seq<Job>, top: Job) {
    forall i :: 0 <= i < |jobs| ==> jobs[i] < top
  }

  predicate Served(s: State, id: ConnId) {
    s.fan.Fan? && s.fan.direct && id !in s.fan.todo
  }

  /** The job of a direct broadcast is newer than all that waits, and than all a channel not yet served has seen. */
  predicate Novel(s: State) {
    s.publisher.Direct? ==>
      && Below(Coming(s), s.current) && (s.fan.Fan? && !s.fan.direct ==> s.fan.job < s.current)
      && forall id :: id in s.conns && !Served(s, id) ==>
           Below(s.conns[id].chan, s.current) && Below(s.conns[id].received, s.current)
  }

  lemma ConnStepKeepsNovel(s: State, e: Event)
    requires Inv(s) && Novel(s) && Enabled(s, e) && OfConn(e)
    ensures Novel(Apply(s, e))
  {
    assert Coming(Apply(s, e)) == Coming(s);
    var c, d := s.conns[e.conn], ConnStep(s.conns[e.conn], e, s.current);
    assert Below(c.chan, s.current) && Below(c.received, s.current) ==>
        Below(d.chan, s.current) && Below(d.received, s.current);
  }

  lemma SendKeepsNovel(s: State)
    requires Inv(s) && Novel(s) && Enabled(s, Send)
    ensures Novel(Apply(s, Send))
  {
    var t := Apply(s, Send);
    assert Coming(t) == Coming(s);
    if s.publisher.Direct? {
      forall id | id in t.conns && !Served(t, id)
        ensures Below(t.conns[id].chan, t.current) && Below(t.conns[id].received, t.current)
      {
        SendKeepsBelow(s, id);
      }
    }
  }

  lemma SendKeepsBelow(s: State, id: ConnId)
    requires Inv(s) && Novel(s) && Enabled(s, Send) && s.publisher.Direct?
    requires id in s.conns && !Served(Apply(s, Send), id)
    ensures
      var d := Apply(s, Send).conns[id];
      Below(d.chan, s.current) && Below(d.received, s.current)
  {
    assert !Served(s, id);
    assert s.fan.todo == [s.fan.todo[0]] + s.fan.todo[1..];
    var chan := s.conns[id].chan;
    BelowBeheaded(chan, s.current);
    if s.fan.job < s.current {
      BelowAppended(chan, s.fan.job, s.current);
    }
  }

  lemma BelowAppended(jobs: seq<Job>, job: Job, top: Job)
    requires Below(jobs, top) && job < top
    ensures Below(jobs + [job], top)
  {
  }

  lemma BelowBeheaded(jobs: seq<Job>, top: Job)
    requires Below(jobs, top)
    ensures Below(Behead(jobs), top)
  {
  }

  lemma PublishKeepsNovel(s: State, e: Event)
    requires Inv(s) && Enabled(s, e) && e.Publish?
    ensures Novel(Apply(s, e))
  {
    assert forall id :: id in s.conns ==> GoodConn(s.conns[id], s.current);
  }

  lemma PoolStepKeepsNovel(s: State, e: Event)
    requires Inv(s) && Novel(s) && Enabled(s, e) && !OfConn(e) && !e.Send? && !e.Publish?
    ensures Novel(Apply(s, e))
  {
    if e.WorkerTake? || e.WorkerLock? {
      WorkerStepKeepsNovel(s, e);
    }
  }

  lemma WorkerStepKeepsNovel(s: State, e: Event)
    requires Novel(s) && Enabled(s, e) && (e.WorkerTake? || e.WorkerLock?)
    ensures Novel(Apply(s, e))
  {
    var t := Apply(s, e);
    if e.WorkerTake? {
      assert Coming(t) == Coming(s);
    } else {
      assert Coming(s) == [s.hand.value] + Coming(t);
      assert forall i :: 0 <= i < |Coming(t)| ==> Coming(t)[i] == Coming(s)[i + 1];
      assert s.hand.value == Coming(s)[0];
    }
  }

  lemma {:induction false} RunKeepsNovel(s: State, events: seq<Event>)
    requires Inv(s) && Novel(s) && Runs(s, events)
    ensures Inv(End(s, events)) && Novel(End(s, events))
    decreases |events|
  {
    if events != [] {
      StepKeepsInv(s, events[0]);
      if OfConn(events[0]) {
        ConnStepKeepsNovel(s, events[0]);
      } else if events[0].Send? {
        SendKeepsNovel(s);
      } else if events[0].Publish? {
        PublishKeepsNovel(s, events[0]);
      } else {
        PoolStepKeepsNovel(s, events[0]);
      }
      RunKeepsNovel(Apply(s, events[0]), events[1..]);
    }
  }

  // ---------------------------------------------------------------- room for all that is to come

  /** How many sends to a subscriber are under way or certain to come. */
  function Ahead(s: State, id: ConnId): nat {
    |Coming(s)| + (if s.fan.Fan? && id in s.fan.todo then 1 else 0)
    + (if s.publisher.Direct? && !(s.fan.Fan? && s.fan.direct) then 1 else 0)
  }

  function Publishes(events: seq<Event>): nat {
    if events == [] then 0 else (if events[0].Publish? then 1 else 0) + Publishes(events[1..])
  }

  /** A listening subscriber's channel has room for every send to come, `more` publishes included. */
  predicate Roomy(s: State, id: ConnId, more: nat) {
    && id in s.conns && s.conns[id].listening && |s.conns[id].chan| + Ahead(s, id) + more <= CHANNEL_CAP
    && (s.fan.Fan? && s.fan.todo != [] && s.fan.todo[0] == id ==> s.fan.move.Try?)
  }

  /** All that ever went through a subscriber's channel, oldest first. */
  function Line(c: Conn): seq<Job> {
    c.received + c.chan
  }

  ghost predicate Stays(events: seq<Event>, id: ConnId) {
    forall i :: 0 <= i < |events| ==> events[i] != Unsubscribe(id)
  }

  lemma StepKeepsRoom(s: State, e: Event, id: ConnId, more: nat)
    requires Inv(s) && Enabled(s, e) && e != Unsubscribe(id) && (e.Publish? ==> more > 0) && Roomy(s, id, more)
    ensures Roomy(Apply(s, e), id, if e.Publish? then more - 1 else more)
    ensures Line(s.conns[id]) <= Line(Apply(s, e).conns[id])
  {
    if e.Send? {
      SendKeepsRoom(s, id, more);
    } else if OfConn(e) {
      ConnStepKeepsRoom(s, e, id, more);
    } else if e.WorkerTake? || e.WorkerLock? {
      WorkerStepKeepsRoom(s, e, id, more);
    } else {
      PoolStepKeepsRoom(s, e, id, more);
    }
  }

  lemma ConnStepKeepsRoom(s: State, e: Event, id: ConnId, more: nat)
    requires Enabled(s, e) && OfConn(e) && Roomy(s, id, more)
    ensures Roomy(Apply(s, e), id, more)
    ensures Line(s.conns[id]) <= Line(Apply(s, e).conns[id])
  {
    assert Coming(Apply(s, e)) == Coming(s);
    if e.conn == id {
      LineGrows(s.conns[id], e, s.current);
    }
  }

  lemma LineGrows(c: Conn, e: Event, top: Job)
    requires OfConn(e) && !e.DrainOne? && (e.ListenerTake? ==> c.chan != [])
    requires (e.ListenerNotify? ==> c.held.Some?) && (e.OtherNotify? ==> e.which < |c.others|)
    ensures Line(ConnStep(c, e, top)) == Line(c) && |ConnStep(c, e, top).chan| <= |c.chan|
    ensures c.listening ==> ConnStep(c, e, top).listening
  {
  }

  lemma WorkerStepKeepsRoom(s: State, e: Event, id: ConnId, more: nat)
    requires Enabled(s, e) && (e.WorkerTake? || e.WorkerLock?) && Roomy(s, id, more)
    ensures Roomy(Apply(s, e), id, more) && Apply(s, e).conns == s.conns
  {
    if e.WorkerTake? {
      assert Coming(Apply(s, e)) == Coming(s);
    } else {
      assert Coming(s) == [s.hand.value] + Coming(Apply(s, e));
    }
  }

  lemma PoolStepKeepsRoom(s: State, e: Event, id: ConnId, more: nat)
    requires Inv(s) && Enabled(s, e) && !e.Send? && !OfConn(e) && !e.WorkerTake? && !e.WorkerLock?
    requires e != Unsubscribe(id) && (e.Publish? ==> more > 0) && Roomy(s, id, more)
    ensures Roomy(Apply(s, e), id, if e.Publish? then more - 1 else more)
    ensures id in Apply(s, e).conns && Apply(s, e).conns[id] == s.conns[id]
  {
  }

  lemma SendKeepsRoom(s: State, id: ConnId, more: nat)
    requires Inv(s) && Enabled(s, Send) && Roomy(s, id, more)
    ensures Roomy(Apply(s, Send), id, more)
    ensures Line(s.conns[id]) <= Line(Apply(s, Send).conns[id])
  {
    assert Coming(Apply(s, Send)) == Coming(s);
    if s.fan.todo[0] == id {
      assert s.fan.todo == [id] + s.fan.todo[1..];
    }
  }

  /** With room for every send to come, nothing a subscriber's channel holds is ever lost. */
  lemma {:induction false} RoomKeepsAll(s: State, events: seq<Event>, id: ConnId)
    requires Inv(s) && Runs(s, events) && Stays(events, id) && Roomy(s, id, Publishes(events))
    ensures id in End(s, events).conns && Line(s.conns[id]) <= Line(End(s, events).conns[id])
    decreases |events|
  {
    if events != [] {
      StepKeepsInv(s, events[0]);
      StepKeepsRoom(s, events[0], id, Publishes(events));
      RoomKeepsAll(Apply(s, events[0]), events[1..], id);
    }
  }

  // ---------------------------------------------------------------- runs without new jobs

  ghost predicate Undisturbed(s: State, events: seq<Event>, id: ConnId) {
    Runs(s, events) && Stays(events, id) && forall i :: 0 <= i < |events| ==> !events[i].Publish?
  }

  ghost predicate Leads(s: State, t: State, id: ConnId) {
    exists events: seq<Event> :: Undisturbed(s, events, id) && End(s, events) == t
  }

  lemma LeadsHere(s: State, id: ConnId)
    ensures Leads(s, s, id)
  {
    assert Undisturbed(s, [], id) && End(s, []) == s;
  }

  lemma LeadsBy(s: State, e: Event, t: State, id: ConnId)
    requires Enabled(s, e) && e != Unsubscribe(id) && !e.Publish? && Leads(Apply(s, e), t, id)
    ensures Leads(s, t, id)
  {
    var events :| Undisturbed(Apply(s, e), events, id) && End(Apply(s, e), events) == t;
    assert ([e] + events)[1..] == events;
    assert Undisturbed(s, [e] + events, id) && End(s, [e] + events) == t;
  }

  lemma {:induction false} RunsOn(s: State, a: seq<Event>, b: seq<Event>)
    requires Runs(s, a) && Runs(End(s, a), b)
    ensures Runs(s, a + b) && End(s, a + b) == End(End(s, a), b)
    decreases |a|
  {
    if a == [] {
      assert a + b == b;
    } else {
      assert (a + b)[1..] == a[1..] + b;
      RunsOn(Apply(s, a[0]), a[1..], b);
    }
  }

  lemma LeadsOn(s: State, t: State, u: State, id: ConnId)
    requires Leads(s, t, id) && Leads(t, u, id)
    ensures Leads(s, u, id)
  {
    var a :| Undisturbed(s, a, id) && End(s, a) == t;
    var b :| Undisturbed(t, b, id) && End(t, b) == u;
    RunsOn(s, a, b);
    assert Undisturbed(s, a + b, id);
  }

  /** Some list of all subscribers starts with `id`. */
  lemma {:induction false} ListingFrom(ids: set<ConnId>) returns (order: seq<ConnId>)
    ensures Distinct(order) && forall c :: c in order <==> c in ids
    decreases |ids|
  {
    order := [];
    if ids != {} {
      var c :| c in ids;
      var rest := ListingFrom(ids - {c});
      order := [c] + rest;
    }
  }

  // ---------------------------------------------------------------- how older jobs push one out

  /** A sender serves the channels it has left, none of them that of `id`, and lets go of the lock. */
  lemma {:induction false} FanFinishes(s: State, id: ConnId) returns (t: State)
    requires Inv(s) && s.fan.Fan? && id in s.conns && id !in s.fan.todo
    ensures Leads(s, t, id) && Inv(t) && t.fan.NoFan? && id in t.conns && t.conns[id] == s.conns[id]
    ensures t.queue == s.queue && t.hand == s.hand && t.publisher == if s.fan.direct then Resting else s.publisher
    decreases |s.fan.todo|, s.fan.move.Try?, s.fan.move.Drop?
  {
    var e := if s.fan.todo == [] then FanDone else Send;
    var next := Apply(s, e);
    StepKeepsInv(s, e);
    if s.fan.todo == [] {
      t := next;
      LeadsHere(t, id);
    } else {
      t := FanFinishes(next, id);
    }
    LeadsBy(s, e, t, id);
  }

  /** The dispatcher takes the next job and stands before the channel of `id`. */
  lemma DispatcherComes(s: State, id: ConnId) returns (t: State)
    requires Inv(s) && s.fan.NoFan? && s.publisher.Resting? && id in s.conns && Coming(s) != []
    ensures Leads(s, t, id) && Inv(t) && id in t.conns && t.conns[id] == s.conns[id]
    ensures t.publisher.Resting? && Coming(t) == Coming(s)[1..]
    ensures t.fan.Fan? && !t.fan.direct && t.fan.job == Coming(s)[0] && t.fan.move.Try?
    ensures t.fan.todo != [] && t.fan.todo[0] == id && id !in t.fan.todo[1..]
  {
    var taken := s;
    if s.hand.None? {
      StepKeepsInv(s, WorkerTake);
      taken := Apply(s, WorkerTake);
      assert Coming(taken) == Coming(s);
    }
    var rest := ListingFrom(s.conns.Keys - {id});
    var lock := WorkerLock([id] + rest);
    t := Apply(taken, lock);
    StepKeepsInv(taken, lock);
    assert Coming(taken) == [taken.hand.value] + Coming(t);
    LeadsHere(t, id);
    LeadsBy(taken, lock, t, id);
    if s.hand.None? {
      LeadsBy(s, WorkerTake, t, id);
    }
  }

  /** The next job to come joins a channel that has room. */
  lemma DispatchOne(s: State, id: ConnId) returns (t: State)
    requires Inv(s) && s.fan.NoFan? && s.publisher.Resting? && id in s.conns && Coming(s) != []
    requires |s.conns[id].chan| < CHANNEL_CAP
    ensures Leads(s, t, id) && Inv(t) && t.fan.NoFan? && t.publisher.Resting? && Coming(t) == Coming(s)[1..]
    ensures id in t.conns && t.conns[id] == s.conns[id].(chan := s.conns[id].chan + [Coming(s)[0]])
  {
    var locked := DispatcherComes(s, id);
    StepKeepsInv(locked, Send);
    var sent := Apply(locked, Send);
    assert Coming(sent) == Coming(locked);
    t := FanFinishes(sent, id);
    LeadsBy(locked, Send, t, id);
    LeadsOn(s, locked, t, id);
  }

  /** A listener takes the first job of its channel, after notifying the one it holds. */
  lemma ListenerTakesOne(s: State, id: ConnId) returns (t: State)
    requires Inv(s) && id in s.conns && s.conns[id].listening && s.conns[id].chan != []
    ensures Leads(s, t, id) && Inv(t) && t.fan == s.fan && id in t.conns && t.conns[id].listening
    ensures t.conns[id].chan == s.conns[id].chan[1..]
    ensures t.conns[id].received == s.conns[id].received + [s.conns[id].chan[0]]
  {
    var free := s;
    if s.conns[id].held.Some? {
      StepKeepsInv(s, ListenerNotify(id, true));
      free := Apply(s, ListenerNotify(id, true));
    }
    StepKeepsInv(free, ListenerTake(id));
    t := Apply(free, ListenerTake(id));
    LeadsHere(t, id);
    LeadsBy(free, ListenerTake(id), t, id);
    if s.conns[id].held.Some? {
      LeadsBy(s, ListenerNotify(id, true), t, id);
    }
  }

  /** A listener takes the first `count` jobs of its channel, whatever the rest of the pool is at. */
  lemma {:induction false} ListenerTakes(s: State, id: ConnId, count: nat) returns (t: State)
    requires Inv(s) && id in s.conns && s.conns[id].listening && count <= |s.conns[id].chan|
    ensures Leads(s, t, id) && Inv(t) && t.fan == s.fan && id in t.conns
    ensures t.conns[id].chan == s.conns[id].chan[count..]
    ensures t.conns[id].received == s.conns[id].received + s.conns[id].chan[..count]
    decreases count
  {
    if count == 0 {
      t := s;
      LeadsHere(s, id);
    } else {
      var taken := ListenerTakesOne(s, id);
      t := ListenerTakes(taken, id, count - 1);
      LeadsOn(s, taken, t, id);
      TakenInOrder(s.conns[id].received, s.conns[id].chan, count);
    }
  }

  lemma TakenInOrder(received: seq<Job>, chan: seq<Job>, count: nat)
    requires 0 < count <= |chan|
    ensures received + [chan[0]] + chan[1..][..count - 1] == received + chan[..count]
    ensures chan[1..][count - 1..] == chan[count..]
  {
  }

  predicate OnlyAt(jobs: seq<Job>, job: Job, at: nat) {
    at < |jobs| && jobs[at] == job && forall i :: 0 <= i < |jobs| && jobs[i] == job ==> i == at
  }

  predicate Gone(s: State, id: ConnId, job: Job) {
    id in s.conns && job !in s.conns[id].chan && job !in s.conns[id].received
  }

  /** A full channel loses any of its jobs: the sender sees it full, the listener takes the older ones, and what the
      sender then throws away is the job. */
  lemma FullChannelLoses(s: State, id: ConnId, job: Job, at: nat) returns (t: State)
    requires Inv(s) && s.fan.NoFan? && s.publisher.Resting? && id in s.conns && s.conns[id].listening
    requires Coming(s) != [] && |s.conns[id].chan| == CHANNEL_CAP
    requires OnlyAt(s.conns[id].chan, job, at) && job !in s.conns[id].received
    ensures Leads(s, t, id) && Gone(t, id, job)
  {
    var locked := DispatcherComes(s, id);
    StepKeepsInv(locked, Send);
    var dropping := Apply(locked, Send);
    var taken := ListenerTakes(dropping, id, at);
    t := Apply(taken, Send);
    LeadsHere(t, id);
    LeadsBy(taken, Send, t, id);
    LeadsOn(dropping, taken, t, id);
    LeadsBy(locked, Send, t, id);
    LeadsOn(s, locked, t, id);
  }

  /** When more is to come than there is room for, a job in the channel can be pushed out unreceived. */
  lemma {:induction false} OlderJobsPushOut(s: State, id: ConnId, job: Job, at: nat) returns (t: State)
    requires Inv(s) && s.fan.NoFan? && s.publisher.Resting? && id in s.conns && s.conns[id].listening
    requires |s.conns[id].chan| + |Coming(s)| > CHANNEL_CAP
    requires OnlyAt(s.conns[id].chan, job, at) && job !in s.conns[id].received && job !in Coming(s)
    ensures Leads(s, t, id) && Gone(t, id, job)
    decreases |Coming(s)|
  {
    assert GoodConn(s.conns[id], s.current);
    if |s.conns[id].chan| == CHANNEL_CAP {
      t := FullChannelLoses(s, id, job, at);
    } else {
      var sent := DispatchOne(s, id);
      assert Coming(s)[0] in Coming(s);
      t := OlderJobsPushOut(sent, id, job, at);
      LeadsOn(s, sent, t, id);
    }
  }

  // ---------------------------------------------------------------- exactly when a direct broadcast is safe

  ghost predicate Reachable(s: State) {
    exists events: seq<Event> :: Runs(START, events) && End(START, events) == s
  }

  /** In every run without new jobs in which the subscriber stays, it has the job in its channel or has received it. */
  ghost predicate Safe(s: State, id: ConnId, job: Job) {
    forall events: seq<Event> :: Undisturbed(s, events, id) ==> !Gone(End(s, events), id, job)
  }

  /** A direct broadcast that has just been sent to a listening subscriber. */
  ghost predicate JustSent(before: State, id: ConnId) {
    && Enabled(before, Send) && before.fan.direct && before.fan.todo[0] == id && before.conns[id].listening
    && |Apply(before, Send).fan.todo| < |before.fan.todo|
  }

  lemma {:induction false} NoPublishes(events: seq<Event>)
    requires forall i :: 0 <= i < |events| ==> !events[i].Publish?
    ensures Publishes(events) == 0
  {
    if events != [] {
      NoPublishes(events[1..]);
    }
  }

  lemma RoomIsSafe(s: State, id: ConnId, job: Job)
    requires Inv(s) && Roomy(s, id, 0) && job in s.conns[id].chan
    ensures Safe(s, id, job)
  {
    forall events: seq<Event> | Undisturbed(s, events, id)
      ensures !Gone(End(s, events), id, job)
    {
      NoPublishes(events);
      RoomKeepsAll(s, events, id);
      var c, d := s.conns[id], End(s, events).conns[id];
      assert job in Line(c);
      assert job in Line(d);
    }
  }

  /** Right after its send the job is in the channel once, as the last, and has been nowhere else. */
  lemma SentJobIsNew(before: State, id: ConnId)
    requires Reachable(before) && JustSent(before, id)
    ensures
      var s := Apply(before, Send);
      && Inv(s) && s.fan.Fan? && s.fan.direct && s.publisher.Direct? && id !in s.fan.todo
      && id in s.conns && s.conns[id].listening && OnlyAt(s.conns[id].chan, s.current, |s.conns[id].chan| - 1)
      && s.current !in s.conns[id].received && s.current !in Coming(s)
  {
    var past :| Runs(START, past) && End(START, past) == before;
    RunKeepsNovel(START, past);
    StepKeepsInv(before, Send);
    SendLeavesNewestLast(before);
    SentAmongOlder(before, id);
  }

  lemma SentAmongOlder(before: State, id: ConnId)
    requires Inv(before) && Novel(before) && JustSent(before, id)
    requires
      var chan := Apply(before, Send).conns[id].chan;
      chan != [] && chan[|chan| - 1] == before.fan.job && chan[..|chan| - 1] == before.conns[id].chan
    ensures
      var s := Apply(before, Send);
      && s.fan.Fan? && s.fan.direct && s.publisher.Direct? && id !in s.fan.todo
      && id in s.conns && s.conns[id].listening && OnlyAt(s.conns[id].chan, s.current, |s.conns[id].chan| - 1)
      && s.current !in s.conns[id].received && s.current !in Coming(s)
  {
    var s := Apply(before, Send);
    assert Coming(s) == Coming(before);
    assert before.fan.todo == [id] + before.fan.todo[1..];
    assert Below(before.conns[id].chan, s.current) && Below(before.conns[id].received, s.current);
  }

  /**
   Right after a direct broadcast is sent to a listening subscriber, whatever happened before: it is safe from the
   older jobs it overtook exactly when the channel, with all of them added, would not hold more than it can.
   */
  lemma DirectBroadcastIsSafeIff(before: State, id: ConnId)
    requires Reachable(before) && JustSent(before, id)
    ensures
      var s := Apply(before, Send);
      Safe(s, id, s.current) <==> |s.conns[id].chan| + |Coming(s)| <= CHANNEL_CAP
  {
    var s := Apply(before, Send);
    SentJobIsNew(before, id);
    if |s.conns[id].chan| + |Coming(s)| <= CHANNEL_CAP {
      RoomIsSafe(s, id, s.current);
    } else {
      var free := FanFinishes(s, id);
      assert Coming(free) == Coming(s);
      var t := OlderJobsPushOut(free, id, s.current, |s.conns[id].chan| - 1);
      LeadsOn(s, free, t, id);
    }
  }

  lemma {:induction false} CurrentStays(s: State, events: seq<Event>)
    requires Runs(s, events) && forall i :: 0 <= i < |events| ==> !events[i].Publish?
    ensures End(s, events).current == s.current
    decreases |events|
  {
    if events != [] {
      assert Apply(s, events[0]).current == s.current;
      CurrentStays(Apply(s, events[0]), events[1..]);
    }
  }

  /**
   What a safe direct broadcast is for: under the same bound, in every run without new jobs, once everything is
   drained and the listener has put what it took before the guard, the connection works on that very job, unless the
   notify of it failed.
   */
  lemma SafeBroadcastIsWorkedOn(before: State, events: seq<Event>, id: ConnId)
    requires Reachable(before) && JustSent(before, id) && Undisturbed(Apply(before, Send), events, id)
    requires |Apply(before, Send).conns[id].chan| + |Coming(Apply(before, Send))| <= CHANNEL_CAP
    ensures
      var s, t := Apply(before, Send), End(Apply(before, Send), events);
      && t.current == s.current && id in t.conns
      && (Drained(t) && t.conns[id].held.None? && t.current !in t.conns[id].missed ==> t.conns[id].last == t.current)
  {
    var s := Apply(before, Send);
    SentJobIsNew(before, id);
    NoPublishes(events);
    RoomKeepsAll(s, events, id);
    RunKeepsInv(s, events);
    CurrentStays(s, events);
    DrainedIsWorkedOn(s.conns[id], End(s, events), id);
  }

  lemma DrainedIsWorkedOn(c: Conn, t: State, id: ConnId)
    requires Inv(t) && id in t.conns && t.current in c.chan && Line(c) <= Line(t.conns[id])
    ensures Drained(t) && t.conns[id].held.None? && t.current !in t.conns[id].missed ==> t.conns[id].last == t.current
  {
    assert GoodConn(t.conns[id], t.current);
    assert t.current in Line(c);
    assert t.current in Line(t.conns[id]);
  }

  // ---------------------------------------------------------------- a run in which one is lost

  lemma ReachesBy(t: State, e: Event)
    requires Reachable(t) && Enabled(t, e)
    ensures Reachable(Apply(t, e))
  {
    var past :| Runs(START, past) && End(START, past) == t;
    var u := Apply(t, e);
    assert [e][1..] == [] && Runs(u, []) && End(u, []) == u;
    assert Runs(t, [e]) && End(t, [e]) == End(u, [e][1..]);
    RunsOn(START, past, [e]);
  }

  function Holding(chan: seq<Job>, received: seq<Job>, last: Job): Conn {
    Conn(0, true, chan, received, None, [], last, {})
  }

  /** One listening subscriber and nothing under way. */
  function Quiet(current: Job, queue: seq<Job>, c: Conn): State {
    State(current, Resting, queue, None, NoFan, map[0 := c])
  }

  /** The dispatcher at work on the only subscriber. */
  function Serving(current: Job, queue: seq<Job>, c: Conn, todo: seq<ConnId>, move: Move, job: Job): State {
    State(current, Resting, queue, None, Fan(job, todo, move, false), map[0 := c])
  }

  lemma OnlySubscriber(c: Conn)
    ensures Lists([0], map[0 := c])
  {
  }

  lemma FirstSubscriber()
    ensures Reachable(Quiet(0, [], Holding([], [], 0)))
  {
    assert Runs(START, []) && End(START, []) == START;
    ReachesBy(START, Subscribe(0));
    ReachesBy(Apply(START, Subscribe(0)), StartListening(0));
    assert Apply(Apply(START, Subscribe(0)), StartListening(0)) == Quiet(0, [], Holding([], [], 0));
  }

  lemma QueueOne(current: Job, queue: seq<Job>, queue': seq<Job>, c: Conn)
    requires |queue| < QUEUE_CAP && Reachable(Quiet(current, queue, c)) && queue' == queue + [current + 1]
    ensures Reachable(Quiet(current + 1, queue', c))
  {
    var t := Quiet(current, queue, c);
    ReachesBy(t, Publish(current + 1, false));
    ReachesBy(Apply(t, Publish(current + 1, false)), QueueTry);
  }

  lemma SendDirect(current: Job, queue: seq<Job>, c: Conn)
    requires |c.chan| < CHANNEL_CAP && Reachable(Quiet(current, queue, c))
    ensures Reachable(Quiet(current + 1, queue, c.(chan := c.chan + [current + 1])))
  {
    var t := Quiet(current, queue, c);
    OnlySubscriber(c);
    ReachesBy(t, Publish(current + 1, true));
    t := Apply(t, Publish(current + 1, true));
    ReachesBy(t, DirectLock([0]));
    t := Apply(t, DirectLock([0]));
    ReachesBy(t, Send);
    t := Apply(t, Send);
    ReachesBy(t, FanDone);
    assert Apply(t, FanDone) == Quiet(current + 1, queue, c.(chan := c.chan + [current + 1]));
  }

  lemma ServingStarts(current: Job, queue: seq<Job>, c: Conn)
    requires queue != [] && Reachable(Quiet(current, queue, c))
    ensures Reachable(Serving(current, queue[1..], c, [0], Try, queue[0]))
  {
    var t := Quiet(current, queue, c);
    OnlySubscriber(c);
    ReachesBy(t, WorkerTake);
    ReachesBy(Apply(t, WorkerTake), WorkerLock([0]));
  }

  lemma ServingEnds(current: Job, queue: seq<Job>, c: Conn, job: Job, move: Move)
    requires move != Drop && |c.chan| < CHANNEL_CAP && Reachable(Serving(current, queue, c, [0], move, job))
    ensures Reachable(Quiet(current, queue, c.(chan := c.chan + [job])))
  {
    var t := Serving(current, queue, c, [0], move, job);
    var served := Serving(current, queue, c.(chan := c.chan + [job]), [], Try, job);
    ReachesBy(t, Send);
    assert Apply(t, Send) == served by { assert [0][1..] == []; }
    ReachesBy(served, FanDone);
  }

  lemma ServeOne(current: Job, queue: seq<Job>, c: Conn)
    requires queue != [] && |c.chan| <= CHANNEL_CAP && Reachable(Quiet(current, queue, c))
    ensures
      var kept := if |c.chan| < CHANNEL_CAP then c.chan else c.chan[1..];
      Reachable(Quiet(current, queue[1..], c.(chan := kept + [queue[0]])))
  {
    ServingStarts(current, queue, c);
    if |c.chan| < CHANNEL_CAP {
      ServingEnds(current, queue[1..], c, queue[0], Try);
    } else {
      var t := Serving(current, queue[1..], c, [0], Try, queue[0]);
      ReachesBy(t, Send);
      ReachesBy(Apply(t, Send), Send);
      assert Apply(Apply(t, Send), Send) ==
             Serving(current, queue[1..], c.(chan := c.chan[1..]), [0], Retry, queue[0]);
      ServingEnds(current, queue[1..], c.(chan := c.chan[1..]), queue[0], Retry);
    }
  }

  /** Served while its listener is busy, a subscriber is left with the newest four of what it had and what came. */
  lemma {:induction false} QueueDisplaces(current: Job, queue: seq<Job>, c: Conn)
    requires |c.chan| <= CHANNEL_CAP && Reachable(Quiet(current, queue, c))
    ensures Reachable(Quiet(current, [], c.(chan := LastN(c.chan + queue, CHANNEL_CAP))))
    decreases |queue|
  {
    if queue == [] {
      assert c.chan + queue == c.chan;
    } else {
      ServeOne(current, queue, c);
      var chan := (if |c.chan| < CHANNEL_CAP then c.chan else c.chan[1..]) + [queue[0]];
      QueueDisplaces(current, queue[1..], c.(chan := chan));
      assert LastN(chan + queue[1..], CHANNEL_CAP) == LastN(c.chan + queue, CHANNEL_CAP);
    }
  }

  lemma Receive(current: Job, chan: seq<Job>, received: seq<Job>, last: Job, chan': seq<Job>, received': seq<Job>)
    requires chan != [] && last <= chan[0] && Reachable(Quiet(current, [], Holding(chan, received, last)))
    requires chan' == chan[1..] && received' == received + [chan[0]]
    ensures Reachable(Quiet(current, [], Holding(chan', received', chan[0])))
  {
    var t := Quiet(current, [], Holding(chan, received, last));
    ReachesBy(t, ListenerTake(0));
    t := Apply(t, ListenerTake(0));
    ReachesBy(t, ListenerNotify(0, true));
    assert Apply(t, ListenerNotify(0, true)) == Quiet(current, [], Holding(chan', received', chan[0]));
  }

  /** Four jobs wait in the queue and the fifth has gone out directly. */
  lemma FifthOvertakes()
    ensures Reachable(Quiet(5, [1, 2, 3, 4], Holding([5], [], 0)))
  {
    FirstSubscriber();
    QueueOne(0, [], [1], Holding([], [], 0));
    QueueOne(1, [1], [1, 2], Holding([], [], 0));
    QueueOne(2, [1, 2], [1, 2, 3], Holding([], [], 0));
    QueueOne(3, [1, 2, 3], [1, 2, 3, 4], Holding([], [], 0));
    SendDirect(4, [1, 2, 3, 4], Holding([], [], 0));
    assert [] + [5] == [5];
  }

  /** A direct broadcast can be lost for good: everything is drained and the subscriber works on an older job. */
  lemma DirectBroadcastCanBeLost()
    ensures exists s: State ::
              Reachable(s) && Drained(s) && 0 in s.conns && s.conns[0].held.None? && s.conns[0].last < s.current
  {
    FifthOvertakes();
    QueueDisplaces(5, [1, 2, 3, 4], Holding([5], [], 0));
    assert LastN([5] + [1, 2, 3, 4], CHANNEL_CAP) == [1, 2, 3, 4];
    Receive(5, [1, 2, 3, 4], [], 0, [2, 3, 4], [1]);
    Receive(5, [2, 3, 4], [1], 1, [3, 4], [1, 2]);
    Receive(5, [3, 4], [1, 2], 2, [4], [1, 2, 3]);
    Receive(5, [4], [1, 2, 3], 3, [], [1, 2, 3, 4]);
    var s := Quiet(5, [], Holding([], [1, 2, 3, 4], 4));
    assert Reachable(s) && Drained(s);
  }
}
