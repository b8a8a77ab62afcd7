/** The broadcasting methods of the job manager, each run without interference, and how they match the steps. */
module JobBroadcast {
  import opened JobDelivery

  /** A job put at the end of a bounded buffer; a full one loses its oldest entry. */
  function Displaced(buffer: seq<Job>, job: Job, cap: nat): (r: seq<Job>)
    requires 0 < cap
    ensures r != [] && r[|r| - 1] == job
    ensures |buffer| <= cap ==> |r| <= cap
  {
    if |buffer| < cap then buffer + [job] else buffer[1..] + [job]
  }

  /** The selects of one send, run on their own, displace at most the oldest entry and move on. */
  lemma SendAlone(s: State)
    requires Inv(s) && Enabled(s, Send) && s.fan.move == Try
    ensures
      var id := s.fan.todo[0];
      var c := s.conns[id];
      var t := Put(s, id, c.(chan := Displaced(c.chan, s.fan.job, CHANNEL_CAP))).(
        fan := s.fan.(todo := s.fan.todo[1..], move := Try));
      && (|c.chan| < CHANNEL_CAP ==> Apply(s, Send) == t)
      && (|c.chan| == CHANNEL_CAP ==>
            && Enabled(Apply(s, Send), Send) && Enabled(Apply(Apply(s, Send), Send), Send)
            && Apply(Apply(Apply(s, Send), Send), Send) == t)
  {
    var id := s.fan.todo[0];
    var c := s.conns[id];
    if |c.chan| == CHANNEL_CAP {
      var dropping := s.(fan := s.fan.(move := Drop));
      var retrying := Put(s, id, c.(chan := c.chan[1..])).(fan := s.fan.(move := Retry));
      assert Apply(s, Send) == dropping && Apply(dropping, Send) == retrying;
      assert retrying.conns[id].chan == c.chan[1..];
    }
  }

  /** The selects of one queued broadcast, run on their own. */
  lemma QueueAlone(s: State)
    requires Inv(s) && s.publisher.Trying?
    ensures
      var t := s.(queue := Displaced(s.queue, s.publisher.job, QUEUE_CAP), publisher := Resting);
      && (|s.queue| < QUEUE_CAP ==> Apply(s, QueueTry) == t)
      && (|s.queue| == QUEUE_CAP ==>
            && Enabled(Apply(s, QueueTry), QueueDrop) && Enabled(Apply(Apply(s, QueueTry), QueueDrop), QueueRetry)
            && Apply(Apply(Apply(s, QueueTry), QueueDrop), QueueRetry) == t)
  {
  }

  class JobManager {
    var curJob: Job
    var notifyQueue: seq<Job>
    var subs: map<ConnId, seq<Job>>

    ghost predicate Valid()
      reads this
    {
      |notifyQueue| <= QUEUE_CAP && forall id :: id in subs ==> |subs[id]| <= CHANNEL_CAP
    }

    constructor ()
      ensures Valid() && curJob == 0 && notifyQueue == [] && subs == map[]
    {
      curJob, notifyQueue, subs := 0, [], map[];
    }

    method Subscribe(id: ConnId)
      requires Valid() && id !in subs
      modifies this`subs
      ensures Valid() && subs == old(subs)[id := []]
    {
      subs := subs[id := []];
    }

    method Unsubscribe(id: ConnId)
      requires Valid()
      modifies this`subs
      ensures Valid() && subs == old(subs) - {id}
    {
      subs := subs - {id};
    }

    method BroadcastJob(job: Job)
      requires Valid()
      modifies this`notifyQueue
      ensures Valid() && notifyQueue == Displaced(old(notifyQueue), job, QUEUE_CAP)
    {
      if |notifyQueue| < QUEUE_CAP {
        notifyQueue := notifyQueue + [job];
        return;
      }
      if notifyQueue != [] {
        notifyQueue := notifyQueue[1..];
      }
      if |notifyQueue| < QUEUE_CAP {
        notifyQueue := notifyQueue + [job];
      }
    }

    method SendJobNonBlocking(id: ConnId, job: Job) returns (dropped: bool)
      requires Valid() && id in subs
      modifies this`subs
      ensures Valid() && subs == old(subs)[id := Displaced(old(subs)[id], job, CHANNEL_CAP)]
      ensures dropped == (|old(subs)[id]| == CHANNEL_CAP)
    {
      if |subs[id]| < CHANNEL_CAP {
        subs := subs[id := subs[id] + [job]];
        return false;
      }
      if subs[id] != [] {
        subs := subs[id := subs[id][1..]];
        dropped := true;
      }
      if |subs[id]| < CHANNEL_CAP {
        subs := subs[id := subs[id] + [job]];
      } else {
        dropped := true;
      }
    }

    /** Every subscriber once, in any order. */
    method BroadcastJobSync(job: Job)
      requires Valid()
      modifies this`subs
      ensures Valid() && subs.Keys == old(subs.Keys)
      ensures forall id :: id in subs ==> subs[id] == Displaced(old(subs)[id], job, CHANNEL_CAP)
    {
      var todo := subs.Keys;
      while todo != {}
        invariant Valid() && subs.Keys == old(subs.Keys) && todo <= subs.Keys
        invariant forall id :: id in subs ==>
                                 subs[id] == if id in todo then old(subs)[id]
                                             else Displaced(old(subs)[id], job, CHANNEL_CAP)
        decreases todo
      {
        var id :| id in todo;
        var dropped := SendJobNonBlocking(id, job);
        todo := todo - {id};
      }
    }

    /** One round of the single dispatcher. */
    method NotificationRound()
      requires Valid() && notifyQueue != []
      modifies this`notifyQueue, this`subs
      ensures Valid() && notifyQueue == old(notifyQueue)[1..] && subs.Keys == old(subs.Keys)
      ensures forall id :: id in subs ==> subs[id] == Displaced(old(subs)[id], old(notifyQueue)[0], CHANNEL_CAP)
    {
      var job := notifyQueue[0];
      notifyQueue := notifyQueue[1..];
      BroadcastJobSync(job);
    }

    /** A new template: the job becomes current before anyone hears of it. */
    method Publish(job: Job, syncBroadcast: bool)
      requires Valid()
      modifies this
      ensures Valid() && curJob == job && subs.Keys == old(subs.Keys)
      ensures notifyQueue == if syncBroadcast then old(notifyQueue) else Displaced(old(notifyQueue), job, QUEUE_CAP)
      ensures forall id :: id in subs ==>
                             subs[id] == if syncBroadcast then Displaced(old(subs)[id], job, CHANNEL_CAP)
                                         else old(subs)[id]
    {
      curJob := job;
      if syncBroadcast {
        BroadcastJobSync(job);
      } else {
        BroadcastJob(job);
      }
    }
  }
}
