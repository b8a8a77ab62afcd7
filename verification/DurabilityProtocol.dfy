/**
 The life of solved blocks as a state machine: any number of submit calls, the replayer, start-up
 recovery and process crashes, interleaved statement by statement. Failures are part of each event,
 so a run is just a list of events and every list is a run.
 */
module DurabilityProtocol {
  import opened PendingStore
  import BlockDelivery

  type Pid = nat

  /** Where one call that is submitting a fresh block stands. */
  datatype Share =
    | Persisting(block: Block)                              // about to upsert the row as submitting
    | Spooling(block: Block)                                // the upsert failed
    | Delivering(block: Block, inRow: bool, inFile: bool)   // inside the submitblock retry loop
    | Refused(block: Block)                                 // row kept: put it back to pending
    | RefusedFallback(block: Block)
    | RefusedSpooling(block: Block)                         // no row: refresh the spool record
    | RefusedLogging(block: Block)                          // then try the row again
    | Taken(block: Block)                                   // row kept: mark it submitted
    | TakenFallback(block: Block)
    | TakenRecording(block: Block)                          // no row: write one as submitted
    | Unspooling(block: Block)                              // the row is safe: drop the spool record
    | Repairing(block: Block)                               // deferred repair: submitting to pending
    | Finished(block: Block)

  /**
   Everything the environment decides during one step: how the SQL statement, the spool write, the
   rename or remove and the file read go, whether the backoff holds a row back, what the node says.
   */
  datatype Luck = Luck(
    fault: Fault, write: SpoolWrite, removal: Removal, ioError: bool, readError: bool, skip: bool,
    attempts: seq<BlockDelivery.Attempt>)

  /** The blocks the node is known to have, after a call on `b` that did or did not get it confirmed. */
  function RecordEvidence(acked: set<Block>, b: Block, confirmed: bool): set<Block> {
    if confirmed then acked + {b} else acked
  }

  /** The replay makes one call and looks at nothing but its answer. */
  predicate TakenByReplay(attempts: seq<BlockDelivery.Attempt>) {
    attempts != [] && attempts[0].Answered? && BlockDelivery.Classify(attempts[0].answer) == BlockDelivery.Accepted
  }

  function AfterCas(s: Store, key: Key, from: Status, done: Share, otherwise: Share, fault: Fault): Share {
    if fault == NoFault && Changes(s.rows, key, from) then done else otherwise
  }

  /** One step of a submit call. */
  function ShareStep(n: Naming, s: Store, share: Share, luck: Luck): (Store, Share) {
    var b := share.block;
    var key, fault := n.keyOf(b), luck.fault;
    var put := (status: Status) => s.(rows := Land(s.rows, Upsert(s.rows, key, b, status), fault));
    var cas := (to: Status) => s.(rows := Land(s.rows, Transition(s.rows, key, Submitting, to), fault));
    match share
    case Persisting(_) =>
      (put(Submitting), if fault == NoFault then Delivering(b, true, false) else Spooling(b))
    case Spooling(_) =>
      (s.(files := WriteSpool(n, s.files, b, luck.write)), Delivering(b, false, luck.write == Installed))
    case Delivering(_, inRow, _) =>
      var taken := BlockDelivery.Delivered(luck.attempts);
      (s.(acked := RecordEvidence(s.acked, b, taken)),
       if taken then (if inRow then Taken(b) else TakenRecording(b))
       else (if inRow then Refused(b) else RefusedSpooling(b)))
    case Refused(_) =>
      (cas(Pending), AfterCas(s, key, Submitting, Finished(b), RefusedFallback(b), fault))
    case RefusedFallback(_) =>
      (put(Pending), if fault == NoFault then Finished(b) else Repairing(b))
    case RefusedSpooling(_) =>
      (s.(files := WriteSpool(n, s.files, b, luck.write)), RefusedLogging(b))
    case RefusedLogging(_) =>
      (put(Pending), if fault == NoFault then Unspooling(b) else Finished(b))
    case Taken(_) =>
      (cas(Submitted), AfterCas(s, key, Submitting, Finished(b), TakenFallback(b), fault))
    case TakenFallback(_) =>
      (put(Submitted), if fault == NoFault then Finished(b) else Repairing(b))
    case TakenRecording(_) =>
      (put(Submitted), if fault == NoFault then Unspooling(b) else Finished(b))
    case Unspooling(_) =>
      (s.(files := RemoveSpool(n, s.files, b, luck.removal)), Finished(b))
    case Repairing(_) =>
      (cas(Pending), Finished(b))
    case Finished(_) =>
      (s, share)
  }

  /** An unexpected exit: the deferred repair runs only when the row was persisted first. */
  function InterruptShare(share: Share): Share {
    match share
    case Delivering(b, inRow, _) => if inRow then Repairing(b) else Finished(b)
    case Refused(b) => Repairing(b)
    case RefusedFallback(b) => Repairing(b)
    case Taken(b) => Repairing(b)
    case TakenFallback(b) => Repairing(b)
    case other => Finished(other.block)
  }

  // ---------------------------------------------------------------- the replayer

  datatype Item = Item(key: Key, block: Block)

  datatype Replayer =
    | Waiting
    | Scanning(rest: seq<Item>)
    | Claimed(item: Item, rest: seq<Item>)
    | ReplayTaken(item: Item, rest: seq<Item>)
    | ReplayRefused(item: Item, rest: seq<Item>)
    | ReplayRepairing(item: Item, rest: seq<Item>)

  predicate Replayable(rows: Table, item: Item) {
    item.key in rows && rows[item.key].block == item.block && Matches(rows[item.key].status, Pending)
  }

  /** The result of the scan: all replayable rows, in whatever order the database returns them. */
  predicate IsScan(rows: Table, items: seq<Item>) {
    && (forall i :: i in items ==> Replayable(rows, i))
    && (forall k :: k in rows && Matches(rows[k].status, Pending) ==> Item(k, rows[k].block) in items)
  }

  function ReplayStep(s: Store, r: Replayer, luck: Luck): (Store, Replayer) {
    var cas := (key: Key, from: Status, to: Status) =>
      s.(rows := Land(s.rows, Transition(s.rows, key, from, to), luck.fault));
    match r
    case Waiting => (s, r)
    case Scanning(items) =>
      if items == [] then (s, Waiting)
      else if luck.skip then (s, Scanning(items[1..]))
      else
        var item := items[0];
        (cas(item.key, Pending, Submitting),
         if luck.fault == NoFault && Changes(s.rows, item.key, Pending) then Claimed(item, items[1..])
         else Scanning(items[1..]))
    case Claimed(item, rest) =>
      var taken := TakenByReplay(luck.attempts);
      (s.(acked := RecordEvidence(s.acked, item.block, taken)),
       if taken then ReplayTaken(item, rest) else ReplayRefused(item, rest))
    case ReplayTaken(item, rest) =>
      (cas(item.key, Submitting, Submitted),
       if luck.fault == NoFault && Changes(s.rows, item.key, Submitting) then Scanning(rest)
       else ReplayRepairing(item, rest))
    case ReplayRefused(item, rest) =>
      (cas(item.key, Submitting, Pending),
       if luck.fault == NoFault && Changes(s.rows, item.key, Submitting) then Scanning(rest)
       else ReplayRepairing(item, rest))
    case ReplayRepairing(item, rest) =>
      (cas(item.key, Submitting, Pending), Scanning(rest))
  }

  /** A turn that is not held back, and whose claim is written, claims its row and holds it. */
  lemma TurnClaimsRow(s: Store, items: seq<Item>, luck: Luck)
    requires items != [] && !luck.skip && luck.fault == NoFault
    requires items[0].key in s.rows && s.rows[items[0].key].status in {Pending, Unset}
    ensures
      var (s', r) := ReplayStep(s, Scanning(items), luck);
      && s' == s.(rows := s.rows[items[0].key := Row(s.rows[items[0].key].block, Submitting)])
      && r == Claimed(items[0], items[1..])
  {
  }

  /** A claimed row goes the way its one answer says: to submitted after null or "duplicate", else back to pending. */
  lemma ClaimIsSettled(s: Store, item: Item, rest: seq<Item>, call: Luck, written: Luck)
    requires item.key in s.rows && s.rows[item.key].status == Submitting && written.fault == NoFault
    ensures
      var (called, outcome) := ReplayStep(s, Claimed(item, rest), call);
      var (settled, next) := ReplayStep(called, outcome, written);
      var taken := call.attempts != [] && call.attempts[0].Answered? &&
                   call.attempts[0].answer in {BlockDelivery.NullAnswer, BlockDelivery.TextAnswer("duplicate")};
      && next == Scanning(rest) && settled.acked == (if taken then s.acked + {item.block} else s.acked)
      && settled.rows ==
         s.rows[item.key := Row(s.rows[item.key].block, if taken then Submitted else Pending)]
  {
  }

  /** An answered call with its row written goes on to the status the answer says, and is done. */
  lemma AnsweredCallIsSettled(n: Naming, s: Store, b: Block, inFile: bool, call: Luck, written: Luck)
    requires n.keyOf(b) in s.rows && s.rows[n.keyOf(b)] == Row(b, Submitting) && written.fault == NoFault
    ensures
      var (called, outcome) := ShareStep(n, s, Delivering(b, true, inFile), call);
      var (settled, next) := ShareStep(n, called, outcome, written);
      var taken := BlockDelivery.Delivered(call.attempts);
      && next == Finished(b) && settled.files == s.files
      && settled.acked == (if taken then s.acked + {b} else s.acked)
      && settled.rows == s.rows[n.keyOf(b) := Row(b, if taken then Submitted else Pending)]
  {
  }

  function InterruptReplay(r: Replayer): Replayer {
    match r
    case Claimed(item, rest) => ReplayRepairing(item, rest)
    case ReplayTaken(item, rest) => ReplayRepairing(item, rest)
    case ReplayRefused(item, rest) => ReplayRepairing(item, rest)
    case other => other
  }

  // ---------------------------------------------------------------- start-up

  /** How far the file at the head of the list has come; it is read once, when it is opened. */
  datatype Stage = Opening | Inserted(key: Key, block: Block) | Verified(block: Block)

  datatype Phase =
    | Booting
    | Recovering(todo: seq<FileName>, failed: bool, stage: Stage)
    | Reclaiming
    | Mining(shares: map<Pid, Share>, replayer: Replayer)

  predicate IsListing(files: Spool, order: seq<FileName>) {
    (forall f :: f in files ==> f in order) && forall f :: f in order ==> f in files
  }

  function RecoverStep(n: Naming, s: Store, p: Phase, luck: Luck): (Store, Phase)
    requires p.Recovering?
  {
    if p.todo == [] then (s, if p.failed then Booting else Reclaiming)
    else
      var name, rest := p.todo[0], p.todo[1..];
      var giveUp := Recovering(rest, true, Opening);
      match p.stage
      case Opening =>
        if luck.readError || name !in s.files then (s, giveUp)
        else
          var data := s.files[name];
          if !ValidSpoolFile(n, name, data) then
            // Quarantined: renamed out of the way, or left behind when the rename fails.
            (if luck.ioError then s else s.(files := s.files - {name}), Recovering(rest, p.failed, Opening))
          else
            (s.(rows := Land(s.rows, InsertIfAbsent(s.rows, RecordKey(data), data.block), luck.fault)),
             if luck.fault == NoFault then p.(stage := Inserted(RecordKey(data), data.block)) else giveUp)
      case Inserted(key, b) =>
        // The stored bytes are read back before the file may go.
        if luck.fault == NoFault && key in s.rows && s.rows[key].block == b then (s, p.(stage := Verified(b)))
        else (s, giveUp)
      case Verified(b) =>
        (if luck.ioError then s else s.(files := s.files - {name}), Recovering(rest, p.failed, Opening))
  }

  // ---------------------------------------------------------------- the whole system

  datatype World = World(store: Store, phase: Phase)

  datatype Event =
    | StartShare(pid: Pid, block: Block)
    | StepShare(pid: Pid, luck: Luck)
    | PanicShare(pid: Pid)
    | Scan(items: seq<Item>)
    | StepReplay(luck: Luck)
    | PanicReplay
    | ListSpool(order: seq<FileName>)
    | StepRecovery(luck: Luck)
    | ReclaimRows(fault: Fault)
    | Crash

  /** An event that cannot happen in this state changes nothing. */
  function Step(n: Naming, w: World, ev: Event): World {
    var s := w.store;
    match ev
    case Crash => w.(phase := Booting)
    case ListSpool(order) =>
      if w.phase.Booting? && IsListing(s.files, order)
      then w.(phase := Recovering(order, false, Opening)) else w
    case StepRecovery(luck) =>
      if w.phase.Recovering? then
        var (s', p) := RecoverStep(n, s, w.phase, luck);
        World(s', p)
      else w
    case ReclaimRows(fault) =>
      if w.phase.Reclaiming? then
        World(s.(rows := Land(s.rows, Reclaim(s.rows), fault)),
              if fault == NoFault then Mining(map[], Waiting) else Reclaiming)
      else w
    case StartShare(pid, b) =>
      if w.phase.Mining? && pid !in w.phase.shares
      then w.(phase := w.phase.(shares := w.phase.shares[pid := Persisting(b)])) else w
    case StepShare(pid, luck) =>
      if w.phase.Mining? && pid in w.phase.shares then
        var (s', share) := ShareStep(n, s, w.phase.shares[pid], luck);
        World(s', w.phase.(shares := w.phase.shares[pid := share]))
      else w
    case PanicShare(pid) =>
      if w.phase.Mining? && pid in w.phase.shares
      then w.(phase := w.phase.(shares := w.phase.shares[pid := InterruptShare(w.phase.shares[pid])])) else w
    case Scan(items) =>
      if w.phase.Mining? && w.phase.replayer.Waiting? && IsScan(s.rows, items)
      then w.(phase := w.phase.(replayer := Scanning(items))) else w
    case StepReplay(luck) =>
      if w.phase.Mining? then
        var (s', r) := ReplayStep(s, w.phase.replayer, luck);
        World(s', w.phase.(replayer := r))
      else w
    case PanicReplay =>
      if w.phase.Mining? then w.(phase := w.phase.(replayer := InterruptReplay(w.phase.replayer))) else w
  }

  function Run(n: Naming, w: World, evs: seq<Event>): World
    decreases |evs|
  {
    if evs == [] then w else Run(n, Step(n, w, evs[0]), evs[1..])
  }

  // ---------------------------------------------------------------- the invariant

  /** What a submit call's own position guarantees about its block. */
  ghost predicate ShareOk(n: Naming, s: Store, share: Share) {
    match share
    case Delivering(b, inRow, inFile) => (inRow ==> InTable(n, s, b)) && (inFile ==> Held(n, s, b))
    case Taken(b) => b in s.acked
    case TakenFallback(b) => b in s.acked
    case TakenRecording(b) => b in s.acked
    case Unspooling(b) => InTable(n, s, b)
    case _ => true
  }

  ghost predicate ItemOk(n: Naming, item: Item) {
    item.key == n.keyOf(item.block)
  }

  ghost predicate ReplayerOk(n: Naming, s: Store, r: Replayer) {
    && (!r.Waiting? ==> forall i :: i in r.rest ==> ItemOk(n, i))
    && (!r.Waiting? && !r.Scanning? ==> ItemOk(n, r.item))
    && (r.ReplayTaken? ==> r.item.block in s.acked)
  }

  /** A file the recovery pass has put behind it is either invalid or already in the table. */
  ghost predicate RecoveryOk(n: Naming, s: Store, p: Phase)
    requires p.Recovering?
  {
    && (!p.failed ==> SpoolImported(n, s, p.todo))
    && (p.stage.Inserted? || p.stage.Verified? ==>
          p.todo != [] && p.todo[0] in s.files && ValidSpoolFile(n, p.todo[0], s.files[p.todo[0]]) &&
          s.files[p.todo[0]].block == p.stage.block)
    && (p.stage.Inserted? ==> p.stage.key == n.keyOf(p.stage.block))
    && (p.stage.Verified? ==> InTable(n, s, p.stage.block))
  }

  ghost predicate SpoolImported(n: Naming, s: Store, except: seq<FileName>) {
    forall f :: f in s.files && f !in except && ValidSpoolFile(n, f, s.files[f]) ==> InTable(n, s, s.files[f].block)
  }

  ghost predicate Inv(n: Naming, w: World) {
    && Sound(n, w.store)
    && match w.phase
       case Booting => true
       case Recovering(_, _, _) => RecoveryOk(n, w.store, w.phase)
       case Reclaiming => SpoolImported(n, w.store, [])
       case Mining(shares, replayer) =>
         (forall p :: p in shares ==> ShareOk(n, w.store, shares[p])) && ReplayerOk(n, w.store, replayer)
  }

  // ---------------------------------------------------------------- one step

  /** What every store change keeps: held blocks stay held, rows stay rows, evidence stays. */
  ghost predicate Preserves(n: Naming, s: Store, s': Store) {
    && Sound(n, s')
    && (forall b: Block :: Held(n, s, b) ==> Held(n, s', b))
    && (forall b: Block :: InTable(n, s, b) ==> InTable(n, s', b))
    && s.acked <= s'.acked
  }

  /** A lost statement changes nothing, so only a landed one needs an argument. */
  lemma UpsertPreserves(n: Naming, s: Store, b: Block, status: Status, fault: Fault)
    requires Distinct(n) && Sound(n, s)
    requires status == Submitted ==> b in s.acked
    ensures Preserves(n, s, s.(rows := Land(s.rows, Upsert(s.rows, n.keyOf(b), b, status), fault)))
    ensures fault != Lost ==> InTable(n, s.(rows := Land(s.rows, Upsert(s.rows, n.keyOf(b), b, status), fault)), b)
  {
    var s' := s.(rows := Land(s.rows, Upsert(s.rows, n.keyOf(b), b, status), fault));
    forall c: Block | InTable(n, s, c)
      ensures InTable(n, s', c)
    {
    }
    assert forall c: Block :: InSpool(n, s', c) == InSpool(n, s, c);
  }

  lemma TransitionPreserves(n: Naming, s: Store, key: Key, from: Status, to: Status, fault: Fault)
    requires Sound(n, s)
    requires to == Submitted && key in s.rows ==> s.rows[key].block in s.acked
    ensures Preserves(n, s, s.(rows := Land(s.rows, Transition(s.rows, key, from, to), fault)))
  {
    var s' := s.(rows := Land(s.rows, Transition(s.rows, key, from, to), fault));
    assert forall c: Block :: InTable(n, s, c) ==> InTable(n, s', c);
    assert forall c: Block :: InSpool(n, s', c) == InSpool(n, s, c);
  }

  lemma InsertPreserves(n: Naming, s: Store, b: Block, fault: Fault)
    requires Sound(n, s)
    ensures Preserves(n, s, s.(rows := Land(s.rows, InsertIfAbsent(s.rows, n.keyOf(b), b), fault)))
  {
    var s' := s.(rows := Land(s.rows, InsertIfAbsent(s.rows, n.keyOf(b), b), fault));
    assert forall c: Block :: InTable(n, s, c) ==> InTable(n, s', c);
    assert forall c: Block :: InSpool(n, s', c) == InSpool(n, s, c);
  }

  lemma ReclaimPreserves(n: Naming, s: Store, fault: Fault)
    requires Sound(n, s)
    ensures Preserves(n, s, s.(rows := Land(s.rows, Reclaim(s.rows), fault)))
  {
    var s' := s.(rows := Land(s.rows, Reclaim(s.rows), fault));
    assert forall c: Block :: InTable(n, s, c) ==> InTable(n, s', c);
    assert forall c: Block :: InSpool(n, s', c) == InSpool(n, s, c);
  }

  lemma WritePreserves(n: Naming, s: Store, b: Block, w: SpoolWrite)
    requires Distinct(n) && Sound(n, s)
    ensures Preserves(n, s, s.(files := WriteSpool(n, s.files, b, w)))
    ensures w == Installed ==> Held(n, s.(files := WriteSpool(n, s.files, b, w)), b)
  {
    var s' := s.(files := WriteSpool(n, s.files, b, w));
    assert forall c: Block :: InTable(n, s', c) == InTable(n, s, c);
    forall c: Block | InSpool(n, s, c)
      ensures InSpool(n, s', c)
    {
      if n.digestOf(c) == n.digestOf(b) {
        assert c == b;
      }
    }
  }

  lemma RemovePreserves(n: Naming, s: Store, name: FileName, b: Block)
    requires Distinct(n) && Sound(n, s) && InTable(n, s, b)
    requires name.Final? ==> name.digest == n.digestOf(b)
    ensures Preserves(n, s, s.(files := s.files - {name}))
  {
    var s' := s.(files := s.files - {name});
    assert forall c: Block :: InTable(n, s', c) == InTable(n, s, c);
    forall c: Block | InSpool(n, s, c)
      ensures Held(n, s', c)
    {
      if Final(n.digestOf(c)) == name {
        assert c == b;
      }
    }
  }

  lemma QuarantinePreserves(n: Naming, s: Store, name: FileName)
    requires Sound(n, s) && name in s.files && !ValidSpoolFile(n, name, s.files[name])
    ensures Preserves(n, s, s.(files := s.files - {name}))
  {
    var s' := s.(files := s.files - {name});
    assert forall c: Block :: InTable(n, s', c) == InTable(n, s, c);
    assert forall c: Block :: InSpool(n, s, c) ==> InSpool(n, s', c);
  }

  lemma EvidencePreserves(n: Naming, s: Store, b: Block, confirmed: bool)
    requires Sound(n, s)
    ensures Preserves(n, s, s.(acked := RecordEvidence(s.acked, b, confirmed)))
  {
    var s' := s.(acked := RecordEvidence(s.acked, b, confirmed));
    assert forall c: Block :: InTable(n, s', c) == InTable(n, s, c) && InSpool(n, s', c) == InSpool(n, s, c);
  }

  lemma ShareStepPreserves(n: Naming, s: Store, share: Share, luck: Luck)
    requires Distinct(n) && Sound(n, s) && ShareOk(n, s, share)
    ensures Preserves(n, s, ShareStep(n, s, share, luck).0)
    ensures ShareOk(n, ShareStep(n, s, share, luck).0, ShareStep(n, s, share, luck).1)
  {
    var b, key, fault := share.block, n.keyOf(share.block), luck.fault;
    match share
    case Persisting(_) => UpsertPreserves(n, s, b, Submitting, fault);
    case Spooling(_) => WritePreserves(n, s, b, luck.write);
    case Delivering(_, _, _) =>
      EvidencePreserves(n, s, b, BlockDelivery.Delivered(luck.attempts));
    case Refused(_) => TransitionPreserves(n, s, key, Submitting, Pending, fault);
    case RefusedFallback(_) => UpsertPreserves(n, s, b, Pending, fault);
    case RefusedSpooling(_) => WritePreserves(n, s, b, luck.write);
    case RefusedLogging(_) => UpsertPreserves(n, s, b, Pending, fault);
    case Taken(_) =>
      if key in s.rows { assert key == n.keyOf(s.rows[key].block); }
      TransitionPreserves(n, s, key, Submitting, Submitted, fault);
    case TakenFallback(_) => UpsertPreserves(n, s, b, Submitted, fault);
    case TakenRecording(_) => UpsertPreserves(n, s, b, Submitted, fault);
    case Unspooling(_) => RemovePreserves(n, s, Final(n.digestOf(b)), b);
    case Repairing(_) => TransitionPreserves(n, s, key, Submitting, Pending, fault);
    case Finished(_) =>
  }

  lemma ReplayStepPreserves(n: Naming, s: Store, r: Replayer, luck: Luck)
    requires Distinct(n) && Sound(n, s) && ReplayerOk(n, s, r)
    ensures Preserves(n, s, ReplayStep(s, r, luck).0)
    ensures ReplayerOk(n, ReplayStep(s, r, luck).0, ReplayStep(s, r, luck).1)
  {
    match r
    case Waiting =>
    case Scanning(items) =>
      if items != [] { TransitionPreserves(n, s, items[0].key, Pending, Submitting, luck.fault); }
    case Claimed(item, _) =>
      EvidencePreserves(n, s, item.block, TakenByReplay(luck.attempts));
    case ReplayTaken(item, _) =>
      if item.key in s.rows { assert item.key == n.keyOf(s.rows[item.key].block); }
      TransitionPreserves(n, s, item.key, Submitting, Submitted, luck.fault);
    case ReplayRefused(item, _) => TransitionPreserves(n, s, item.key, Submitting, Pending, luck.fault);
    case ReplayRepairing(item, _) => TransitionPreserves(n, s, item.key, Submitting, Pending, luck.fault);
  }

  lemma RecoverStepPreserves(n: Naming, s: Store, p: Phase, luck: Luck)
    requires Distinct(n) && Sound(n, s) && p.Recovering? && RecoveryOk(n, s, p)
    ensures Preserves(n, s, RecoverStep(n, s, p, luck).0)
    ensures Inv(n, World(RecoverStep(n, s, p, luck).0, RecoverStep(n, s, p, luck).1))
  {
    if p.todo != [] {
      var name := p.todo[0];
      assert p.todo == [name] + p.todo[1..];
      match p.stage
      case Opening =>
        if !luck.readError && name in s.files {
          if ValidSpoolFile(n, name, s.files[name]) {
            InsertPreserves(n, s, s.files[name].block, luck.fault);
          } else if !luck.ioError {
            QuarantinePreserves(n, s, name);
          }
        }
      case Inserted(_, _) =>
      case Verified(b) =>
        if !luck.ioError { RemovePreserves(n, s, name, b); }
    }
  }

  lemma StepPreserves(n: Naming, w: World, ev: Event)
    requires Distinct(n) && Inv(n, w)
    ensures Inv(n, Step(n, w, ev)) && Preserves(n, w.store, Step(n, w, ev).store)
  {
    match ev
    case StepRecovery(luck) =>
      if w.phase.Recovering? { RecoverStepPreserves(n, w.store, w.phase, luck); }
    case ReclaimRows(fault) =>
      if w.phase.Reclaiming? {
        ReclaimPreserves(n, w.store, fault);
        assert SpoolImported(n, Step(n, w, ev).store, []);
      }
    case StepShare(pid, luck) =>
      if w.phase.Mining? && pid in w.phase.shares {
        ShareStepPreserves(n, w.store, w.phase.shares[pid], luck);
        KeepsOthers(n, w.store, ShareStep(n, w.store, w.phase.shares[pid], luck).0, w.phase);
      }
    case StepReplay(luck) =>
      if w.phase.Mining? {
        ReplayStepPreserves(n, w.store, w.phase.replayer, luck);
        KeepsOthers(n, w.store, ReplayStep(w.store, w.phase.replayer, luck).0, w.phase);
      }
    case _ =>
  }

  /** A store change made by one party leaves what every other party relies on intact. */
  lemma KeepsOthers(n: Naming, s: Store, s': Store, phase: Phase)
    requires phase.Mining? && Preserves(n, s, s')
    ensures forall p :: p in phase.shares && ShareOk(n, s, phase.shares[p]) ==> ShareOk(n, s', phase.shares[p])
    ensures ReplayerOk(n, s, phase.replayer) ==> ReplayerOk(n, s', phase.replayer)
  {
  }

  // ---------------------------------------------------------------- every run

  /** A process starting on a disk whose rows and records are well filed. */
  ghost predicate Initial(n: Naming, w: World) {
    w.phase.Booting? && Sound(n, w.store)
  }

  lemma {:induction false} RunInvariant(n: Naming, w: World, evs: seq<Event>)
    requires Distinct(n) && Inv(n, w)
    ensures Inv(n, Run(n, w, evs)) && Preserves(n, w.store, Run(n, w, evs).store)
    decreases |evs|
  {
    if evs != [] {
      StepPreserves(n, w, evs[0]);
      RunInvariant(n, Step(n, w, evs[0]), evs[1..]);
    }
  }

  lemma {:induction false} RunConcat(n: Naming, w: World, before: seq<Event>, after: seq<Event>)
    ensures Run(n, w, before + after) == Run(n, Run(n, w, before), after)
    decreases |before|
  {
    if before == [] {
      assert before + after == after;
    } else {
      assert (before + after)[1..] == before[1..] + after;
      RunConcat(n, Step(n, w, before[0]), before[1..], after);
    }
  }

  /** Once a row or a valid spool record holds a block's bytes, one of them always does. */
  lemma SolvedBlockIsNeverLost(n: Naming, w: World, before: seq<Event>, after: seq<Event>, b: Block)
    requires Distinct(n) && Initial(n, w)
    requires Held(n, Run(n, w, before).store, b)
    ensures Held(n, Run(n, w, before + after).store, b)
  {
    RunInvariant(n, w, before);
    RunInvariant(n, Run(n, w, before), after);
    RunConcat(n, w, before, after);
  }

  /** The retry loop runs on an unheld block only when both places reported a failure. */
  lemma DeliveryFollowsPersistence(n: Naming, w: World, evs: seq<Event>, pid: Pid)
    requires Distinct(n) && Initial(n, w)
    ensures
      var now := Run(n, w, evs);
      now.phase.Mining? && pid in now.phase.shares && now.phase.shares[pid].Delivering? &&
      (now.phase.shares[pid].inRow || now.phase.shares[pid].inFile) ==>
        Held(n, now.store, now.phase.shares[pid].block)
  {
    RunInvariant(n, w, evs);
  }

  // ---------------------------------------------------------------- status truth

  /** In `w`, event `ev` is a call on block `b` to which the node replies that it takes or has it. */
  ghost predicate NodeConfirms(w: World, ev: Event, b: Block) {
    w.phase.Mining? &&
    match ev
    case StepShare(pid, luck) =>
      pid in w.phase.shares && w.phase.shares[pid].Delivering? && w.phase.shares[pid].block == b &&
      exists i: nat :: BlockDelivery.IsMade(luck.attempts, i) && BlockDelivery.NodeHasBlock(luck.attempts[i])
    case StepReplay(luck) =>
      w.phase.replayer.Claimed? && w.phase.replayer.item.block == b && luck.attempts != [] &&
      luck.attempts[0].Answered? &&
      luck.attempts[0].answer in {BlockDelivery.NullAnswer, BlockDelivery.TextAnswer("duplicate")}
    case _ => false
  }

  /** A step adds a block to the evidence exactly when it is a call the node confirms. */
  lemma EvidenceGrowsIffConfirmed(n: Naming, w: World, ev: Event, b: Block)
    requires b !in w.store.acked
    ensures b in Step(n, w, ev).store.acked <==> NodeConfirms(w, ev, b)
  {
    if ev.StepShare? {
      BlockDelivery.DeliveredIffNodeHasBlock(ev.luck.attempts);
    }
  }

  lemma {:induction false} AckedHasWitness(n: Naming, w: World, evs: seq<Event>, b: Block)
    requires b in Run(n, w, evs).store.acked && b !in w.store.acked
    ensures exists i :: 0 <= i < |evs| && NodeConfirms(Run(n, w, evs[..i]), evs[i], b)
    decreases |evs|
  {
    var w' := Step(n, w, evs[0]);
    EvidenceGrowsIffConfirmed(n, w, evs[0], b);
    if b in w'.store.acked {
      assert NodeConfirms(Run(n, w, evs[..0]), evs[0], b);
    } else {
      AckedHasWitness(n, w', evs[1..], b);
      var i :| 0 <= i < |evs| - 1 && NodeConfirms(Run(n, w', evs[1..][..i]), evs[1..][i], b);
      assert evs[..i + 1][1..] == evs[1..][..i];
      assert NodeConfirms(Run(n, w, evs[..i + 1]), evs[i + 1], b);
    }
  }

  /** A row that became `submitted` was confirmed by the node at some earlier point of the run. */
  lemma SubmittedMeansConfirmed(n: Naming, w: World, evs: seq<Event>, key: Key)
    requires Distinct(n) && Initial(n, w)
    requires key in Run(n, w, evs).store.rows && Run(n, w, evs).store.rows[key].status == Submitted
    requires Run(n, w, evs).store.rows[key].block !in w.store.acked
    ensures exists i :: 0 <= i < |evs| &&
              NodeConfirms(Run(n, w, evs[..i]), evs[i], Run(n, w, evs).store.rows[key].block)
  {
    RunInvariant(n, w, evs);
    AckedHasWitness(n, w, evs, Run(n, w, evs).store.rows[key].block);
  }

  // ---------------------------------------------------------------- restart

  /**
   The moment mining starts: nothing is left `submitting`, every valid spool record has been
   imported, and so every block held on disk is either waiting for replay or known to the node.
   */
  lemma MiningStartsClean(n: Naming, w: World, evs: seq<Event>, ev: Event)
    requires Distinct(n) && Initial(n, w)
    requires !Run(n, w, evs).phase.Mining? && Step(n, Run(n, w, evs), ev).phase.Mining?
    ensures
      var s := Step(n, Run(n, w, evs), ev).store;
      && (forall k :: k in s.rows ==> s.rows[k].status != Submitting)
      && (forall f :: f in s.files && ValidSpoolFile(n, f, s.files[f]) ==> InTable(n, s, s.files[f].block))
      && (forall b: Block :: Held(n, s, b) ==>
            InTable(n, s, b) && (Matches(s.rows[n.keyOf(b)].status, Pending) || b in s.acked))
  {
    RunInvariant(n, w, evs);
    StepPreserves(n, Run(n, w, evs), ev);
    var before, s := Run(n, w, evs).store, Step(n, Run(n, w, evs), ev).store;
    assert SpoolImported(n, before, []) && s.files == before.files;
    assert SpoolImported(n, s, []);
  }

  predicate IsRecoveryEvent(ev: Event) {
    ev.ListSpool? || ev.StepRecovery? || ev.Crash?
  }

  lemma RecoveryEventKeepsRows(n: Naming, w: World, ev: Event)
    requires IsRecoveryEvent(ev)
    ensures forall k :: k in w.store.rows ==>
              k in Step(n, w, ev).store.rows && Step(n, w, ev).store.rows[k] == w.store.rows[k]
  {
  }

  /** Spool recovery, however often it is interrupted and rerun, leaves existing rows as they are. */
  lemma {:induction false} RecoveryKeepsRows(n: Naming, w: World, evs: seq<Event>)
    requires forall ev :: ev in evs ==> IsRecoveryEvent(ev)
    ensures forall k :: k in w.store.rows ==>
              k in Run(n, w, evs).store.rows && Run(n, w, evs).store.rows[k] == w.store.rows[k]
    decreases |evs|
  {
    if evs != [] {
      RecoveryEventKeepsRows(n, w, evs[0]);
      RecoveryKeepsRows(n, Step(n, w, evs[0]), evs[1..]);
    }
  }

  // ---------------------------------------------------------------- one submitter at a time

  /** Every submit call brings a block that no row and no other call knows. */
  ghost predicate FreshStart(n: Naming, w: World, ev: Event) {
    ev.StartShare? && w.phase.Mining? ==>
      !InTable(n, w.store, ev.block) && forall p :: p in w.phase.shares ==> w.phase.shares[p].block != ev.block
  }

  ghost predicate FreshRun(n: Naming, w: World, evs: seq<Event>)
    decreases |evs|
  {
    evs == [] || (FreshStart(n, w, evs[0]) && FreshRun(n, Step(n, w, evs[0]), evs[1..]))
  }

  predicate BeforeOutcome(share: Share) {
    share.Persisting? || share.Spooling? || share.Delivering?
  }

  ghost predicate Apart(n: Naming, w: World) {
    w.phase.Mining? ==>
      var shares, r := w.phase.shares, w.phase.replayer;
      && (forall p, q :: p in shares && q in shares && p != q ==> shares[p].block != shares[q].block)
      && (!r.Waiting? ==> forall i :: i in r.rest ==> InTable(n, w.store, i.block))
      && (!r.Waiting? && !r.Scanning? ==> InTable(n, w.store, r.item.block))
      && (forall p :: p in shares && BeforeOutcome(shares[p]) ==> Reserved(n, w.store, r, shares[p].block))
  }

  /** Before its outcome is known, a call's row can only be `submitting`, and no replay works on it. */
  ghost predicate Reserved(n: Naming, s: Store, r: Replayer, b: Block) {
    && (InTable(n, s, b) ==> s.rows[n.keyOf(b)].status == Submitting)
    && (!r.Waiting? && !r.Scanning? ==> r.item.block != b)
  }

  /** A submit call only ever touches its own row, and while undecided only to make it submitting. */
  lemma ShareStepFootprint(n: Naming, s: Store, share: Share, luck: Luck)
    ensures ShareStep(n, s, share, luck).1.block == share.block
    ensures
      var (s', share') := ShareStep(n, s, share, luck);
      && (forall k :: k in s'.rows && k != n.keyOf(share.block) ==> k in s.rows && s'.rows[k] == s.rows[k])
      && (BeforeOutcome(share') ==>
            BeforeOutcome(share) &&
            (InTable(n, s', share.block) && s'.rows[n.keyOf(share.block)].status != Submitting ==>
               InTable(n, s, share.block) && s.rows[n.keyOf(share.block)].status != Submitting))
  {
    OtherRowsStay(n, s, share, luck);
  }

  lemma OtherRowsStay(n: Naming, s: Store, share: Share, luck: Luck)
    ensures
      var rows := ShareStep(n, s, share, luck).0.rows;
      forall k :: k in rows && k != n.keyOf(share.block) ==> k in s.rows && rows[k] == s.rows[k]
  {
  }

  /** The replayer touches a row it is working on, or one that is waiting for replay. */
  lemma ReplayStepFootprint(s: Store, r: Replayer, luck: Luck, k: Key)
    requires !Changes(s.rows, k, Pending)
    requires r.Waiting? || r.Scanning? || r.item.key != k
    ensures
      var (s', r') := ReplayStep(s, r, luck);
      && (k in s'.rows ==> k in s.rows && s'.rows[k] == s.rows[k])
      && (r'.Waiting? || r'.Scanning? || r'.item.key != k)
  {
  }

  lemma ReplayItemsShrink(s: Store, r: Replayer, luck: Luck, b: Block)
    requires
      var r' := ReplayStep(s, r, luck).1;
      (!r'.Waiting? && !r'.Scanning? && r'.item.block == b) ||
      (!r'.Waiting? && exists i :: i in r'.rest && i.block == b)
    ensures
      (!r.Waiting? && !r.Scanning? && r.item.block == b) || (!r.Waiting? && exists i :: i in r.rest && i.block == b)
  {
    if r.Scanning? && r.rest != [] {
      assert forall i :: i in r.rest[1..] ==> i in r.rest;
      assert r.rest[0] in r.rest;
    }
  }

  lemma ApartShareStep(n: Naming, w: World, pid: Pid, luck: Luck)
    requires Distinct(n) && Inv(n, w) && Apart(n, w) && w.phase.Mining? && pid in w.phase.shares
    ensures Apart(n, Step(n, w, StepShare(pid, luck)))
  {
    ShareStepPreserves(n, w.store, w.phase.shares[pid], luck);
    ShareStepFootprint(n, w.store, w.phase.shares[pid], luck);
    var w' := Step(n, w, StepShare(pid, luck));
    forall p | p in w'.phase.shares && BeforeOutcome(w'.phase.shares[p])
      ensures Reserved(n, w'.store, w'.phase.replayer, w'.phase.shares[p].block)
    {
      if p != pid {
        assert n.keyOf(w.phase.shares[p].block) != n.keyOf(w.phase.shares[pid].block);
      }
    }
  }

  lemma ApartReplayStep(n: Naming, w: World, luck: Luck)
    requires Distinct(n) && Inv(n, w) && Apart(n, w) && w.phase.Mining?
    ensures Apart(n, Step(n, w, StepReplay(luck)))
  {
    var s, r := w.store, w.phase.replayer;
    var (s', r') := ReplayStep(s, r, luck);
    ReplayStepPreserves(n, s, r, luck);
    forall b: Block | (!r'.Waiting? && !r'.Scanning? && r'.item.block == b) ||
                      (!r'.Waiting? && exists i :: i in r'.rest && i.block == b)
      ensures InTable(n, s', b)
    {
      ReplayItemsShrink(s, r, luck, b);
    }
    forall p | p in w.phase.shares && BeforeOutcome(w.phase.shares[p])
      ensures Reserved(n, s', r', w.phase.shares[p].block)
    {
      var key := n.keyOf(w.phase.shares[p].block);
      assert Reserved(n, s, r, w.phase.shares[p].block);
      if key in s.rows { assert key == n.keyOf(s.rows[key].block); }
      ReplayStepFootprint(s, r, luck, key);
    }
  }

  lemma ApartStep(n: Naming, w: World, ev: Event)
    requires Distinct(n) && Inv(n, w) && Apart(n, w) && FreshStart(n, w, ev)
    ensures Apart(n, Step(n, w, ev))
  {
    match ev
    case StepShare(pid, luck) =>
      if w.phase.Mining? && pid in w.phase.shares { ApartShareStep(n, w, pid, luck); }
    case StepReplay(luck) =>
      if w.phase.Mining? { ApartReplayStep(n, w, luck); }
    case StepRecovery(luck) =>
      if w.phase.Recovering? { assert !Step(n, w, ev).phase.Mining?; }
    case Scan(items) =>
      if w.phase.Mining? { assert Apart(n, Step(n, w, ev)) by { ApartScan(n, w, items); } }
    case StartShare(_, _) =>
    case PanicShare(_) =>
    case PanicReplay =>
    case ListSpool(_) =>
    case ReclaimRows(_) =>
    case Crash =>
  }

  lemma ApartScan(n: Naming, w: World, items: seq<Item>)
    requires Inv(n, w) && Apart(n, w) && w.phase.Mining?
    ensures Apart(n, Step(n, w, Scan(items))) && Inv(n, Step(n, w, Scan(items)))
  {
  }

  lemma {:induction false} ApartRun(n: Naming, w: World, evs: seq<Event>)
    requires Distinct(n) && Inv(n, w) && Apart(n, w) && FreshRun(n, w, evs)
    ensures Apart(n, Run(n, w, evs))
    decreases |evs|
  {
    if evs != [] {
      StepPreserves(n, w, evs[0]);
      ApartStep(n, w, evs[0]);
      ApartRun(n, Step(n, w, evs[0]), evs[1..]);
    }
  }

  /** While one party is delivering a fresh block, no other call and no replay delivers it too. */
  lemma OneDelivererAtATime(n: Naming, w: World, evs: seq<Event>, p: Pid)
    requires Distinct(n) && Initial(n, w) && FreshRun(n, w, evs)
    ensures
      var now := Run(n, w, evs);
      now.phase.Mining? && p in now.phase.shares && now.phase.shares[p].Delivering? ==>
        var b := now.phase.shares[p].block;
        && (forall q :: q in now.phase.shares && q != p ==> now.phase.shares[q].block != b)
        && !(now.phase.replayer.Claimed? && now.phase.replayer.item.block == b)
  {
    ApartRun(n, w, evs);
  }

  // ---------------------------------------------------------------- why distinct keys matter

  /** With colliding row keys the upsert of one winner silently replaces another's bytes. */
  lemma CollidingKeysLoseABlock(n: Naming, a: Block, b: Block)
    requires a != b && n.keyOf(a) == n.keyOf(b)
    ensures
      var s := Store(map[n.keyOf(a) := Row(a, Pending)], map[], {});
      var luck := Luck(NoFault, NothingLeft, Removed, false, false, false, []);
      var w := World(s, Mining(map[0 := Persisting(b)], Waiting));
      Held(n, w.store, a) && !Held(n, Step(n, w, StepShare(0, luck)).store, a)
  {
  }

  // ---------------------------------------------------------------- when a submitted row is final

  predicate IsSubmitted(w: World, key: Key) {
    key in w.store.rows && w.store.rows[key].status == Submitted
  }

  /** A submit call on the row's key whose full write is next, and lands. */
  ghost predicate Reopens(n: Naming, w: World, ev: Event, key: Key) {
    && w.phase.Mining? && ev.StepShare? && ev.pid in w.phase.shares && ev.luck.fault != Lost
    && var share := w.phase.shares[ev.pid];
       n.keyOf(share.block) == key && (share.Persisting? || share.RefusedFallback? || share.RefusedLogging?)
  }

  /** A submitted row leaves that status in one step exactly when a submit call writes it anew. */
  lemma SubmittedLeavesIff(n: Naming, w: World, ev: Event, key: Key)
    requires IsSubmitted(w, key)
    ensures !IsSubmitted(Step(n, w, ev), key) <==> Reopens(n, w, ev, key)
  {
    if ev.StepShare? {
      if w.phase.Mining? && ev.pid in w.phase.shares {
        CallLeavesSubmittedIff(n, w.store, w.phase.shares[ev.pid], ev.luck, key);
      }
    } else {
      OtherStepsLeaveSubmitted(n, w, ev, key);
    }
  }

  lemma CallLeavesSubmittedIff(n: Naming, s: Store, share: Share, luck: Luck, key: Key)
    requires key in s.rows && s.rows[key].status == Submitted
    ensures
      var rows := ShareStep(n, s, share, luck).0.rows;
      && key in rows
      && (rows[key].status != Submitted <==>
            n.keyOf(share.block) == key && luck.fault != Lost &&
            (share.Persisting? || share.RefusedFallback? || share.RefusedLogging?))
  {
  }

  lemma OtherStepsLeaveSubmitted(n: Naming, w: World, ev: Event, key: Key)
    requires IsSubmitted(w, key) && !ev.StepShare?
    ensures IsSubmitted(Step(n, w, ev), key)
  {
  }

  /** A call the node has not yet confirmed may still write its row anew. */
  predicate MayReopen(share: Share) {
    || share.Persisting? || share.Spooling? || share.Delivering?
    || share.Refused? || share.RefusedFallback? || share.RefusedSpooling? || share.RefusedLogging?
  }

  ghost predicate Contested(n: Naming, w: World, key: Key) {
    w.phase.Mining? &&
    exists p :: p in w.phase.shares && n.keyOf(w.phase.shares[p].block) == key && MayReopen(w.phase.shares[p])
  }

  ghost predicate NoNewCall(n: Naming, evs: seq<Event>, key: Key) {
    forall ev :: ev in evs && ev.StartShare? ==> n.keyOf(ev.block) != key
  }

  /** Unless a call on its key starts afresh, an uncontested row stays submitted to the end. */
  lemma {:induction false} SubmittedStays(n: Naming, w: World, evs: seq<Event>, key: Key)
    requires IsSubmitted(w, key) && !Contested(n, w, key) && NoNewCall(n, evs, key)
    ensures IsSubmitted(Run(n, w, evs), key)
    decreases |evs|
  {
    if evs != [] {
      SubmittedLeavesIff(n, w, evs[0], key);
      StaysUncontested(n, w, evs[0], key);
      SubmittedStays(n, Step(n, w, evs[0]), evs[1..], key);
    }
  }

  lemma StaysUncontested(n: Naming, w: World, ev: Event, key: Key)
    requires IsSubmitted(w, key) && !Contested(n, w, key)
    requires ev.StartShare? ==> n.keyOf(ev.block) != key
    ensures !Contested(n, Step(n, w, ev), key)
  {
    if ev.StepShare? && w.phase.Mining? && ev.pid in w.phase.shares {
      SettledCallStaysSettled(n, w.store, w.phase.shares[ev.pid], ev.luck);
    } else {
      OtherStepsSettleNothing(n, w, ev, key);
    }
  }

  lemma SettledCallStaysSettled(n: Naming, s: Store, share: Share, luck: Luck)
    ensures MayReopen(ShareStep(n, s, share, luck).1) ==> MayReopen(share)
    ensures ShareStep(n, s, share, luck).1.block == share.block
  {
  }

  lemma OtherStepsSettleNothing(n: Naming, w: World, ev: Event, key: Key)
    requires !Contested(n, w, key) && (ev.StartShare? ==> n.keyOf(ev.block) != key)
    requires !(ev.StepShare? && w.phase.Mining? && ev.pid in w.phase.shares)
    ensures !Contested(n, Step(n, w, ev), key)
  {
    if ev.PanicShare? && w.phase.Mining? && ev.pid in w.phase.shares {
      var share := w.phase.shares[ev.pid];
      assert MayReopen(InterruptShare(share)) ==> MayReopen(share);
    }
  }

  /** Every statement succeeds, and the node never answers. */
  const SILENT := Luck(NoFault, NothingLeft, Removed, false, false, false, [])

  /** How many steps such a call is away from having written its row anew, if the node stays silent. */
  function StepsToReopen(share: Share): nat {
    match share
    case Spooling(_) => 4
    case Delivering(_, _, _) => 3
    case Refused(_) => 2
    case RefusedSpooling(_) => 2
    case _ => 1
  }

  function SilentSteps(pid: Pid, count: nat): seq<Event> {
    if count == 0 then [] else [StepShare(pid, SILENT)] + SilentSteps(pid, count - 1)
  }

  lemma RunCons(n: Naming, w: World, ev: Event, evs: seq<Event>)
    ensures Run(n, w, [ev] + evs) == Run(n, Step(n, w, ev), evs)
  {
    assert ([ev] + evs)[1..] == evs;
  }

  /** A call on its key that the node has not confirmed takes the row back, if the node stays silent. */
  lemma {:induction false} ContestedIsReopened(n: Naming, w: World, pid: Pid)
    requires w.phase.Mining? && pid in w.phase.shares && MayReopen(w.phase.shares[pid])
    requires IsSubmitted(w, n.keyOf(w.phase.shares[pid].block))
    ensures
      var share := w.phase.shares[pid];
      !IsSubmitted(Run(n, w, SilentSteps(pid, StepsToReopen(share))), n.keyOf(share.block))
    decreases StepsToReopen(w.phase.shares[pid])
  {
    var count := StepsToReopen(w.phase.shares[pid]);
    var w' := Step(n, w, StepShare(pid, SILENT));
    RunCons(n, w, StepShare(pid, SILENT), SilentSteps(pid, count - 1));
    if count > 1 {
      ContestedIsReopened(n, w', pid);
    }
  }

  lemma {:induction false} SilentStepsStartNothing(n: Naming, pid: Pid, count: nat, key: Key)
    ensures NoNewCall(n, SilentSteps(pid, count), key)
  {
    if count > 0 {
      SilentStepsStartNothing(n, pid, count - 1, key);
    }
  }

  /** A submitted row is final, as long as no call on its key starts, exactly when it is uncontested. */
  lemma SubmittedIsFinalIff(n: Naming, w: World, key: Key)
    requires IsSubmitted(w, key)
    ensures (forall evs :: NoNewCall(n, evs, key) ==> IsSubmitted(Run(n, w, evs), key)) <==> !Contested(n, w, key)
  {
    if Contested(n, w, key) {
      var p :| p in w.phase.shares && n.keyOf(w.phase.shares[p].block) == key && MayReopen(w.phase.shares[p]);
      ContestedIsReopened(n, w, p);
      SilentStepsStartNothing(n, p, StepsToReopen(w.phase.shares[p]), key);
    } else {
      forall evs | NoNewCall(n, evs, key)
        ensures IsSubmitted(Run(n, w, evs), key)
      {
        SubmittedStays(n, w, evs, key);
      }
    }
  }

  /** And a call on its key may always start: solving the block again reopens its row. */
  lemma SubmittedIsReopened(n: Naming, w: World, pid: Pid, b: Block, luck: Luck)
    requires w.phase.Mining? && pid !in w.phase.shares && IsSubmitted(w, n.keyOf(b)) && luck.fault != Lost
    ensures
      var rows := Run(n, w, [StartShare(pid, b)] + [StepShare(pid, luck)]).store.rows;
      n.keyOf(b) in rows && rows[n.keyOf(b)] == Row(b, Submitting)
  {
    RunCons(n, w, StartShare(pid, b), [StepShare(pid, luck)]);
  }
}
