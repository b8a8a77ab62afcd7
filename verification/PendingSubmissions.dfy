/**
 The uninterrupted code: the statements, the submit path, the replay loop and the recovery loop, as
 methods on the shared store. Each is proved against the protocol's steps.
 */
module PendingSubmissions {
  import opened PendingStore
  import opened DurabilityProtocol
  import BlockDelivery

  /** A submit call left alone, one environment decision after another. */
  function PlayShare(n: Naming, s: Store, share: Share, lucks: seq<Luck>): (Store, Share)
    decreases |lucks|
  {
    if lucks == [] || share.Finished? then (s, share)
    else
      var (s', share') := ShareStep(n, s, share, lucks[0]);
      PlayShare(n, s', share', lucks[1..])
  }

  /** A replay pass left alone. */
  function PlayReplay(s: Store, r: Replayer, lucks: seq<Luck>): (Store, Replayer)
    decreases |lucks|
  {
    if lucks == [] || r.Waiting? then (s, r)
    else
      var (s', r') := ReplayStep(s, r, lucks[0]);
      PlayReplay(s', r', lucks[1..])
  }

  // ---------------------------------------------------------------- how a replay pass ends

  /** The one call of a replay is answered, and with null or "duplicate". */
  predicate TakenOrKnown(attempts: seq<BlockDelivery.Attempt>) {
    attempts != [] && attempts[0].Answered? &&
    attempts[0].answer in {BlockDelivery.NullAnswer, BlockDelivery.TextAnswer("duplicate")}
  }

  /** Rows all waiting for replay, each scanned once, and an environment that neither skips nor fails. */
  ghost predicate Smooth(rows: Table, items: seq<Item>, lucks: seq<Luck>) {
    && |lucks| >= 3 * |items|
    && (forall i :: 0 <= i < |items| ==>
          items[i].key in rows && rows[items[i].key].block == items[i].block &&
          rows[items[i].key].status in {Pending, Unset})
    && (forall i, j :: 0 <= i < j < |items| ==> items[i].key != items[j].key)
    && (forall i :: 0 <= i < 3 * |items| ==> !lucks[i].skip && lucks[i].fault == NoFault)
  }

  /** Rows that were not scanned are as they were. */
  ghost predicate OthersStay(rows: Table, rows': Table, items: seq<Item>) {
    forall k :: (forall i :: 0 <= i < |items| ==> items[i].key != k) ==>
      (k in rows' <==> k in rows) && (k in rows ==> rows'[k] == rows[k])
  }

  /** The node has taken or known the block in the call of some scanned row. */
  ghost predicate CalledAndTaken(items: seq<Item>, lucks: seq<Luck>, b: Block)
    requires |lucks| >= 3 * |items|
  {
    exists i :: 0 <= i < |items| && items[i].block == b && TakenOrKnown(lucks[3 * i + 1].attempts)
  }

  /** After a smooth pass: each row has the status its own call earned it, and nothing else has changed. */
  ghost predicate Replayed(
    rows: Table, acked: set<Block>, rows': Table, acked': set<Block>, items: seq<Item>, lucks: seq<Luck>)
    requires |lucks| >= 3 * |items|
  {
    && (forall i :: 0 <= i < |items| ==>
          items[i].key in rows' &&
          rows'[items[i].key] ==
          Row(items[i].block, if TakenOrKnown(lucks[3 * i + 1].attempts) then Submitted else Pending))
    && OthersStay(rows, rows', items)
    && (forall b :: b in acked' <==> b in acked || CalledAndTaken(items, lucks, b))
  }

  datatype Pass = Pass(rows: Table, acked: set<Block>, rest: seq<Luck>)

  /**
   A claimed row afterwards: the outcome of the call once its transition has landed, else pending again by the repair,
   else submitting, until the next start; and the block is known to be with the node exactly when it says so.
   */
  function SettleClaim(rows: Table, acked: set<Block>, item: Item, lucks: seq<Luck>): Pass
    requires |lucks| >= 3 && item.key in rows
  {
    var taken := TakenOrKnown(lucks[0].attempts);
    var status :=
      if lucks[1].fault != Lost then (if taken then Submitted else Pending)
      else if lucks[2].fault != Lost then Pending
      else Submitting;
    Pass(rows[item.key := rows[item.key].(status := status)], if taken then acked + {item.block} else acked,
         lucks[if lucks[1].fault == NoFault then 2 else 3..])
  }

  function Turn(rows: Table, acked: set<Block>, item: Item, lucks: seq<Luck>): (p: Pass)
    requires |lucks| >= 4
    ensures |lucks| - 4 <= |p.rest| <= |lucks|
  {
    var claim := lucks[0];
    if claim.skip || !Changes(rows, item.key, Pending) then Pass(rows, acked, lucks[1..])
    else
      var claimed := rows[item.key := rows[item.key].(status := Submitting)];
      if claim.fault == NoFault then SettleClaim(claimed, acked, item, lucks[1..])
      else Pass(if claim.fault == Landed then claimed else rows, acked, lucks[1..])
  }

  function Turns(rows: Table, acked: set<Block>, items: seq<Item>, lucks: seq<Luck>): Pass
    requires |lucks| >= 4 * |items|
    decreases |items|
  {
    if items == [] then Pass(rows, acked, lucks)
    else
      var p := Turn(rows, acked, items[0], lucks);
      Turns(p.rows, p.acked, items[1..], p.rest)
  }

  lemma SmoothTurn(rows: Table, acked: set<Block>, items: seq<Item>, lucks: seq<Luck>)
    requires items != [] && |lucks| >= 4 * |items| && Smooth(rows, items, lucks)
    ensures
      var taken := TakenOrKnown(lucks[1].attempts);
      Turn(rows, acked, items[0], lucks)
      == Pass(rows[items[0].key := Row(items[0].block, if taken then Submitted else Pending)],
              if taken then acked + {items[0].block} else acked, lucks[3..])
    ensures Smooth(Turn(rows, acked, items[0], lucks).rows, items[1..], lucks[3..])
  {
    assert lucks[1..][0] == lucks[1] && lucks[1..][1] == lucks[2] && lucks[1..][2..] == lucks[3..];
  }

  lemma {:induction false} SmoothTurnsReplay(rows: Table, acked: set<Block>, items: seq<Item>, lucks: seq<Luck>)
    requires |lucks| >= 4 * |items| && Smooth(rows, items, lucks)
    ensures
      var p := Turns(rows, acked, items, lucks);
      Replayed(rows, acked, p.rows, p.acked, items, lucks)
    decreases |items|
  {
    if items != [] {
      var first, p := Turn(rows, acked, items[0], lucks), Turns(rows, acked, items, lucks);
      SmoothTurn(rows, acked, items, lucks);
      SmoothTurnsReplay(first.rows, first.acked, items[1..], lucks[3..]);
      ReplayedCons(rows, acked, first.rows, first.acked, p.rows, p.acked, items, lucks);
    }
  }

  lemma ReplayedCons(
    rows: Table, acked: set<Block>, rows1: Table, acked1: set<Block>, rows': Table, acked': set<Block>,
    items: seq<Item>, lucks: seq<Luck>)
    requires items != [] && Smooth(rows, items, lucks) && Replayed(rows1, acked1, rows', acked', items[1..], lucks[3..])
    requires
      var taken := TakenOrKnown(lucks[1].attempts);
      && rows1 == rows[items[0].key := Row(items[0].block, if taken then Submitted else Pending)]
      && acked1 == if taken then acked + {items[0].block} else acked
    ensures Replayed(rows, acked, rows', acked', items, lucks)
  {
    forall i | 0 <= i < |items|
      ensures items[i].key in rows' &&
              rows'[items[i].key] ==
              Row(items[i].block, if TakenOrKnown(lucks[3 * i + 1].attempts) then Submitted else Pending)
    {
      RowAfterFirst(rows, rows1, rows', items, lucks, i);
    }
    OthersAfterFirst(rows, rows1, rows', items);
    forall b
      ensures b in acked' <==> b in acked || CalledAndTaken(items, lucks, b)
    {
      CallsAfterFirst(items, lucks, b);
    }
  }

  lemma OthersAfterFirst(rows: Table, rows1: Table, rows': Table, items: seq<Item>)
    requires items != [] && OthersStay(rows1, rows', items[1..])
    requires forall k :: k != items[0].key ==> (k in rows1 <==> k in rows) && (k in rows ==> rows1[k] == rows[k])
    ensures OthersStay(rows, rows', items)
  {
    forall k | forall i :: 0 <= i < |items| ==> items[i].key != k
      ensures (k in rows' <==> k in rows) && (k in rows ==> rows'[k] == rows[k])
    {
      assert items[0].key != k && forall i :: 0 <= i < |items| - 1 ==> items[1..][i].key != k;
    }
  }

  lemma RowAfterFirst(rows: Table, rows1: Table, rows': Table, items: seq<Item>, lucks: seq<Luck>, i: nat)
    requires i < |items| && Smooth(rows, items, lucks)
    requires rows1 == rows[items[0].key :=
                        Row(items[0].block, if TakenOrKnown(lucks[1].attempts) then Submitted else Pending)]
    requires i == 0 ==> items[0].key in rows' && rows'[items[0].key] == rows1[items[0].key]
    requires i > 0 ==>
               items[1..][i - 1].key in rows' &&
               rows'[items[1..][i - 1].key] ==
               Row(items[1..][i - 1].block,
                   if TakenOrKnown(lucks[3..][3 * (i - 1) + 1].attempts) then Submitted else Pending)
    ensures items[i].key in rows' &&
            rows'[items[i].key] ==
            Row(items[i].block, if TakenOrKnown(lucks[3 * i + 1].attempts) then Submitted else Pending)
  {
    if i > 0 {
      assert items[1..][i - 1] == items[i] && lucks[3..][3 * (i - 1) + 1] == lucks[3 * i + 1];
    }
  }

  lemma CallsAfterFirst(items: seq<Item>, lucks: seq<Luck>, b: Block)
    requires items != [] && |lucks| >= 3 * |items|
    ensures CalledAndTaken(items, lucks, b) <==>
            (items[0].block == b && TakenOrKnown(lucks[1].attempts)) || CalledAndTaken(items[1..], lucks[3..], b)
  {
    if i :| 0 <= i < |items| && items[i].block == b && TakenOrKnown(lucks[3 * i + 1].attempts) {
      if i > 0 {
        assert items[1..][i - 1].block == b && lucks[3..][3 * (i - 1) + 1] == lucks[3 * i + 1];
      }
    }
    if i :| 0 <= i < |items| - 1 && items[1..][i].block == b && TakenOrKnown(lucks[3..][3 * i + 1].attempts) {
      assert items[i + 1].block == b && lucks[3 * (i + 1) + 1] == lucks[3..][3 * i + 1];
    }
  }

  /** A recovery pass left alone. */
  function PlayRecovery(n: Naming, s: Store, p: Phase, lucks: seq<Luck>): (Store, Phase)
    decreases |lucks|
  {
    if lucks == [] || !p.Recovering? then (s, p)
    else
      var (s', p') := RecoverStep(n, s, p, lucks[0]);
      PlayRecovery(n, s', p', lucks[1..])
  }

  // ---------------------------------------------------------------- how the submit path ends

  /** In one of the attempts that are made, the node takes the block, calls it a duplicate or shows it. */
  ghost predicate NodeConfirmsIn(attempts: seq<BlockDelivery.Attempt>) {
    exists i: nat :: BlockDelivery.IsMade(attempts, i) && BlockDelivery.NodeHasBlock(attempts[i])
  }

  // ---------------------------------------------------------------- how a recovery pass ends

  datatype FilePass = FilePass(rows: Table, files: Spool, count: nat, failed: bool, rest: seq<Luck>)

  /** One file: read, set aside when invalid, else inserted when its row is missing, read back and removed. */
  function FileTurn(n: Naming, p: FilePass, name: FileName): (q: FilePass)
    requires |p.rest| >= 3
    ensures |p.rest| - 3 <= |q.rest| <= |p.rest|
  {
    var first, rest := p.rest[0], p.rest[1..];
    if first.readError || name !in p.files then p.(failed := true, rest := rest)
    else if !ValidSpoolFile(n, name, p.files[name]) then
      p.(files := if first.ioError then p.files else p.files - {name}, rest := rest)
    else
      var b, key := p.files[name].block, RecordKey(p.files[name]);
      var rows := if first.fault == Lost || key in p.rows then p.rows else p.rows[key := Row(b, Pending)];
      if first.fault != NoFault then p.(rows := rows, failed := true, rest := rest)
      else if rest[0].fault != NoFault || rows[key].block != b then p.(rows := rows, failed := true, rest := rest[1..])
      else
        FilePass(rows, if rest[1].ioError then p.files else p.files - {name}, p.count + 1, p.failed, rest[2..])
  }

  function FileTurns(n: Naming, p: FilePass, order: seq<FileName>): FilePass
    requires |p.rest| >= 3 * |order|
    decreases |order|
  {
    if order == [] then p else FileTurns(n, FileTurn(n, p, order[0]), order[1..])
  }

  /** Every file is listed once, nothing fails, and no valid record's key is taken by another block. */
  ghost predicate Calm(n: Naming, rows: Table, files: Spool, order: seq<FileName>, lucks: seq<Luck>) {
    && (forall i :: 0 <= i < |order| ==> order[i] in files && order[i] !in order[i + 1..])
    && (forall l :: l in lucks ==> !l.readError && !l.ioError && l.fault == NoFault)
    && (forall f :: f in order && ValidSpoolFile(n, f, files[f]) && RecordKey(files[f]) in rows ==>
          rows[RecordKey(files[f])].block == files[f].block)
    && (forall f, g :: f in order && g in order && ValidSpoolFile(n, f, files[f]) && ValidSpoolFile(n, g, files[g]) ==>
          RecordKey(files[f]) != RecordKey(files[g]) || files[f].block == files[g].block)
  }

  /** Every valid record has become a row, pending when it is new; the listed files are gone. */
  ghost predicate Imported(
    n: Naming, rows: Table, files: Spool, rows': Table, files': Spool, order: seq<FileName>)
    requires forall f :: f in order ==> f in files
  {
    && (forall f :: f in order && ValidSpoolFile(n, f, files[f]) ==>
          RecordKey(files[f]) in rows' && rows'[RecordKey(files[f])].block == files[f].block)
    && (forall k :: k in rows ==> k in rows' && rows'[k] == rows[k])
    && (forall k :: k in rows' && k !in rows ==> rows'[k].status == Pending)
    && (forall f :: f in files' <==> f in files && f !in order)
  }

  function ValidCount(n: Naming, files: Spool, order: seq<FileName>): nat {
    if order == [] then 0
    else (if order[0] in files && ValidSpoolFile(n, order[0], files[order[0]]) then 1 else 0)
         + ValidCount(n, files, order[1..])
  }

  lemma {:induction false} ValidCountIgnores(n: Naming, files: Spool, name: FileName, order: seq<FileName>)
    requires name !in order
    ensures ValidCount(n, files - {name}, order) == ValidCount(n, files, order)
  {
    if order != [] {
      ValidCountIgnores(n, files, name, order[1..]);
    }
  }

  lemma {:induction false} CalmTurnsImport(n: Naming, p: FilePass, order: seq<FileName>)
    requires |p.rest| >= 3 * |order| && Calm(n, p.rows, p.files, order, p.rest)
    ensures
      var q := FileTurns(n, p, order);
      && q.failed == p.failed && q.count == p.count + ValidCount(n, p.files, order)
      && Imported(n, p.rows, p.files, q.rows, q.files, order)
    decreases |order|
  {
    if order != [] {
      CalmTurn(n, p, order);
      CalmTurnsImport(n, FileTurn(n, p, order[0]), order[1..]);
      ValidCountIgnores(n, p.files, order[0], order[1..]);
      ImportedCons(n, p, FileTurn(n, p, order[0]), FileTurns(n, p, order), order);
    }
  }

  lemma CalmTurn(n: Naming, p: FilePass, order: seq<FileName>)
    requires order != [] && |p.rest| >= 3 * |order| && Calm(n, p.rows, p.files, order, p.rest)
    ensures
      var q, valid := FileTurn(n, p, order[0]), ValidSpoolFile(n, order[0], p.files[order[0]]);
      && q.failed == p.failed && q.count == p.count + (if valid then 1 else 0)
      && q.files == p.files - {order[0]} && AddsRow(p.rows, q.rows, valid, p.files[order[0]])
      && Calm(n, q.rows, q.files, order[1..], q.rest)
  {
    assert p.rest[0] in p.rest && p.rest[1] in p.rest && p.rest[2] in p.rest;
    assert order == [order[0]] + order[1..];
    CalmRest(p.rest, FileTurn(n, p, order[0]).rest);
    CalmOrder(p.files, order);
  }

  /** The row of a valid record is there afterwards, as it was or pending; no other row is touched. */
  ghost predicate AddsRow(rows: Table, rows': Table, valid: bool, data: FileData) {
    if !valid || !data.Record? || RecordKey(data) in rows then rows' == rows
    else rows' == rows[RecordKey(data) := Row(data.block, Pending)]
  }

  lemma CalmRest(lucks: seq<Luck>, rest: seq<Luck>)
    requires |lucks| >= 3 && (rest == lucks[1..] || rest == lucks[1..][1..] || rest == lucks[1..][2..])
    ensures forall l :: l in rest ==> l in lucks
  {
  }

  lemma CalmOrder(files: Spool, order: seq<FileName>)
    requires order != [] && forall i :: 0 <= i < |order| ==> order[i] in files && order[i] !in order[i + 1..]
    ensures
      forall i :: 0 <= i < |order| - 1 ==> order[1..][i] in files - {order[0]} && order[1..][i] !in order[1..][i + 1..]
  {
    forall i | 0 <= i < |order| - 1
      ensures order[1..][i] in files - {order[0]} && order[1..][i] !in order[1..][i + 1..]
    {
      assert order[1..][i] == order[i + 1] && order[1..][i + 1..] == order[i + 2..];
      assert order[0] !in order[1..] && order[i + 1] in order[1..];
    }
  }

  lemma ImportedCons(n: Naming, p: FilePass, first: FilePass, q: FilePass, order: seq<FileName>)
    requires order != [] && Calm(n, p.rows, p.files, order, p.rest)
    requires first.files == p.files - {order[0]}
    requires AddsRow(
               p.rows, first.rows, ValidSpoolFile(n, order[0], p.files[order[0]]), p.files[order[0]])
    requires forall f :: f in order[1..] ==> f in first.files
    requires Imported(n, first.rows, first.files, q.rows, q.files, order[1..])
    ensures Imported(n, p.rows, p.files, q.rows, q.files, order)
  {
    assert order == [order[0]] + order[1..];
  }

  lemma PutTwice(rows: Table, key: Key, first: Row, second: Row)
    ensures rows[key := first][key := second] == rows[key := second]
  {
  }

  class BlockStore {
    const n: Naming
    var rows: Table
    var files: Spool
    var acked: set<Block>

    function View(): Store
      reads this
    {
      Store(rows, files, acked)
    }

    constructor (n: Naming)
      ensures this.n == n && View() == Store(map[], map[], {})
    {
      this.n := n;
      rows, files, acked := map[], map[], {};
    }

    // -------------------------------------------------------------- statements and file operations

    method AppendPendingSubmissionRecord(b: Block, status: Status, fault: Fault) returns (err: bool)
      modifies this`rows
      ensures err == (fault != NoFault)
      ensures rows == Land(old(rows), Upsert(old(rows), n.keyOf(b), b, status), fault)
    {
      if fault != Lost {
        rows := rows[n.keyOf(b) := Row(b, status)];
      }
      err := fault != NoFault;
    }

    method TransitionPendingSubmissionStatus(key: Key, from: Status, to: Status, fault: Fault)
      returns (changed: bool, err: bool)
      modifies this`rows
      ensures err == (fault != NoFault) && changed == (!err && Changes(old(rows), key, from))
      ensures rows == Land(old(rows), Transition(old(rows), key, from, to), fault)
    {
      var hit := key in rows && (rows[key].status == from || (from == Pending && rows[key].status == Unset));
      if fault != Lost && hit {
        rows := rows[key := Row(rows[key].block, to)];
      }
      err := fault != NoFault;
      changed := !err && hit;
    }

    method ReclaimSubmittingPendingSubmissions(fault: Fault) returns (err: bool)
      modifies this`rows
      ensures err == (fault != NoFault)
      ensures rows == Land(old(rows), PendingStore.Reclaim(old(rows)), fault)
      ensures !err ==> forall k :: k in rows ==> rows[k].status != Submitting
    {
      if fault != Lost {
        rows := PendingStore.Reclaim(rows);
      }
      err := fault != NoFault;
    }

    method WritePendingSubmissionSpool(b: Block, w: SpoolWrite) returns (err: bool)
      modifies this`files
      ensures err == (w != Installed)
      ensures files == WriteSpool(n, old(files), b, w)
      ensures !err ==> InSpool(n, View(), b)
    {
      files := WriteSpool(n, files, b, w);
      err := w != Installed;
    }

    method RemovePendingSubmissionSpool(b: Block, removal: Removal) returns (err: bool)
      modifies this`files
      ensures err == (removal != Removed) && files == RemoveSpool(n, old(files), b, removal)
      ensures !err ==> !InSpool(n, View(), b)
    {
      if removal != Kept {
        files := files - {Final(n.digestOf(b))};
      }
      err := removal != Removed;
    }

    /** The retry loop; a block it reports delivered is known to be with the node. */
    method SubmitBlock(b: Block, attempts: seq<BlockDelivery.Attempt>) returns (ok: bool)
      modifies this`acked
      ensures ok == BlockDelivery.Delivered(attempts)
      ensures ok <==>
              exists i: nat :: BlockDelivery.IsMade(attempts, i) && BlockDelivery.NodeHasBlock(attempts[i])
      ensures acked == RecordEvidence(old(acked), b, ok)
    {
      var made;
      ok, made := BlockDelivery.SubmitBlockWithFastRetry(attempts);
      BlockDelivery.DeliveredIffNodeHasBlock(attempts);
      acked := RecordEvidence(acked, b, ok);
    }

    // -------------------------------------------------------------- the submit path

    /** Persist, submit, record the outcome; `lucks` are the environment's decisions in order. */
    method HandleBlockShare(b: Block, lucks: seq<Luck>) returns (ok: bool)
      requires |lucks| >= 6
      modifies this`rows, this`files, this`acked
      ensures (View(), Finished(b)) == PlayShare(n, old(View()), Persisting(b), lucks)
      ensures ok <==> NodeConfirmsIn(lucks[if lucks[0].fault == NoFault then 1 else 2].attempts)
      ensures acked == if ok then old(acked) + {b} else old(acked)
      ensures lucks[0].fault == NoFault ==>
        && files == old(files)
        && rows == old(rows)[n.keyOf(b) := Row(b,
                     if lucks[2].fault != Lost || lucks[3].fault != Lost then (if ok then Submitted else Pending)
                     else if lucks[4].fault != Lost then Pending
                     else Submitting)]
      ensures lucks[0].fault != NoFault ==>
        && rows == (if lucks[if ok then 3 else 4].fault != Lost
                    then old(rows)[n.keyOf(b) := Row(b, if ok then Submitted else Pending)]
                    else if lucks[0].fault == Landed then old(rows)[n.keyOf(b) := Row(b, Submitting)]
                    else old(rows))
        && var first := WriteSpool(n, old(files), b, lucks[1].write);
           var written := if ok then first else WriteSpool(n, first, b, lucks[3].write);
           files == if lucks[if ok then 3 else 4].fault == NoFault && lucks[if ok then 4 else 5].removal != Kept
                    then written - {Final(n.digestOf(b))}
                    else written
    {
      var pendingPersisted, rest := PersistBlock(b, lucks);
      if pendingPersisted {
        assert rest[0] == lucks[1] && rest[1] == lucks[2] && rest[2] == lucks[3] && rest[3] == lucks[4];
        ok := SubmitStored(b, rest);
        PutTwice(old(rows), n.keyOf(b), Row(b, Submitting), rows[n.keyOf(b)]);
      } else {
        assert rest[0] == lucks[2] && rest[1] == lucks[3] && rest[2] == lucks[4] && rest[3] == lucks[5];
        ok := SubmitUnstored(b, rest);
        PutTwice(old(rows), n.keyOf(b), Row(b, Submitting), Row(b, if ok then Submitted else Pending));
      }
    }

    /** The call and what follows it, with the row written first. */
    method SubmitStored(b: Block, lucks: seq<Luck>) returns (ok: bool)
      requires |lucks| >= 4 && n.keyOf(b) in rows && rows[n.keyOf(b)] == Row(b, Submitting)
      modifies this`rows, this`acked
      ensures forall inFile :: (View(), Finished(b)) == PlayShare(n, old(View()), Delivering(b, true, inFile), lucks)
      ensures ok <==> NodeConfirmsIn(lucks[0].attempts)
      ensures acked == if ok then old(acked) + {b} else old(acked)
      ensures rows == old(rows)[n.keyOf(b) := Row(b,
                        if lucks[1].fault != Lost || lucks[2].fault != Lost then (if ok then Submitted else Pending)
                        else if lucks[3].fault != Lost then Pending
                        else Submitting)]
    {
      ok := SubmitBlock(b, lucks[0].attempts);
      ghost var share := AfterDelivery(b, true, ok);
      assert forall inFile :: PlayShare(n, old(View()), Delivering(b, true, inFile), lucks)
                           == PlayShare(n, View(), share, lucks[1..]);
      SettleRow(b, if ok then Submitted else Pending, share, lucks[1..]);
    }

    /** The call and what follows it, without a row. */
    method SubmitUnstored(b: Block, lucks: seq<Luck>) returns (ok: bool)
      requires |lucks| >= 4
      modifies this`rows, this`files, this`acked
      ensures forall inFile :: (View(), Finished(b)) == PlayShare(n, old(View()), Delivering(b, false, inFile), lucks)
      ensures ok <==> NodeConfirmsIn(lucks[0].attempts)
      ensures acked == if ok then old(acked) + {b} else old(acked)
      ensures rows == if lucks[if ok then 1 else 2].fault != Lost
                      then old(rows)[n.keyOf(b) := Row(b, if ok then Submitted else Pending)]
                      else old(rows)
      ensures
        var written := if ok then old(files) else WriteSpool(n, old(files), b, lucks[1].write);
        files == if lucks[if ok then 1 else 2].fault == NoFault && lucks[if ok then 2 else 3].removal != Kept
                 then written - {Final(n.digestOf(b))}
                 else written
    {
      ok := SubmitBlock(b, lucks[0].attempts);
      ghost var share := AfterDelivery(b, false, ok);
      assert forall inFile :: PlayShare(n, old(View()), Delivering(b, false, inFile), lucks)
                           == PlayShare(n, View(), share, lucks[1..]);
      SettleUnstored(b, ok, lucks[1..]);
    }

    /** Without a row: the spool record is refreshed after a refusal, and the outcome written in full. */
    method SettleUnstored(b: Block, ok: bool, lucks: seq<Luck>)
      requires |lucks| >= 3
      modifies this`rows, this`files
      ensures (View(), Finished(b)) == PlayShare(n, old(View()), AfterDelivery(b, false, ok), lucks)
      ensures rows == if lucks[if ok then 0 else 1].fault != Lost
                      then old(rows)[n.keyOf(b) := Row(b, if ok then Submitted else Pending)]
                      else old(rows)
      ensures
        var written := if ok then old(files) else WriteSpool(n, old(files), b, lucks[0].write);
        files == if lucks[if ok then 0 else 1].fault == NoFault && lucks[if ok then 1 else 2].removal != Kept
                 then written - {Final(n.digestOf(b))}
                 else written
    {
      if ok {
        SettleSpool(b, Submitted, TakenRecording(b), lucks);
      } else {
        SpoolAgain(b, lucks);
      }
    }

    /** Where the submit path stands once the node has answered. */
    ghost function AfterDelivery(b: Block, inRow: bool, ok: bool): Share {
      if ok then (if inRow then Taken(b) else TakenRecording(b))
      else if inRow then Refused(b) else RefusedSpooling(b)
    }

    /** The row, or the spool when the row fails. */
    method PersistBlock(b: Block, lucks: seq<Luck>) returns (inRow: bool, rest: seq<Luck>)
      requires |lucks| >= 6
      modifies this`rows, this`files
      ensures |rest| >= 4 && inRow == (lucks[0].fault == NoFault) && rest == lucks[if inRow then 1 else 2..]
      ensures rows == if lucks[0].fault != Lost then old(rows)[n.keyOf(b) := Row(b, Submitting)] else old(rows)
      ensures files == if inRow then old(files) else WriteSpool(n, old(files), b, lucks[1].write)
      ensures exists inFile ::
                PlayShare(n, old(View()), Persisting(b), lucks)
                == PlayShare(n, View(), Delivering(b, inRow, inFile), rest)
    {
      var persistErr := AppendPendingSubmissionRecord(b, Submitting, lucks[0].fault);
      inRow, rest := !persistErr, lucks[1..];
      ghost var inFile := false;
      if persistErr {
        var spoolErr := WritePendingSubmissionSpool(b, rest[0].write);
        inFile, rest := !spoolErr, rest[1..];
      }
      assert PlayShare(n, old(View()), Persisting(b), lucks)
          == PlayShare(n, View(), Delivering(b, inRow, inFile), rest);
    }

    /** Refused and in no row: write the spool record once more, then settle. */
    method SpoolAgain(b: Block, lucks: seq<Luck>)
      requires |lucks| >= 3
      modifies this`rows, this`files
      ensures (View(), Finished(b)) == PlayShare(n, old(View()), RefusedSpooling(b), lucks)
      ensures rows == if lucks[1].fault != Lost then old(rows)[n.keyOf(b) := Row(b, Pending)] else old(rows)
      ensures
        var written := WriteSpool(n, old(files), b, lucks[0].write);
        files == if lucks[1].fault == NoFault && lucks[2].removal != Kept then written - {Final(n.digestOf(b))}
                 else written
    {
      var spoolErr := WritePendingSubmissionSpool(b, lucks[0].write);
      assert PlayShare(n, old(View()), RefusedSpooling(b), lucks)
          == PlayShare(n, View(), RefusedLogging(b), lucks[1..]);
      SettleSpool(b, Pending, RefusedLogging(b), lucks[1..]);
    }

    /** The row was written first: move it on, fall back to a full write, else repair it. */
    method SettleRow(b: Block, to: Status, ghost share: Share, lucks: seq<Luck>)
      requires (share == Taken(b) && to == Submitted) || (share == Refused(b) && to == Pending)
      requires |lucks| >= 3
      modifies this`rows
      ensures (View(), Finished(b)) == PlayShare(n, old(View()), share, lucks)
      ensures n.keyOf(b) in old(rows) && old(rows)[n.keyOf(b)] == Row(b, Submitting) ==>
                rows == old(rows)[n.keyOf(b) := Row(b,
                          if lucks[0].fault != Lost || lucks[1].fault != Lost then to
                          else if lucks[2].fault != Lost then Pending
                          else Submitting)]
    {
      var changed, updateErr := TransitionPendingSubmissionStatus(n.keyOf(b), Submitting, to, lucks[0].fault);
      var submissionFinished := !updateErr && changed;
      if !submissionFinished {
        ghost var fallback := if share.Taken? then TakenFallback(b) else RefusedFallback(b);
        assert PlayShare(n, old(View()), share, lucks) == PlayShare(n, View(), fallback, lucks[1..]);
        assert lucks[1..][0] == lucks[1] && lucks[1..][1] == lucks[2];
        FallBack(b, to, fallback, lucks[1..]);
      }
    }

    method FallBack(b: Block, to: Status, ghost share: Share, lucks: seq<Luck>)
      requires (share == TakenFallback(b) && to == Submitted) || (share == RefusedFallback(b) && to == Pending)
      requires |lucks| >= 2
      modifies this`rows
      ensures (View(), Finished(b)) == PlayShare(n, old(View()), share, lucks)
      ensures lucks[0].fault != Lost ==> rows == old(rows)[n.keyOf(b) := Row(b, to)]
      ensures lucks[0].fault == Lost ==>
                rows == Land(old(rows), Transition(old(rows), n.keyOf(b), Submitting, Pending), lucks[1].fault)
    {
      var fallbackErr := AppendPendingSubmissionRecord(b, to, lucks[0].fault);
      if fallbackErr {
        assert PlayShare(n, old(View()), share, lucks) == PlayShare(n, View(), Repairing(b), lucks[1..]);
        label repair:
        var changed, err :=
          TransitionPendingSubmissionStatus(n.keyOf(b), Submitting, Pending, lucks[1..][0].fault);
        assert PlayShare(n, old@repair(View()), Repairing(b), lucks[1..])
            == PlayShare(n, View(), Finished(b), lucks[1..][1..]);
      }
    }

    /** Only the spool may hold the block: try the row again and drop the record once it is there. */
    method SettleSpool(b: Block, status: Status, ghost share: Share, lucks: seq<Luck>)
      requires (share == TakenRecording(b) && status == Submitted) || (share == RefusedLogging(b) && status == Pending)
      requires |lucks| >= 2
      modifies this`rows, this`files
      ensures (View(), Finished(b)) == PlayShare(n, old(View()), share, lucks)
      ensures rows == if lucks[0].fault != Lost then old(rows)[n.keyOf(b) := Row(b, status)] else old(rows)
      ensures files == if lucks[0].fault == NoFault && lucks[1].removal != Kept
                       then old(files) - {Final(n.digestOf(b))}
                       else old(files)
    {
      var recordErr := AppendPendingSubmissionRecord(b, status, lucks[0].fault);
      ghost var next := if recordErr then Finished(b) else Unspooling(b);
      assert PlayShare(n, old(View()), share, lucks) == PlayShare(n, View(), next, lucks[1..]);
      if !recordErr {
        label removing:
        var removeErr := RemovePendingSubmissionSpool(b, lucks[1..][0].removal);
        assert PlayShare(n, old@removing(View()), Unspooling(b), lucks[1..])
            == PlayShare(n, View(), Finished(b), lucks[1..][1..]);
      }
    }

    // -------------------------------------------------------------- the replay loop

    /** One pass over the scanned rows: claim, submit, record, and always give a failed claim back. */
    method ReplayPendingSubmissions(items: seq<Item>, lucks: seq<Luck>)
      requires |lucks| >= 4 * |items| + 1
      modifies this`rows, this`acked
      ensures (View(), Waiting) == PlayReplay(old(View()), Scanning(items), lucks)
      ensures Smooth(old(rows), items, lucks) ==> Replayed(old(rows), old(acked), rows, acked, items, lucks)
    {
      var i, rest := 0, lucks;
      while i < |items|
        invariant 0 <= i <= |items| && |rest| >= 4 * (|items| - i) + 1
        invariant files == old(files)
        invariant PlayReplay(old(View()), Scanning(items), lucks) == PlayReplay(View(), Scanning(items[i..]), rest)
        invariant Turns(old(rows), old(acked), items, lucks) == Turns(rows, acked, items[i..], rest)
      {
        assert items[i..] == [items[i]] + items[i + 1..];
        rest := ReplayOne(items[i], items[i + 1..], rest);
        i := i + 1;
      }
      if Smooth(old(rows), items, lucks) {
        SmoothTurnsReplay(old(rows), old(acked), items, lucks);
      }
    }

    /** One row of the scan: held back, or claimed, submitted and recorded. */
    method ReplayOne(item: Item, ghost todo: seq<Item>, lucks: seq<Luck>) returns (rest: seq<Luck>)
      requires |lucks| >= 4
      modifies this`rows, this`acked
      ensures |rest| >= |lucks| - 4
      ensures PlayReplay(old(View()), Scanning([item] + todo), lucks) == PlayReplay(View(), Scanning(todo), rest)
      ensures Pass(rows, acked, rest) == Turn(old(rows), old(acked), item, lucks)
    {
      rest := lucks[1..];
      if !lucks[0].skip {
        var claimed, claimErr := TransitionPendingSubmissionStatus(item.key, Pending, Submitting, lucks[0].fault);
        if !claimErr && claimed {
          assert PlayReplay(old(View()), Scanning([item] + todo), lucks)
              == PlayReplay(View(), Claimed(item, todo), rest);
          rest := FinishReplay(item, todo, rest);
        }
      }
    }

    /** Submits one claimed row and records the outcome; the deferred repair undoes a lost claim. */
    method FinishReplay(item: Item, ghost todo: seq<Item>, lucks: seq<Luck>) returns (rest: seq<Luck>)
      requires |lucks| >= 3
      modifies this`rows, this`acked
      ensures |rest| >= |lucks| - 3
      ensures PlayReplay(old(View()), Claimed(item, todo), lucks) == PlayReplay(View(), Scanning(todo), rest)
      ensures item.key in old(rows) && old(rows)[item.key].status == Submitting ==>
                Pass(rows, acked, rest) == SettleClaim(old(rows), old(acked), item, lucks)
    {
      var ok := TakenByReplay(lucks[0].attempts);
      acked := RecordEvidence(acked, item.block, ok);
      rest := lucks[1..];
      ghost var after := if ok then ReplayTaken(item, todo) else ReplayRefused(item, todo);
      assert PlayReplay(old(View()), Claimed(item, todo), lucks) == PlayReplay(View(), after, rest);
      label outcome:
      var changed, updateErr :=
        TransitionPendingSubmissionStatus(item.key, Submitting, if ok then Submitted else Pending, rest[0].fault);
      var attemptFinished := !updateErr && changed;
      if !attemptFinished {
        assert PlayReplay(old@outcome(View()), after, rest)
            == PlayReplay(View(), ReplayRepairing(item, todo), rest[1..]);
        var undone, undoErr := TransitionPendingSubmissionStatus(item.key, Submitting, Pending, rest[1..][0].fault);
        rest := rest[1..][1..];
      } else {
        rest := rest[1..];
      }
    }

    // -------------------------------------------------------------- the recovery loop

    /** One pass over the listed files; success lets start-up go on, any failure makes it try again. */
    method RecoverPendingSubmissionSpool(order: seq<FileName>, lucks: seq<Luck>)
      returns (recovered: nat, failed: bool)
      requires IsListing(files, order) && |lucks| >= 3 * |order| + 1
      modifies this`rows, this`files
      ensures (View(), if failed then Booting else Reclaiming)
           == PlayRecovery(n, old(View()), Recovering(order, false, Opening), lucks)
      ensures recovered <= |order|
      ensures Calm(n, old(rows), old(files), order, lucks) ==>
                !failed && Imported(n, old(rows), old(files), rows, files, order) &&
                recovered == ValidCount(n, old(files), order)
    {
      recovered, failed := RecoverListed(order, lucks);
      if Calm(n, old(rows), old(files), order, lucks) {
        CalmTurnsImport(n, FilePass(old(rows), old(files), 0, false, lucks), order);
      }
    }

    method RecoverListed(order: seq<FileName>, lucks: seq<Luck>) returns (recovered: nat, failed: bool)
      requires |lucks| >= 3 * |order| + 1
      modifies this`rows, this`files
      ensures (View(), if failed then Booting else Reclaiming)
           == PlayRecovery(n, old(View()), Recovering(order, false, Opening), lucks)
      ensures recovered <= |order|
      ensures
        var q := FileTurns(n, FilePass(old(rows), old(files), 0, false, lucks), order);
        q.rows == rows && q.files == files && q.count == recovered && q.failed == failed
    {
      var todo, rest := order, lucks;
      recovered, failed := 0, false;
      while todo != []
        invariant |rest| >= 3 * |todo| + 1 && recovered + |todo| <= |order|
        invariant acked == old(acked)
        invariant FileTurns(n, FilePass(old(rows), old(files), 0, false, lucks), order)
               == FileTurns(n, FilePass(rows, files, recovered, failed, rest), todo)
        invariant PlayRecovery(n, old(View()), Recovering(order, false, Opening), lucks)
               == PlayRecovery(n, View(), Recovering(todo, failed, Opening), rest)
      {
        var imported, ok;
        assert todo == [todo[0]] + todo[1..];
        imported, ok, rest := RecoverOneFile(todo[0], todo[1..], recovered, failed, rest);
        todo := todo[1..];
        failed := failed || !ok;
        if imported {
          recovered := recovered + 1;
        }
      }
    }

    /** Imports one candidate file, or quarantines it; the file goes only after its bytes are read back. */
    method RecoverOneFile(
      name: FileName, ghost todo: seq<FileName>, ghost count: nat, ghost failed: bool, lucks: seq<Luck>)
      returns (imported: bool, ok: bool, rest: seq<Luck>)
      requires |lucks| >= 3
      modifies this`rows, this`files
      ensures |rest| >= |lucks| - 3
      ensures PlayRecovery(n, old(View()), Recovering([name] + todo, failed, Opening), lucks)
           == PlayRecovery(n, View(), Recovering(todo, failed || !ok, Opening), rest)
      ensures FilePass(rows, files, if imported then count + 1 else count, failed || !ok, rest)
           == FileTurn(n, FilePass(old(rows), old(files), count, failed, lucks), name)
    {
      rest := lucks[1..];
      if lucks[0].readError || name !in files {
        return false, false, rest;
      }
      var data := files[name];
      if !ValidSpoolFile(n, name, data) {
        if !lucks[0].ioError {
          files := files - {name};
        }
        return false, true, rest;
      }
      if lucks[0].fault != Lost {
        rows := InsertIfAbsent(rows, RecordKey(data), data.block);
      }
      if lucks[0].fault != NoFault {
        return false, false, rest;
      }
      assert PlayRecovery(n, old(View()), Recovering([name] + todo, failed, Opening), lucks)
          == PlayRecovery(n, View(), Recovering([name] + todo, failed, Inserted(RecordKey(data), data.block)), rest);
      ok, rest := RemoveIfStored(name, RecordKey(data), data.block, todo, failed, rest);
      imported := ok;
    }

    /** Reads the stored row back; the file goes only when its block is there. */
    method RemoveIfStored(
      name: FileName, key: Key, b: Block, ghost todo: seq<FileName>, ghost failed: bool, lucks: seq<Luck>)
      returns (ok: bool, rest: seq<Luck>)
      requires |lucks| >= 2
      modifies this`files
      ensures |rest| >= |lucks| - 2
      ensures PlayRecovery(n, old(View()), Recovering([name] + todo, failed, Inserted(key, b)), lucks)
           == PlayRecovery(n, View(), Recovering(todo, failed || !ok, Opening), rest)
      ensures ok == (lucks[0].fault == NoFault && key in rows && rows[key].block == b)
      ensures rest == lucks[if ok then 2 else 1..]
      ensures files == if ok && !lucks[1].ioError then old(files) - {name} else old(files)
    {
      ok, rest := lucks[0].fault == NoFault && key in rows && rows[key].block == b, lucks[1..];
      if ok {
        assert PlayRecovery(n, old(View()), Recovering([name] + todo, failed, Inserted(key, b)), lucks)
            == PlayRecovery(n, View(), Recovering([name] + todo, failed, Verified(b)), rest);
        label removing:
        if !rest[0].ioError {
          files := files - {name};
        }
        assert PlayRecovery(n, old@removing(View()), Recovering([name] + todo, failed, Verified(b)), rest)
            == PlayRecovery(n, View(), Recovering(todo, failed, Opening), rest[1..]);
        rest := rest[1..];
      }
    }
  }

  /** Existing rows stay as they are, new ones are pending, and no file appears or changes. */
  predicate OnlyImports(s: Store, s': Store) {
    && (forall k :: k in s.rows ==> k in s'.rows && s'.rows[k] == s.rows[k])
    && (forall k :: k in s'.rows && k !in s.rows ==> s'.rows[k].status == Pending)
    && (forall f :: f in s'.files ==> f in s.files && s'.files[f] == s.files[f])
  }

  /** However its statements and file operations go, a pass of recovery does nothing but import. */
  lemma {:induction false} RecoveryPassOnlyImports(n: Naming, s: Store, p: Phase, lucks: seq<Luck>)
    ensures OnlyImports(s, PlayRecovery(n, s, p, lucks).0)
    decreases |lucks|
  {
    if lucks != [] && p.Recovering? {
      var (s', p') := RecoverStep(n, s, p, lucks[0]);
      assert OnlyImports(s, s');
      RecoveryPassOnlyImports(n, s', p', lucks[1..]);
    }
  }

  /** It loses no held block, and when it lets start-up go on every valid record is in the table. */
  lemma {:induction false} RecoveryPassKeeps(n: Naming, s: Store, p: Phase, lucks: seq<Luck>)
    requires Distinct(n) && Inv(n, World(s, p))
    ensures
      var (s', p') := PlayRecovery(n, s, p, lucks);
      Inv(n, World(s', p')) && Preserves(n, s, s') && (p'.Reclaiming? ==> SpoolImported(n, s', []))
    decreases |lucks|
  {
    if lucks != [] && p.Recovering? {
      RecoverStepPreserves(n, s, p, lucks[0]);
      var (s', p') := RecoverStep(n, s, p, lucks[0]);
      RecoveryPassKeeps(n, s', p', lucks[1..]);
    }
  }
}
