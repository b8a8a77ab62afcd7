/** Transactions on the wire (BIP 144): both serializations, a parser's cursor moves, and witness stripping. */
module Transactions {
  import opened Results
  import opened Bytes

  type Prevout = b: seq<byte> | |b| == 36 witness Zeros(36)

  type Stack = items: seq<Text> | |items| < 0x8000_0000

  datatype TxIn = TxIn(prevout: Prevout, script: Text, sequence: Bytes4)
  datatype TxOut = TxOut(value: u64, script: Text)

  /** `stacks` has one witness stack for each input. */
  datatype Tx = Tx(version: Bytes4, ins: seq<TxIn>, outs: seq<TxOut>, stacks: seq<Stack>, locktime: Bytes4)

  predicate WellFormed(tx: Tx) {
    1 <= |tx.ins| < 0x8000_0000 && |tx.outs| < 0x8000_0000 && |tx.stacks| == |tx.ins|
  }

  // ---------------------------------------------------------------- serialization

  function EncodeAll<T>(encode: T -> seq<byte>, xs: seq<T>): seq<byte> {
    if xs == [] then [] else encode(xs[0]) + EncodeAll(encode, xs[1..])
  }

  function Counted(b: Text): seq<byte> {
    VarInt(|b|) + b
  }

  function EncodeIn(i: TxIn): seq<byte> {
    i.prevout + (Counted(i.script) + i.sequence)
  }

  function EncodeOut(o: TxOut): seq<byte> {
    LE(o.value, 8) + Counted(o.script)
  }

  function EncodeStack(items: Stack): seq<byte> {
    VarInt(|items|) + EncodeAll(Counted, items)
  }

  function EncodeIns(ins: seq<TxIn>): seq<byte> {
    EncodeAll(EncodeIn, ins)
  }

  function EncodeOuts(outs: seq<TxOut>): seq<byte> {
    EncodeAll(EncodeOut, outs)
  }

  function EncodeStacks(stacks: seq<Stack>): seq<byte> {
    EncodeAll(EncodeStack, stacks)
  }

  function InsGroup(ins: seq<TxIn>): seq<byte>
    requires |ins| < 0x8000_0000
  {
    VarInt(|ins|) + EncodeIns(ins)
  }

  function OutsGroup(outs: seq<TxOut>): seq<byte>
    requires |outs| < 0x8000_0000
  {
    VarInt(|outs|) + EncodeOuts(outs)
  }

  /** Inputs and outputs with their counts: the part both forms share. */
  function EncodeBody(tx: Tx): seq<byte>
    requires WellFormed(tx)
  {
    InsGroup(tx.ins) + OutsGroup(tx.outs)
  }

  function Legacy(tx: Tx): seq<byte>
    requires WellFormed(tx)
  {
    tx.version + (EncodeBody(tx) + tx.locktime)
  }

  function Segwit(tx: Tx, flag: byte): seq<byte>
    requires WellFormed(tx)
  {
    tx.version + ([0, flag] + (EncodeBody(tx) + (EncodeStacks(tx.stacks) + tx.locktime)))
  }

  // ---------------------------------------------------------------- parsing: what is left after a part

  /** After a counted byte string and `extra` fixed bytes. */
  function SkipCounted(raw: seq<byte>, extra: nat): (r: Option<seq<byte>>)
    ensures r.Some? ==> |r.value| < |raw|
  {
    var len := ReadVarInt(raw);
    if len.None? || len.value.1 + len.value.0 + extra > |raw| then None
    else Some(raw[len.value.1 + len.value.0 + extra..])
  }

  function SkipIn(raw: seq<byte>): (r: Option<seq<byte>>)
    ensures r.Some? ==> |r.value| < |raw|
  {
    if |raw| < 36 then None else SkipCounted(raw[36..], 4)
  }

  function SkipOut(raw: seq<byte>): (r: Option<seq<byte>>)
    ensures r.Some? ==> |r.value| < |raw|
  {
    if |raw| < 8 then None else SkipCounted(raw[8..], 0)
  }

  function SkipItem(raw: seq<byte>): (r: Option<seq<byte>>)
    ensures r.Some? ==> |r.value| < |raw|
  {
    SkipCounted(raw, 0)
  }

  /** `n` parts of the same kind. */
  function SkipMany(step: seq<byte> -> Option<seq<byte>>, raw: seq<byte>, n: nat): Option<seq<byte>>
    decreases n
  {
    if n == 0 then Some(raw)
    else
      var next := step(raw);
      if next.None? then None else SkipMany(step, next.value, n - 1)
  }

  lemma {:induction false} SkipManyShrinks(step: seq<byte> -> Option<seq<byte>>, raw: seq<byte>, n: nat)
    requires forall b: seq<byte> :: step(b).Some? ==> |step(b).value| <= |b|
    ensures SkipMany(step, raw, n).Some? ==> |SkipMany(step, raw, n).value| <= |raw|
    decreases n
  {
    if n > 0 && step(raw).Some? {
      SkipManyShrinks(step, step(raw).value, n - 1);
    }
  }

  /** A count and then that many parts: the count and what is left. */
  function SkipGroup(step: seq<byte> -> Option<seq<byte>>, raw: seq<byte>): Option<(nat, seq<byte>)> {
    var count := ReadVarInt(raw);
    if count.None? then None
    else
      var rest := SkipMany(step, raw[count.value.1..], count.value.0);
      if rest.None? then None else Some((count.value.0, rest.value))
  }

  lemma SkipGroupShrinks(step: seq<byte> -> Option<seq<byte>>, raw: seq<byte>)
    requires forall b: seq<byte> :: step(b).Some? ==> |step(b).value| <= |b|
    ensures SkipGroup(step, raw).Some? ==> |SkipGroup(step, raw).value.1| < |raw|
  {
    var count := ReadVarInt(raw);
    if count.Some? {
      SkipManyShrinks(step, raw[count.value.1..], count.value.0);
    }
  }

  function SkipStack(raw: seq<byte>): (r: Option<seq<byte>>)
    ensures r.Some? ==> |r.value| < |raw|
  {
    var r := SkipGroup(SkipItem, raw);
    SkipGroupShrinks(SkipItem, raw);
    if r.None? then None else Some(r.value.1)
  }

  /** How many inputs there are, and what is left after inputs and outputs. */
  function SkipBody(raw: seq<byte>): (r: Option<(nat, seq<byte>)>)
    ensures r.Some? ==> |r.value.1| < |raw|
  {
    var ins := SkipGroup(SkipIn, raw);
    if ins.None? then None
    else
      var outs := SkipGroup(SkipOut, ins.value.1);
      SkipGroupShrinks(SkipIn, raw);
      SkipGroupShrinks(SkipOut, ins.value.1);
      if outs.None? then None else Some((ins.value.0, outs.value.1))
  }

  // ---------------------------------------------------------------- stripping

  predicate HasWitness(raw: seq<byte>)
    requires |raw| >= 6
  {
    raw[4] == 0 && raw[5] != 0
  }

  /** The legacy form of a raw transaction and whether it carried witness data; None on a parse error. */
  function Strip(raw: seq<byte>): Option<(seq<byte>, bool)> {
    if |raw| < 6 then None
    else
      var start := if HasWitness(raw) then 6 else 4;
      var body := SkipBody(raw[start..]);
      if body.None? then None
      else
        var (inputs, rest) := body.value;
        var end := if HasWitness(raw) then SkipMany(SkipStack, rest, inputs) else Some(rest);
        if end.None? || |end.value| != 4 then None
        else if !HasWitness(raw) then Some((raw, false))
        else Some((raw[..4] + raw[start..|raw| - |rest|] + end.value, true))
  }

  // ---------------------------------------------------------------- parsing undoes serialization

  /** The move consumes exactly one encoding, whatever follows. */
  ghost predicate Consumes<T(!new)>(step: seq<byte> -> Option<seq<byte>>, encode: T -> seq<byte>) {
    forall x: T, rest: seq<byte> :: step(encode(x) + rest) == Some(rest)
  }

  lemma {:induction false} SkipManyConsumes<T(!new)>(
    step: seq<byte> -> Option<seq<byte>>, encode: T -> seq<byte>, xs: seq<T>, rest: seq<byte>)
    requires Consumes(step, encode)
    ensures SkipMany(step, EncodeAll(encode, xs) + rest, |xs|) == Some(rest)
    decreases |xs|
  {
    if xs == [] {
      assert EncodeAll(encode, xs) + rest == rest;
    } else {
      var after := EncodeAll(encode, xs[1..]) + rest;
      assert EncodeAll(encode, xs) + rest == encode(xs[0]) + after;
      SkipManyConsumes(step, encode, xs[1..], rest);
    }
  }

  lemma SkipGroupConsumes<T(!new)>(
    step: seq<byte> -> Option<seq<byte>>, encode: T -> seq<byte>, xs: seq<T>, rest: seq<byte>)
    requires Consumes(step, encode) && |xs| < 0x8000_0000
    ensures SkipGroup(step, VarInt(|xs|) + EncodeAll(encode, xs) + rest) == Some((|xs|, rest))
  {
    var after := EncodeAll(encode, xs) + rest;
    Assoc(VarInt(|xs|), EncodeAll(encode, xs), rest);
    ReadVarIntOfVarInt(|xs|, after);
    AfterPrefix(VarInt(|xs|), after);
    SkipManyConsumes(step, encode, xs, rest);
  }

  lemma SkipCountedConsumes(b: Text, fixed: seq<byte>, rest: seq<byte>)
    ensures SkipCounted(Counted(b) + fixed + rest, |fixed|) == Some(rest)
  {
    var raw := Counted(b) + fixed + rest;
    assert raw == VarInt(|b|) + (b + fixed + rest);
    ReadVarIntOfVarInt(|b|, b + fixed + rest);
    AfterPrefix(Counted(b) + fixed, rest);
  }

  lemma InsConsumed()
    ensures Consumes(SkipIn, EncodeIn)
  {
    forall i: TxIn, rest: seq<byte>
      ensures SkipIn(EncodeIn(i) + rest) == Some(rest)
    {
      assert (EncodeIn(i) + rest)[36..] == Counted(i.script) + i.sequence + rest;
      SkipCountedConsumes(i.script, i.sequence, rest);
    }
  }

  lemma OutsConsumed()
    ensures Consumes(SkipOut, EncodeOut)
  {
    forall o: TxOut, rest: seq<byte>
      ensures SkipOut(EncodeOut(o) + rest) == Some(rest)
    {
      assert (EncodeOut(o) + rest)[8..] == Counted(o.script) + [] + rest;
      SkipCountedConsumes(o.script, [], rest);
    }
  }

  lemma StacksConsumed()
    ensures Consumes(SkipStack, EncodeStack)
  {
    forall b: Text, rest: seq<byte>
      ensures SkipItem(Counted(b) + rest) == Some(rest)
    {
      assert Counted(b) + rest == Counted(b) + [] + rest;
      SkipCountedConsumes(b, [], rest);
    }
    assert Consumes(SkipItem, Counted);
    forall items: Stack, rest: seq<byte>
      ensures SkipStack(EncodeStack(items) + rest) == Some(rest)
    {
      SkipGroupConsumes(SkipItem, Counted, items, rest);
    }
  }

  lemma SkipBodyConsumes(tx: Tx, rest: seq<byte>)
    requires WellFormed(tx)
    ensures SkipBody(EncodeBody(tx) + rest) == Some((|tx.ins|, rest))
  {
    var outs := OutsGroup(tx.outs) + rest;
    Assoc(InsGroup(tx.ins), OutsGroup(tx.outs), rest);
    InsConsumed();
    OutsConsumed();
    SkipGroupConsumes(SkipIn, EncodeIn, tx.ins, outs);
    SkipGroupConsumes(SkipOut, EncodeOut, tx.outs, rest);
  }

  lemma BodyStartsNonzero(tx: Tx)
    requires WellFormed(tx)
    ensures |EncodeBody(tx)| >= 2 && EncodeBody(tx)[0] != 0
  {
    assert EncodeBody(tx)[0] == VarInt(|tx.ins|)[0];
  }

  lemma LegacyThen(v: Bytes4, body: seq<byte>, lock: Bytes4, extra: seq<byte>)
    ensures v + (body + lock) + extra == v + (body + (lock + extra))
  {
    Assoc(body, lock, extra);
    Assoc(v, body + lock, extra);
  }

  /** Anything that starts with a legacy form is read as one; only the exact form is accepted. */
  lemma StripLegacyWith(tx: Tx, extra: seq<byte>)
    requires WellFormed(tx)
    ensures Strip(Legacy(tx) + extra) == if extra == [] then Some((Legacy(tx), false)) else None
  {
    var raw, rest := Legacy(tx) + extra, tx.locktime + extra;
    BodyStartsNonzero(tx);
    LegacyThen(tx.version, EncodeBody(tx), tx.locktime, extra);
    AfterPrefix(tx.version, EncodeBody(tx) + rest);
    assert raw[4] == EncodeBody(tx)[0];
    SkipBodyConsumes(tx, rest);
    if extra == [] { assert raw == Legacy(tx); }
  }

  lemma SegwitThen(v: Bytes4, mark: seq<byte>, body: seq<byte>, stacks: seq<byte>, lock: Bytes4, extra: seq<byte>)
    ensures v + (mark + (body + (stacks + lock))) + extra == (v + mark) + (body + (stacks + (lock + extra)))
  {
    Assoc(stacks, lock, extra);
    Assoc(body, stacks + lock, extra);
    Assoc(mark, body + (stacks + lock), extra);
    Assoc(v, mark + (body + (stacks + lock)), extra);
    Assoc(v, mark, body + (stacks + (lock + extra)));
  }

  lemma Marker(v: Bytes4, flag: byte, tail: seq<byte>)
    ensures
      var raw := (v + [0, flag]) + tail;
      raw[..4] == v && raw[4] == 0 && raw[5] == flag && raw[6..] == tail
  {
    var raw := (v + [0, flag]) + tail;
    AfterPrefix(v + [0, flag], tail);
    assert raw[..4] == v && raw[4] == 0 && raw[5] == flag;
  }

  lemma BetweenIs(raw: seq<byte>, from: nat, body: seq<byte>, rest: seq<byte>)
    requires from <= |raw| && raw[from..] == body + rest
    ensures from <= |raw| - |rest| && raw[from..|raw| - |rest|] == body
  {
    assert raw[from..|raw| - |rest|] == raw[from..][..|body|];
  }

  /** What stripping does once version, marker, body and the rest are told apart. */
  lemma StripParts(raw: seq<byte>, body: seq<byte>, rest: seq<byte>, last: seq<byte>, n: nat)
    requires |raw| >= 6 && HasWitness(raw) && raw[6..] == body + rest
    requires SkipBody(raw[6..]) == Some((n, rest)) && SkipMany(SkipStack, rest, n) == Some(last)
    ensures Strip(raw) == if |last| == 4 then Some((raw[..4] + body + last, true)) else None
  {
    BetweenIs(raw, 6, body, rest);
  }

  lemma StripSegwitWith(tx: Tx, flag: byte, extra: seq<byte>)
    requires WellFormed(tx) && flag != 0
    ensures Strip(Segwit(tx, flag) + extra) == if extra == [] then Some((Legacy(tx), true)) else None
  {
    var last := tx.locktime + extra;
    var rest := EncodeStacks(tx.stacks) + last;
    SegwitThen(tx.version, [0, flag], EncodeBody(tx), EncodeStacks(tx.stacks), tx.locktime, extra);
    SkipBodyConsumes(tx, rest);
    StacksConsumed();
    SkipManyConsumes(SkipStack, EncodeStack, tx.stacks, last);
    Marker(tx.version, flag, EncodeBody(tx) + rest);
    StripParts(Segwit(tx, flag) + extra, EncodeBody(tx), rest, last, |tx.ins|);
    if extra == [] {
      assert last == tx.locktime;
      Assoc(tx.version, EncodeBody(tx), tx.locktime);
    }
  }

  /** Stripping inverts the witness form, fixes the legacy form, and rejects anything after either. */
  lemma StripInvertsSerialization(tx: Tx, flag: byte, extra: seq<byte>)
    requires WellFormed(tx) && flag != 0
    ensures Strip(Segwit(tx, flag)) == Some((Legacy(tx), true))
    ensures Strip(Legacy(tx)) == Some((Legacy(tx), false))
    ensures extra != [] ==> Strip(Segwit(tx, flag) + extra).None? && Strip(Legacy(tx) + extra).None?
  {
    StripLegacyWith(tx, extra);
    StripLegacyWith(tx, []);
    StripSegwitWith(tx, flag, extra);
    StripSegwitWith(tx, flag, []);
    assert Segwit(tx, flag) + [] == Segwit(tx, flag) && Legacy(tx) + [] == Legacy(tx);
  }

  // ---------------------------------------------------------------- the cursor loops

  /** What is left at a cursor, if the move succeeded. */
  function Moved(raw: seq<byte>, idx: nat, ok: bool): Option<seq<byte>> {
    if ok && idx <= |raw| then Some(raw[idx..]) else None
  }

  function MovedWith(raw: seq<byte>, count: nat, idx: nat, ok: bool): Option<(nat, seq<byte>)> {
    if ok && idx <= |raw| then Some((count, raw[idx..])) else None
  }

  /** Reads a count at the cursor with the slice parser. */
  method TakeVarInt(raw: seq<byte>, idx: nat) returns (v: nat, next: nat, ok: bool)
    requires idx <= |raw|
    ensures ok == ReadVarInt(raw[idx..]).Some?
    ensures ok ==> ReadVarInt(raw[idx..]) == Some((v, next - idx)) && idx < next <= |raw|
    ensures ok ==> raw[idx..][next - idx..] == raw[next..]
  {
    var r := ReadVarInt(raw[idx..]);
    if r.Some? { DropDrop(raw, idx, r.value.1); }
    match r
    case None => v, next, ok := 0, idx, false;
    case Some((value, used)) => v, next, ok := value, idx + used, true;
  }

  method TakeCounted(raw: seq<byte>, idx: nat, extra: nat) returns (next: nat, ok: bool)
    requires idx <= |raw|
    ensures SkipCounted(raw[idx..], extra) == Moved(raw, next, ok)
    ensures ok ==> idx < next <= |raw|
  {
    var len, after, read := TakeVarInt(raw, idx);
    if !read || after + len + extra > |raw| {
      return idx, false;
    }
    DropDrop(raw, idx, after + len + extra - idx);
    return after + len + extra, true;
  }

  method TakeIn(raw: seq<byte>, idx: nat) returns (next: nat, ok: bool)
    requires idx <= |raw|
    ensures SkipIn(raw[idx..]) == Moved(raw, next, ok)
    ensures ok ==> idx < next <= |raw|
  {
    if idx + 36 > |raw| {
      return idx, false;
    }
    DropDrop(raw, idx, 36);
    next, ok := TakeCounted(raw, idx + 36, 4);
  }

  method TakeOut(raw: seq<byte>, idx: nat) returns (next: nat, ok: bool)
    requires idx <= |raw|
    ensures SkipOut(raw[idx..]) == Moved(raw, next, ok)
    ensures ok ==> idx < next <= |raw|
  {
    if idx + 8 > |raw| {
      return idx, false;
    }
    DropDrop(raw, idx, 8);
    next, ok := TakeCounted(raw, idx + 8, 0);
  }

  method WalkIns(raw: seq<byte>, start: nat, count: nat) returns (idx: nat, ok: bool)
    requires start <= |raw|
    ensures SkipMany(SkipIn, raw[start..], count) == Moved(raw, idx, ok)
    ensures ok ==> start <= idx <= |raw|
  {
    idx, ok := start, true;
    var i := 0;
    while ok && i < count
      invariant 0 <= i <= count && start <= idx <= |raw|
      invariant SkipMany(SkipIn, raw[start..], count) ==
                if ok then SkipMany(SkipIn, raw[idx..], count - i) else None
    {
      var next, taken := TakeIn(raw, idx);
      if taken {
        idx, i := next, i + 1;
      } else {
        ok := false;
      }
    }
  }

  method WalkOuts(raw: seq<byte>, start: nat, count: nat) returns (idx: nat, ok: bool)
    requires start <= |raw|
    ensures SkipMany(SkipOut, raw[start..], count) == Moved(raw, idx, ok)
    ensures ok ==> start <= idx <= |raw|
  {
    idx, ok := start, true;
    var i := 0;
    while ok && i < count
      invariant 0 <= i <= count && start <= idx <= |raw|
      invariant SkipMany(SkipOut, raw[start..], count) ==
                if ok then SkipMany(SkipOut, raw[idx..], count - i) else None
    {
      var next, taken := TakeOut(raw, idx);
      if taken {
        idx, i := next, i + 1;
      } else {
        ok := false;
      }
    }
  }

  method WalkItems(raw: seq<byte>, start: nat, count: nat) returns (idx: nat, ok: bool)
    requires start <= |raw|
    ensures SkipMany(SkipItem, raw[start..], count) == Moved(raw, idx, ok)
    ensures ok ==> start <= idx <= |raw|
  {
    idx, ok := start, true;
    var i := 0;
    while ok && i < count
      invariant 0 <= i <= count && start <= idx <= |raw|
      invariant SkipMany(SkipItem, raw[start..], count) ==
                if ok then SkipMany(SkipItem, raw[idx..], count - i) else None
    {
      var next, taken := TakeCounted(raw, idx, 0);
      if taken {
        idx, i := next, i + 1;
      } else {
        ok := false;
      }
    }
  }

  method TakeIns(raw: seq<byte>, idx: nat) returns (count: nat, next: nat, ok: bool)
    requires idx <= |raw|
    ensures SkipGroup(SkipIn, raw[idx..]) == MovedWith(raw, count, next, ok)
    ensures ok ==> idx < next <= |raw|
  {
    count, next, ok := TakeVarInt(raw, idx);
    if ok {
      next, ok := WalkIns(raw, next, count);
    }
  }

  method TakeOuts(raw: seq<byte>, idx: nat) returns (count: nat, next: nat, ok: bool)
    requires idx <= |raw|
    ensures SkipGroup(SkipOut, raw[idx..]) == MovedWith(raw, count, next, ok)
    ensures ok ==> idx < next <= |raw|
  {
    count, next, ok := TakeVarInt(raw, idx);
    if ok {
      next, ok := WalkOuts(raw, next, count);
    }
  }

  method TakeItems(raw: seq<byte>, idx: nat) returns (count: nat, next: nat, ok: bool)
    requires idx <= |raw|
    ensures SkipGroup(SkipItem, raw[idx..]) == MovedWith(raw, count, next, ok)
    ensures ok ==> idx < next <= |raw|
  {
    count, next, ok := TakeVarInt(raw, idx);
    if ok {
      next, ok := WalkItems(raw, next, count);
    }
  }

  method TakeStack(raw: seq<byte>, idx: nat) returns (next: nat, ok: bool)
    requires idx <= |raw|
    ensures SkipStack(raw[idx..]) == Moved(raw, next, ok)
    ensures ok ==> idx < next <= |raw|
  {
    var items;
    items, next, ok := TakeItems(raw, idx);
  }

  method WalkStacks(raw: seq<byte>, start: nat, count: nat) returns (idx: nat, ok: bool)
    requires start <= |raw|
    ensures SkipMany(SkipStack, raw[start..], count) == Moved(raw, idx, ok)
    ensures ok ==> start <= idx <= |raw|
  {
    idx, ok := start, true;
    var i := 0;
    while ok && i < count
      invariant 0 <= i <= count && start <= idx <= |raw|
      invariant SkipMany(SkipStack, raw[start..], count) ==
                if ok then SkipMany(SkipStack, raw[idx..], count - i) else None
    {
      var next, taken := TakeStack(raw, idx);
      if taken {
        idx, i := next, i + 1;
      } else {
        ok := false;
      }
    }
  }

  method TakeBody(raw: seq<byte>, idx: nat) returns (inputs: nat, next: nat, ok: bool)
    requires idx <= |raw|
    ensures SkipBody(raw[idx..]) == MovedWith(raw, inputs, next, ok)
    ensures ok ==> idx < next <= |raw|
  {
    inputs, next, ok := TakeIns(raw, idx);
    if ok {
      var outputs;
      outputs, next, ok := TakeOuts(raw, next);
    }
  }

  method StripWitnessData(raw: seq<byte>) returns (stripped: Option<(seq<byte>, bool)>)
    ensures stripped == Strip(raw)
  {
    if |raw| < 6 {
      return None;
    }
    var idx := 4;
    var hasWitness := |raw| > idx + 1 && raw[idx] == 0 && raw[idx + 1] != 0;
    if hasWitness {
      idx := idx + 2;
    }
    var inputsStart := idx;
    var vinCount, witnessStart, ok := TakeBody(raw, idx);
    if !ok {
      return None;
    }
    idx := witnessStart;
    if hasWitness {
      idx, ok := WalkStacks(raw, witnessStart, vinCount);
      if !ok {
        return None;
      }
    }
    if idx + 4 > |raw| || idx + 4 != |raw| {
      return None;
    }
    if !hasWitness {
      return Some((raw, false));
    }
    assert raw[idx..idx + 4] == raw[idx..];
    return Some((raw[..4] + raw[inputsStart..witnessStart] + raw[idx..idx + 4], true));
  }
}
