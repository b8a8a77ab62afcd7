/** Reading coinbases back: the share-detail decoder, the block-tip height parser, and what each recovers. */
module CoinbaseDecode {
  import opened Results
  import opened Bytes
  import opened CoinbaseScript
  import opened Payouts
  import opened Transactions
  import opened CoinbaseTx

  // ---------------------------------------------------------------- heights

  /** The height a share's coinbase script shows: one to four bytes behind a matching push opcode, else 0. */
  function ScriptHeight(script: seq<byte>): (h: nat)
    ensures h < 0x1_0000_0000
  {
    if script == [] || script[0] < 1 || script[0] > 4 || 1 + script[0] > |script| then 0
    else
      ScriptHeightBound(script[1..1 + script[0]]);
      LEVal(script[1..1 + script[0]])
  }

  lemma ScriptHeightBound(b: seq<byte>)
    requires |b| <= 4
    ensures LEVal(b) < 0x1_0000_0000
  {
    Pow256Facts();
    assert Pow256(3) == 0x100_0000 && Pow256(0) == 1;
    LEValBound(b);
  }

  /** How many bytes a number takes, by ranges. */
  lemma FourByteNumbers(n: i64)
    requires n >= 0
    ensures |NumberBody(n)| <= 4 <==> n < 0x8000_0000
  {
    Pow256Facts();
    assert Pow256(3) == 0x100_0000;
    if n < 0x8000_0000 {
      NumberBodyLength(n, 4);
    } else {
      NumberBodyMonotone(0x8000_0000, n);
      FirstFiveByteNumber();
    }
  }

  lemma FirstFiveByteNumber()
    ensures |NumberBody(0x8000_0000)| == 5
  {
    assert |NumberBody(0x80)| == 2 by { assert NumberBody(0x80) == [0x80] + NumberBody(0); }
    assert NumberBody(0x8000) == [0] + NumberBody(0x80);
    assert NumberBody(0x80_0000) == [0] + NumberBody(0x8000);
    assert NumberBody(0x8000_0000) == [0] + NumberBody(0x80_0000);
  }

  lemma NegativeHeight(h: i64, rest: seq<byte>)
    requires h < 0
    ensures ScriptHeight(NumberScript(h) + rest) >= 0 > h
  {
  }

  /** The share decoder recovers exactly the heights it has room for: 0, and 17 up to 2^31 - 1. */
  lemma ShareDecoderRecoversHeightIff(h: i64, rest: seq<byte>)
    ensures ScriptHeight(NumberScript(h) + rest) == h <==> h == 0 || 17 <= h < 0x8000_0000
  {
    var script := NumberScript(h) + rest;
    if h < 0 {
      NegativeHeight(h, rest);
    } else if 1 <= h <= 16 {
      assert script[0] == 0x50 + h;
    } else {
      Int64NeedsEightBytes(h);
      FourByteNumbers(h);
      NumberBodyValue(h);
      assert script[0] == |NumberBody(h)|;
      if |NumberBody(h)| <= 4 {
        assert script[1..1 + script[0]] == NumberBody(h);
      }
    }
  }

  function PushData(script: seq<byte>): Option<seq<byte>> {
    if script == [] then None
    else
      var op: int := script[0];
      if op <= 0x4b then (if |script| < 1 + op then None else Some(script[1..1 + op]))
      else if op == 0x4c then
        (if |script| < 2 || |script| < 2 + Field(script, 1, 2) then None
         else Some(script[2..2 + Field(script, 1, 2)]))
      else if op == 0x4d then
        (if |script| < 3 || |script| < 3 + Field(script, 1, 3) then None
         else Some(script[3..3 + Field(script, 1, 3)]))
      else if op == 0x4e then
        (if |script| < 5 || |script| < 5 + Field(script, 1, 5) then None
         else Some(script[5..5 + Field(script, 1, 5)]))
      else None
  }

  lemma WrapCongruent(x: int, y: int, k: int)
    requires x == y + 0x1_0000_0000_0000_0000 * k
    ensures WrapI64(x) == WrapI64(y)
  {
    var q, r := y / 0x1_0000_0000_0000_0000, y % 0x1_0000_0000_0000_0000;
    assert x == 0x1_0000_0000_0000_0000 * (q + k) + r;
    assert x % 0x1_0000_0000_0000_0000 == r;
  }

  lemma WrapStep(x: int, c: byte)
    ensures WrapI64(256 * WrapI64(x) + c) == WrapI64(256 * x + c)
  {
    var k := (x - WrapI64(x)) / 0x1_0000_0000_0000_0000;
    WrapCongruent(256 * x + c, 256 * WrapI64(x) + c, 256 * k);
  }

  /** Folds from the last byte to the first, wrapping as an int64 does. */
  method BytesToInt64(b: seq<byte>) returns (v: i64)
    ensures v == WrapI64(LEVal(b))
  {
    v := 0;
    var i := |b|;
    while i > 0
      invariant 0 <= i <= |b| && v == WrapI64(LEVal(b[i..]))
    {
      i := i - 1;
      WrapStep(LEVal(b[i + 1..]), b[i]);
      assert b[i..][1..] == b[i + 1..];
      v := WrapI64(256 * v + b[i]);
    }
    assert b[0..] == b;
  }

  /** The height in the first transaction of a serialized block. */
  function BlockHeight(block: seq<byte>): Option<i64> {
    if |block| <= 80 then None
    else
      var count := ReadVarInt(block[80..]);
      if count.None? || count.value.0 == 0 then None
      else CoinbaseHeight(block[80..][count.value.1..])
  }

  /** The height in a transaction read as a coinbase, whatever follows it. */
  function CoinbaseHeight(raw: seq<byte>): Option<i64> {
    if |raw| < 4 then None
    else
      var inputs := ReadVarInt(raw[4..]);
      if inputs.None? || inputs.value.0 == 0 || |raw| < 4 + inputs.value.1 + 36 then None
      else
        var rest := raw[4 + inputs.value.1 + 36..];
        var len := ReadVarInt(rest);
        if len.None? || len.value.1 + len.value.0 > |rest| then None
        else
          var push := PushData(rest[len.value.1..len.value.1 + len.value.0]);
          if push.None? then None else Some(WrapI64(LEVal(push.value)))
  }

  lemma WrapIsIdentity(v: i64)
    ensures WrapI64(v) == v
  {
    if v < 0 {
      assert (v + 0x1_0000_0000_0000_0000) % 0x1_0000_0000_0000_0000 == v + 0x1_0000_0000_0000_0000;
    }
  }

  /** A number that is pushed, not an opcode, comes back through the push parser. */
  lemma PushedNumberReadsBack(h: i64, rest: seq<byte>)
    requires h == 0 || h >= 17
    ensures PushData(NumberScript(h) + rest).Some? && LEVal(PushData(NumberScript(h) + rest).value) == h
  {
    Int64NeedsEightBytes(h);
    NumberBodyValue(h);
    var script := NumberScript(h) + rest;
    assert script[0] == |NumberBody(h)|;
    assert script[1..1 + script[0]] == NumberBody(h);
  }

  /** The opcodes OP_1 to OP_16 are not understood as pushes. */
  lemma SmallHeightsAreRefused(h: i64, rest: seq<byte>)
    requires 1 <= h <= 16
    ensures PushData(NumberScript(h) + rest).None?
  {
    assert (NumberScript(h) + rest)[0] == 0x50 + h;
  }

  // ---------------------------------------------------------------- the decoded share

  datatype SeenOut = SeenOut(value: int, script: seq<byte>)

  datatype Detail = Detail(
    version: int, height: nat, locktime: nat, total: int, subsidy: nat, fees: nat, outputs: seq<SeenOut>)

  function Signed32(v: nat): int {
    if v < 0x8000_0000 then v else v - 0x1_0000_0000
  }

  /** `x >> n` for a number that is not negative. */
  function ShiftRight(x: nat, n: nat): nat {
    if n == 0 then x else ShiftRight(x, n - 1) / 2
  }

  /** Fifty coins, halved every 210000 blocks, in whole satoshis. */
  function Subsidy(height: nat): nat {
    var halvings := height / 210000;
    if halvings >= 64 then 0 else ShiftRight(5_000_000_000, halvings)
  }

  lemma {:induction false} ShiftIsSmall(x: nat, n: nat, k: nat)
    requires k <= n
    ensures ShiftRight(x, n) <= ShiftRight(x, k)
  {
    if k < n {
      ShiftIsSmall(x, n - 1, k);
    }
  }

  lemma ShiftEight(x: nat, n: nat)
    ensures ShiftRight(x, n + 8) == ShiftRight(x, n) / 256
  {
    var y := ShiftRight(x, n);
    assert ShiftRight(x, n + 2) == ShiftRight(x, n + 1) / 2 == y / 2 / 2 == y / 4;
    assert ShiftRight(x, n + 4) == ShiftRight(x, n + 3) / 2 == y / 4 / 2 / 2 == y / 16;
    assert ShiftRight(x, n + 6) == ShiftRight(x, n + 5) / 2 == y / 16 / 2 / 2 == y / 64;
    assert ShiftRight(x, n + 8) == ShiftRight(x, n + 7) / 2 == y / 64 / 2 / 2 == y / 256;
  }

  lemma FiftyCoinsRunOut()
    ensures ShiftRight(5_000_000_000, 63) == 0
  {
    ShiftEight(5_000_000_000, 0);
    ShiftEight(5_000_000_000, 8);
    ShiftEight(5_000_000_000, 16);
    ShiftEight(5_000_000_000, 24);
    ShiftEight(5_000_000_000, 32);
    ShiftIsSmall(5_000_000_000, 63, 40);
  }

  /** The subsidy starts at fifty coins and halves with every era; cutting it off after 64 eras changes nothing. */
  lemma SubsidyHalves(height: nat)
    ensures height < 210000 ==> Subsidy(height) == 5_000_000_000
    ensures height >= 210000 ==> Subsidy(height) == Subsidy(height - 210000) / 2
  {
    var n := height / 210000;
    if height >= 210000 {
      assert (height - 210000) / 210000 == n - 1;
      if n == 64 {
        FiftyCoinsRunOut();
      }
    }
  }

  // ---------------------------------------------------------------- the decoder, on what is left to read

  /** The script of the input at the front. */
  function FrontScript(raw: seq<byte>): seq<byte>
    requires SkipIn(raw).Some?
  {
    var len := ReadVarInt(raw[36..]).value;
    raw[36..][len.1..len.1 + len.0]
  }

  /** The height the input at the front shows, 0 when there is no whole input. */
  function FrontHeight(raw: seq<byte>): nat {
    if SkipIn(raw).None? then 0 else ScriptHeight(FrontScript(raw))
  }

  function SeeOut(raw: seq<byte>): Option<(SeenOut, seq<byte>)> {
    if |raw| < 8 then None
    else
      var len := ReadVarInt(raw[8..]);
      if len.None? || len.value.1 + len.value.0 > |raw[8..]| then None
      else
        var script := raw[8..][len.value.1..len.value.1 + len.value.0];
        Some((SeenOut(WrapI64(Field(raw, 0, 8)), script), raw[8..][len.value.1 + len.value.0..]))
  }

  /** `n` parts of the same kind, collected. */
  function SeeMany<T>(see: seq<byte> -> Option<(T, seq<byte>)>, raw: seq<byte>, n: nat): Option<(seq<T>, seq<byte>)>
    decreases n
  {
    if n == 0 then Some(([], raw))
    else
      var first := see(raw);
      if first.None? then None
      else
        var rest := SeeMany(see, first.value.1, n - 1);
        if rest.None? then None else Some(([first.value.0] + rest.value.0, rest.value.1))
  }

  /** The running int64 total. */
  function RunningTotal(start: int, outs: seq<SeenOut>): int
    decreases |outs|
  {
    if outs == [] then start else RunningTotal(WrapI64(start + outs[0].value), outs[1..])
  }

  /** Count and outputs. */
  function SeeOutGroup(raw: seq<byte>): Option<(seq<SeenOut>, seq<byte>)> {
    var count := ReadVarInt(raw);
    if count.None? then None else SeeMany(SeeOut, raw[count.value.1..], count.value.0)
  }

  /** The amounts that follow from a height and a total. */
  function WithAmounts(d: Detail, total: int): Detail {
    var t := d.(total := total);
    if d.height == 0 then t
    else
      var s := t.(subsidy := Subsidy(d.height));
      if total >= s.subsidy then s.(fees := total - s.subsidy) else s
  }

  /** What is left for the locktime: after the witness stacks of all inputs in the witness form. */
  function AtLocktime(raw: seq<byte>, segwit: bool, inputs: nat): (r: Option<seq<byte>>)
    ensures r.Some? ==> |r.value| >= 4
  {
    var end := if segwit then SkipMany(SkipStack, raw, inputs) else Some(raw);
    if end.None? || |end.value| < 4 then None else end
  }

  /** The outputs, the witness stacks and the locktime. */
  function AfterInputs(d: Detail, raw: seq<byte>, segwit: bool, inputs: nat): Detail {
    var outs := SeeOutGroup(raw);
    if outs.None? then d
    else
      var end := AtLocktime(outs.value.1, segwit, inputs);
      if end.None? then d
      else
        WithAmounts(
          d.(locktime := Field(end.value, 0, 4), outputs := outs.value.0), RunningTotal(0, outs.value.0))
  }

  /** How many inputs, the height the first one shows, and what is left; None for no inputs or a cut-off one. */
  function SeeInputs(raw: seq<byte>): Option<(nat, nat, seq<byte>)> {
    var count := ReadVarInt(raw);
    if count.None? || count.value.0 == 0 then None
    else
      var body := raw[count.value.1..];
      var after := SkipMany(SkipIn, body, count.value.0);
      if after.None? then None else Some((count.value.0, FrontHeight(body), after.value))
  }

  function AfterVersion(d: Detail, raw: seq<byte>, segwit: bool): Detail {
    match SeeInputs(raw)
    case None => d
    case Some((inputs, height, rest)) => AfterInputs(d.(height := height), rest, segwit, inputs)
  }

  /** What decoding leaves in a share detail: fields are set as far as the bytes can be read. */
  function Decode(d: Detail, raw: seq<byte>): Detail {
    if |raw| < 4 then d
    else
      var segwit := |raw| >= 6 && raw[4] == 0 && raw[5] == 1;
      AfterVersion(d.(version := Signed32(Field(raw, 0, 4))), raw[if segwit then 6 else 4..], segwit)
  }

  // ---------------------------------------------------------------- decoding undoes building

  function Seen(outs: seq<TxOut>): (seen: seq<SeenOut>)
    ensures |seen| == |outs|
    ensures forall i :: 0 <= i < |outs| ==> seen[i] == SeenOut(WrapI64(outs[i].value), outs[i].script)
  {
    if outs == [] then [] else [SeenOut(WrapI64(outs[0].value), outs[0].script)] + Seen(outs[1..])
  }

  lemma FieldOfLE(v: u64, n: nat, rest: seq<byte>)
    requires v < Pow256(n)
    ensures Field(LE(v, n) + rest, 0, n) == v
  {
    var raw := LE(v, n) + rest;
    FieldIsLEVal(raw, 0, n);
    assert raw[0..n] == LE(v, n);
    LERoundTrip(v, n);
  }

  lemma SeeOutOf(o: TxOut, rest: seq<byte>)
    ensures SeeOut(EncodeOut(o) + rest) == Some((SeenOut(WrapI64(o.value), o.script), rest))
  {
    var after := o.script + rest;
    var raw := EncodeOut(o) + rest;
    Assoc(LE(o.value, 8), Counted(o.script), rest);
    Assoc(VarInt(|o.script|), o.script, rest);
    AfterPrefix(LE(o.value, 8), VarInt(|o.script|) + after);
    ReadVarIntOfVarInt(|o.script|, after);
    Pow256Facts();
    FieldOfLE(o.value, 8, VarInt(|o.script|) + after);
    var tail := VarInt(|o.script|) + after;
    assert tail[|VarInt(|o.script|)|..|VarInt(|o.script|)| + |o.script|] == o.script;
    assert tail[|VarInt(|o.script|)| + |o.script|..] == rest;
  }

  lemma {:induction false} SeeOutsOf(outs: seq<TxOut>, rest: seq<byte>)
    ensures SeeMany(SeeOut, EncodeOuts(outs) + rest, |outs|) == Some((Seen(outs), rest))
  {
    if outs == [] {
      assert EncodeOuts(outs) + rest == rest;
    } else {
      Assoc(EncodeOut(outs[0]), EncodeOuts(outs[1..]), rest);
      SeeOutOf(outs[0], EncodeOuts(outs[1..]) + rest);
      SeeOutsOf(outs[1..], rest);
    }
  }

  lemma {:induction false} TotalOfSeen(start: int, outs: seq<TxOut>, payouts: seq<Output>)
    requires |outs| == |payouts| && forall i :: 0 <= i < |outs| ==> outs[i].value == payouts[i].value
    requires start >= 0 && start + Total(payouts) < 0x8000_0000_0000_0000 && Payable(payouts)
    ensures RunningTotal(start, Seen(outs)) == start + Total(payouts)
    decreases |outs|
  {
    if outs != [] {
      TotalNonnegative(payouts[1..]);
      WrapIsIdentity(outs[0].value);
      WrapIsIdentity(start + outs[0].value);
      assert Seen(outs)[1..] == Seen(outs[1..]);
      TotalOfSeen(start + outs[0].value, outs[1..], payouts[1..]);
    }
  }

  lemma {:induction false} TotalNonnegative(payouts: seq<Output>)
    requires Payable(payouts)
    ensures Total(payouts) >= 0
  {
    if payouts != [] {
      TotalNonnegative(payouts[1..]);
    }
  }

  lemma {:induction false} PlaceKeepsTotal(x: Output, sorted: seq<Output>)
    ensures Total(Place(x, sorted)) == x.value + Total(sorted)
  {
    assert ([x] + sorted)[1..] == sorted;
    if sorted != [] && x.value < sorted[0].value {
      PlaceKeepsTotal(x, sorted[1..]);
    }
  }

  lemma {:induction false} OrderedKeepsTotal(xs: seq<Output>)
    ensures Total(Ordered(xs)) == Total(xs)
  {
    if xs != [] {
      OrderedKeepsTotal(xs[1..]);
      PlaceKeepsTotal(xs[0], Ordered(xs[1..]));
    }
  }

  lemma TotalAfterCommitment(commitment: Text, ordered: seq<Output>, outs: seq<TxOut>)
    requires Payable(ordered) && Total(ordered) < 0x8000_0000_0000_0000
    requires outs == [TxOut(0, commitment)] + AsTxOuts(ordered)
    ensures RunningTotal(0, Seen(outs)) == Total(ordered)
  {
    var all := [Output([], 0)] + ordered;
    assert all[1..] == ordered;
    TotalOfSeen(0, outs, all);
  }

  /** The commitment adds nothing to the total, and the order of the payouts does not matter. */
  lemma TotalOfBuilt(commitment: Text, payouts: seq<Output>)
    requires Payable(payouts) && Total(payouts) < 0x8000_0000_0000_0000
    ensures RunningTotal(0, Seen(OutputList(commitment, payouts))) == Total(payouts)
  {
    OrderedPayable(payouts);
    OrderedKeepsTotal(payouts);
    var ordered := Ordered(payouts);
    if commitment == [] {
      assert OutputList(commitment, payouts) == AsTxOuts(ordered);
      TotalOfSeen(0, AsTxOuts(ordered), ordered);
    } else {
      TotalAfterCommitment(commitment, ordered, OutputList(commitment, payouts));
    }
  }

  lemma SeeOutGroupOf(tx: Tx)
    requires WellFormed(tx)
    ensures SeeOutGroup(OutsGroup(tx.outs) + tx.locktime) == Some((Seen(tx.outs), tx.locktime))
  {
    var after := EncodeOuts(tx.outs) + tx.locktime;
    Assoc(VarInt(|tx.outs|), EncodeOuts(tx.outs), tx.locktime);
    ReadVarIntOfVarInt(|tx.outs|, after);
    AfterPrefix(VarInt(|tx.outs|), after);
    SeeOutsOf(tx.outs, tx.locktime);
  }

  /** The front script of an encoded input is its script. */
  lemma FrontScriptOf(i: TxIn, rest: seq<byte>)
    ensures SkipIn(EncodeIn(i) + rest) == Some(rest) && FrontScript(EncodeIn(i) + rest) == i.script
  {
    InsConsumed();
    var raw := EncodeIn(i) + rest;
    var after := i.script + (i.sequence + rest);
    Assoc(i.prevout, Counted(i.script) + i.sequence, rest);
    Assoc(Counted(i.script), i.sequence, rest);
    Assoc(VarInt(|i.script|), i.script, i.sequence + rest);
    AfterPrefix(i.prevout, VarInt(|i.script|) + after);
    ReadVarIntOfVarInt(|i.script|, after);
    var tail := VarInt(|i.script|) + after;
    assert tail[|VarInt(|i.script|)|..|VarInt(|i.script|)| + |i.script|] == i.script;
  }

  /** The bytes of a one-input legacy transaction up to where the decoder splits them. */
  lemma LegacyFront(tx: Tx)
    requires WellFormed(tx) && |tx.ins| == 1
    ensures
      var tail := EncodeIn(tx.ins[0]) + (OutsGroup(tx.outs) + tx.locktime);
      && Legacy(tx) == tx.version + ([1] + tail)
      && Legacy(tx)[4..] == [1] + tail && Legacy(tx)[4] == 1
  {
    var tail := EncodeIn(tx.ins[0]) + (OutsGroup(tx.outs) + tx.locktime);
    assert tx.ins == [tx.ins[0]];
    SingleIn(tx.ins[0]);
    Assoc(VarInt(1), EncodeIn(tx.ins[0]), OutsGroup(tx.outs));
    Assoc(VarInt(1), EncodeIn(tx.ins[0]) + OutsGroup(tx.outs), tx.locktime);
    Assoc(EncodeIn(tx.ins[0]), OutsGroup(tx.outs), tx.locktime);
    AfterPrefix(tx.version, [1] + tail);
  }

  lemma AfterInputsOf(d: Detail, tx: Tx)
    requires WellFormed(tx)
    ensures AfterInputs(d, OutsGroup(tx.outs) + tx.locktime, false, |tx.ins|) ==
            WithAmounts(d.(locktime := LEVal(tx.locktime), outputs := Seen(tx.outs)), RunningTotal(0, Seen(tx.outs)))
  {
    SeeOutGroupOf(tx);
    FieldIsLEVal(tx.locktime, 0, 4);
    assert tx.locktime[0..4] == tx.locktime;
  }

  lemma AfterVersionOf(d: Detail, i: TxIn, after: seq<byte>)
    ensures AfterVersion(d, [1] + (EncodeIn(i) + after), false) ==
            AfterInputs(d.(height := ScriptHeight(i.script)), after, false, 1)
  {
    var body := EncodeIn(i) + after;
    ReadVarIntOfVarInt(1, body);
    AfterPrefix([1], body);
    FrontScriptOf(i, after);
    OneMove(body, after);
  }

  /** Decoding any one-input legacy transaction. */
  lemma DecodeOfLegacy(d: Detail, tx: Tx)
    requires WellFormed(tx) && |tx.ins| == 1
    ensures
      Decode(d, Legacy(tx)) ==
      WithAmounts(
        d.(version := Signed32(LEVal(tx.version)), height := ScriptHeight(tx.ins[0].script),
           locktime := LEVal(tx.locktime), outputs := Seen(tx.outs)),
        RunningTotal(0, Seen(tx.outs)))
  {
    var raw := Legacy(tx);
    LegacyFront(tx);
    FieldIsLEVal(raw, 0, 4);
    assert raw[0..4] == tx.version;
    var versioned := d.(version := Signed32(LEVal(tx.version)));
    AfterVersionOf(versioned, tx.ins[0], OutsGroup(tx.outs) + tx.locktime);
    AfterInputsOf(versioned.(height := ScriptHeight(tx.ins[0].script)), tx);
  }

  lemma OneMove(body: seq<byte>, after: seq<byte>)
    requires SkipIn(body) == Some(after)
    ensures SkipMany(SkipIn, body, 1) == Some(after)
  {
    assert SkipMany(SkipIn, after, 0) == Some(after);
  }

  lemma ScriptStartsWithHeight(r: Recipe, area: Text)
    requires Buildable(r, |area|)
    ensures
      var rest := (r.flags + NumberScript(r.scriptTime) + [|area| % 256]) + (area + Part2(r));
      Coinbase(r, area).ins[0].script == NumberScript(r.height) + rest
  {
    var n, f, t, k := NumberScript(r.height), r.flags, NumberScript(r.scriptTime), [|area| % 256];
    assert n + f + t + k == n + (f + t + k);
    Assoc(n + (f + t + k), area, Part2(r));
    Assoc(n, f + t + k, area + Part2(r));
  }

  lemma ShownHeight(r: Recipe, area: Text)
    requires Buildable(r, |area|)
    ensures ScriptHeight(Coinbase(r, area).ins[0].script) == r.height <==>
            r.height == 0 || 17 <= r.height < 0x8000_0000
  {
    ScriptStartsWithHeight(r, area);
    ShareDecoderRecoversHeightIff(
      r.height, (r.flags + NumberScript(r.scriptTime) + [|area| % 256]) + (area + Part2(r)));
  }

  /** A coinbase's version is one, its locktime zero, and its values add up to the payouts. */
  lemma CoinbaseNumbers(r: Recipe, area: Text)
    requires Buildable(r, |area|) && Payable(r.payouts) && Total(r.payouts) < 0x8000_0000_0000_0000
    ensures
      var tx := Coinbase(r, area);
      && |tx.ins| == 1 && LEVal(tx.version) == 1 && LEVal(tx.locktime) == 0
      && tx.outs == OutputList(r.commitment, r.payouts)
      && RunningTotal(0, Seen(tx.outs)) == Total(r.payouts)
  {
    Pow256Facts();
    LERoundTrip(1, 4);
    LERoundTrip(0, 4);
    TotalOfBuilt(r.commitment, r.payouts);
  }

  lemma AmountsKeepTheRest(d: Detail, total: int)
    ensures
      var e := WithAmounts(d, total);
      && e.version == d.version && e.height == d.height && e.locktime == d.locktime && e.outputs == d.outputs
      && e.total == total
      && (d.height > 0 ==> e.subsidy == Subsidy(d.height))
      && (d.height > 0 && total >= e.subsidy ==> e.subsidy + e.fees == total)
  {
  }

  /**
   Decoding undoes building: version, locktime, the outputs in the order they were written, their sum, and every
   height the share decoder has room for; subsidy and fees then split the sum.
   */
  lemma DecodeUndoesBuild(d: Detail, r: Recipe, area: Text)
    requires Buildable(r, |area|) && Payable(r.payouts) && Total(r.payouts) < 0x8000_0000_0000_0000
    ensures
      var seen := Decode(d, Legacy(Coinbase(r, area)));
      && seen.version == 1 && seen.locktime == 0 && seen.total == Total(r.payouts)
      && seen.outputs == Seen(OutputList(r.commitment, r.payouts))
      && (seen.height == r.height <==> r.height == 0 || 17 <= r.height < 0x8000_0000)
      && (seen.height > 0 && seen.total >= seen.subsidy ==> seen.subsidy + seen.fees == seen.total)
  {
    var tx := Coinbase(r, area);
    CoinbaseNumbers(r, area);
    ShownHeight(r, area);
    DecodeOfLegacy(d, tx);
    AmountsKeepTheRest(
      d.(version := Signed32(LEVal(tx.version)), height := ScriptHeight(tx.ins[0].script),
         locktime := LEVal(tx.locktime), outputs := Seen(tx.outs)),
      RunningTotal(0, Seen(tx.outs)));
  }

  /** In the decoded outputs the commitment comes first and the payouts follow in order. */
  lemma DecodedOutputs(commitment: Text, payouts: seq<Output>, i: nat)
    requires Payable(payouts) && i < |payouts|
    ensures
      var seen := Seen(OutputList(commitment, payouts));
      var first := if commitment == [] then 0 else 1;
      && |seen| == first + |payouts|
      && (first == 1 ==> seen[0] == SeenOut(0, commitment))
      && seen[first + i] == SeenOut(Ordered(payouts)[i].value, Ordered(payouts)[i].script)
  {
    OrderedPayable(payouts);
    var ordered := Ordered(payouts);
    assert ordered[i] in ordered;
    WrapIsIdentity(ordered[i].value);
    SeenAfterCommitment(if commitment == [] then [] else [TxOut(0, commitment)], AsTxOuts(ordered), i);
  }

  lemma SeenAfterCommitment(head: seq<TxOut>, outs: seq<TxOut>, i: nat)
    requires i < |outs|
    ensures Seen(head + outs)[|head| + i] == SeenOut(WrapI64(outs[i].value), outs[i].script)
    ensures head != [] ==> Seen(head + outs)[0] == SeenOut(WrapI64(head[0].value), head[0].script)
  {
    assert (head + outs)[|head| + i] == outs[i];
  }

  // ---------------------------------------------------------------- assembled blocks

  function DecodeAllHex(txs: seq<string>): Option<seq<byte>> {
    if txs == [] then Some([])
    else
      var first, rest := HexDecode(txs[0]), DecodeAllHex(txs[1..]);
      if first.None? || rest.None? then None else Some(first.value + rest.value)
  }

  lemma {:induction false} DecodeAllHexSnoc(txs: seq<string>, tx: string)
    ensures
      var before, one := DecodeAllHex(txs), HexDecode(tx);
      DecodeAllHex(txs + [tx]) ==
      if before.None? || one.None? then None else Some(before.value + one.value)
  {
    if txs == [] {
      assert [tx][1..] == [] && [] + [tx] == [tx];
      if HexDecode(tx).Some? { assert HexDecode(tx).value + [] == HexDecode(tx).value == [] + HexDecode(tx).value; }
    } else {
      assert (txs + [tx])[1..] == txs[1..] + [tx];
      DecodeAllHexSnoc(txs[1..], tx);
      if DecodeAllHex(txs + [tx]).Some? {
        Assoc(HexDecode(txs[0]).value, DecodeAllHex(txs[1..]).value, HexDecode(tx).value);
      }
    }
  }

  lemma {:induction false} DecodeAllHexPrefix(txs: seq<string>, i: nat)
    requires i <= |txs| && DecodeAllHex(txs[..i]).None?
    ensures DecodeAllHex(txs).None?
  {
    if i > 0 {
      assert txs[..i][1..] == txs[1..][..i - 1];
      if HexDecode(txs[0]).Some? {
        DecodeAllHexPrefix(txs[1..], i - 1);
      }
    }
  }

  method AssembleSolvedBlock(header: seq<byte>, coinbase: seq<byte>, txs: seq<string>)
    returns (ok: bool, blockHex: string)
    requires |txs| < 0x8000_0000
    ensures ok == (|header| == 80 && coinbase != [] && DecodeAllHex(txs).Some?)
    ensures ok ==> HexDecode(blockHex) == Some(header + VarInt(1 + |txs|) + coinbase + DecodeAllHex(txs).value)
  {
    blockHex := "";
    if |header| != 80 || coinbase == [] {
      return false, blockHex;
    }
    var front := header + VarInt(1 + |txs|) + coinbase;
    var buf := front;
    var i := 0;
    while i < |txs|
      invariant 0 <= i <= |txs| && DecodeAllHex(txs[..i]).Some?
      invariant buf == front + DecodeAllHex(txs[..i]).value
    {
      var raw := HexDecode(txs[i]);
      assert txs[..i + 1] == txs[..i] + [txs[i]];
      DecodeAllHexSnoc(txs[..i], txs[i]);
      if raw.None? {
        DecodeAllHexPrefix(txs, i + 1);
        return false, blockHex;
      }
      Assoc(front, DecodeAllHex(txs[..i]).value, raw.value);
      buf := buf + raw.value;
      i := i + 1;
    }
    assert txs[..i] == txs;
    HexRoundTrip(buf);
    return true, HexEncode(buf);
  }

  lemma HeightAfterHeader(header: seq<byte>, count: u64, rest: seq<byte>)
    requires |header| == 80 && count > 0 && rest != []
    ensures BlockHeight(header + VarInt(count) + rest) == CoinbaseHeight(rest)
  {
    Assoc(header, VarInt(count), rest);
    AfterPrefix(header, VarInt(count) + rest);
    ReadVarIntOfVarInt(count, rest);
    AfterPrefix(VarInt(count), rest);
  }

  /** The script behind its length. */
  lemma ScriptBehindLength(script: Text, after: seq<byte>)
    ensures
      var tail := VarInt(|script|) + (script + after);
      var len := ReadVarInt(tail);
      len == Some((|script|, |VarInt(|script|)|)) && len.value.1 + len.value.0 <= |tail|
      && tail[len.value.1..len.value.1 + len.value.0] == script
  {
    ReadVarIntOfVarInt(|script|, script + after);
    var tail := VarInt(|script|) + (script + after);
    assert tail[|VarInt(|script|)|..|VarInt(|script|)| + |script|] == script;
  }

  lemma HeightOfParts(version: Bytes4, prevout: Prevout, script: Text, after: seq<byte>)
    ensures
      var push := PushData(script);
      CoinbaseHeight(version + ([1] + (prevout + (VarInt(|script|) + (script + after))))) ==
      if push.None? then None else Some(WrapI64(LEVal(push.value)))
  {
    var tail := VarInt(|script|) + (script + after);
    AfterPrefix(version, [1] + (prevout + tail));
    ReadVarIntOfVarInt(1, prevout + tail);
    FortyOneOn(version, prevout, tail);
    ScriptBehindLength(script, after);
  }

  lemma HeightOfLegacy(tx: Tx, rest: seq<byte>)
    requires WellFormed(tx) && |tx.ins| == 1
    ensures
      var push := PushData(tx.ins[0].script);
      CoinbaseHeight(Legacy(tx) + rest) == if push.None? then None else Some(WrapI64(LEVal(push.value)))
  {
    var i := tx.ins[0];
    LegacyTail(tx, rest);
    HeightOfParts(tx.version, i.prevout, i.script, i.sequence + (OutsGroup(tx.outs) + tx.locktime + rest));
  }

  lemma FortyOneOn(version: Bytes4, prevout: Prevout, tail: seq<byte>)
    ensures
      var raw := version + ([1] + (prevout + tail));
      raw[4 + 1 + 36..] == tail && |raw| >= 4 + 1 + 36
  {
    assert version + ([1] + (prevout + tail)) == (version + [1] + prevout) + tail;
    AfterPrefix(version + [1] + prevout, tail);
  }

  lemma LegacyTail(tx: Tx, rest: seq<byte>)
    requires WellFormed(tx) && |tx.ins| == 1
    ensures
      var i := tx.ins[0];
      var after := i.sequence + (OutsGroup(tx.outs) + tx.locktime + rest);
      Legacy(tx) + rest == tx.version + ([1] + (i.prevout + (VarInt(|i.script|) + (i.script + after))))
  {
    var i := tx.ins[0];
    LegacyFront(tx);
    RegroupIn(tx.version, [1], i.prevout, VarInt(|i.script|), i.script, i.sequence, OutsGroup(tx.outs) + tx.locktime,
              rest);
  }

  lemma RegroupIn(
    version: seq<byte>, count: seq<byte>, prevout: seq<byte>, len: seq<byte>, script: seq<byte>, sequence: seq<byte>,
    outs: seq<byte>, rest: seq<byte>)
    ensures version + (count + ((prevout + ((len + script) + sequence)) + outs)) + rest
         == version + (count + (prevout + (len + (script + (sequence + (outs + rest))))))
  {
  }

  lemma PushedHeight(r: Recipe, area: Text)
    requires Buildable(r, |area|) && r.height >= 0
    ensures
      var push := PushData(Coinbase(r, area).ins[0].script);
      push.Some? && WrapI64(LEVal(push.value)) == r.height <==> r.height == 0 || r.height >= 17
  {
    ScriptStartsWithHeight(r, area);
    var more := (r.flags + NumberScript(r.scriptTime) + [|area| % 256]) + (area + Part2(r));
    if 1 <= r.height <= 16 {
      SmallHeightsAreRefused(r.height, more);
    } else {
      PushedNumberReadsBack(r.height, more);
      WrapIsIdentity(r.height);
    }
  }

  /** The tip parser reads back the height of every block the pool assembles, from 17 up (and 0). */
  lemma BlockTipRecoversHeightIff(header: seq<byte>, r: Recipe, area: Text, txs: nat, rest: seq<byte>)
    requires |header| == 80 && Buildable(r, |area|) && r.height >= 0 && txs < 0x8000_0000
    ensures
      var block := header + VarInt(1 + txs) + Legacy(Coinbase(r, area)) + rest;
      BlockHeight(block) == Some(r.height) <==> r.height == 0 || r.height >= 17
  {
    var tx := Coinbase(r, area);
    Assoc(header + VarInt(1 + txs), Legacy(tx), rest);
    HeightAfterHeader(header, 1 + txs, Legacy(tx) + rest);
    HeightOfLegacy(tx, rest);
    PushedHeight(r, area);
  }

  /** A block whose coinbase carries witness data has no height for this parser: the marker reads as no inputs. */
  lemma WitnessCoinbaseHidesHeight(header: seq<byte>, count: u64, tx: Tx, flag: byte, rest: seq<byte>)
    requires |header| == 80 && count > 0 && WellFormed(tx)
    ensures BlockHeight(header + VarInt(count) + (Segwit(tx, flag) + rest)) == None
  {
    HeightAfterHeader(header, count, Segwit(tx, flag) + rest);
    assert (Segwit(tx, flag) + rest)[4..][0] == 0;
  }

  // ---------------------------------------------------------------- the cursor loops of the share decoder

  /** Walks the inputs and notes the height in the first script. */
  method WalkInputs(raw: seq<byte>, start: nat, count: nat) returns (pos: nat, height: nat, ok: bool)
    requires start <= |raw| && count > 0
    ensures SkipMany(SkipIn, raw[start..], count) == Moved(raw, pos, ok)
    ensures ok ==> start <= pos <= |raw| && height == FrontHeight(raw[start..])
  {
    pos, height, ok := start, 0, true;
    var index := 0;
    while ok && index < count
      invariant 0 <= index <= count && start <= pos <= |raw|
      invariant if index == 0 then pos == start else height == FrontHeight(raw[start..])
      invariant SkipMany(SkipIn, raw[start..], count) ==
                if ok then SkipMany(SkipIn, raw[pos..], count - index) else None
    {
      if index == 0 {
        height := FrontHeight(raw[pos..]);
      }
      var next, taken := TakeIn(raw, pos);
      if taken {
        pos, index := next, index + 1;
      } else {
        ok := false;
      }
    }
  }

  method TakeSeenOut(raw: seq<byte>, pos: nat) returns (out: SeenOut, next: nat, ok: bool)
    requires pos <= |raw|
    ensures SeeOut(raw[pos..]) == if ok && next <= |raw| then Some((out, raw[next..])) else None
    ensures ok ==> pos < next <= |raw|
  {
    out, next, ok := SeenOut(0, []), pos, false;
    if pos + 8 > |raw| {
      return;
    }
    var len, after, read := TakeVarInt(raw, pos + 8);
    DropDrop(raw, pos, 8);
    if !read || after + len > |raw| {
      return;
    }
    DropDrop(raw, pos + 8, after + len - pos - 8);
    FieldShift(raw, pos, 0, 8);
    assert raw[pos + 8..][after - pos - 8..after + len - pos - 8] == raw[after..after + len];
    return SeenOut(WrapI64(Field(raw, pos, pos + 8)), raw[after..after + len]), after + len, true;
  }

  lemma {:induction false} FieldShift(raw: seq<byte>, pos: nat, lo: nat, hi: nat)
    requires lo <= hi && pos + hi <= |raw|
    ensures Field(raw[pos..], lo, hi) == Field(raw, pos + lo, pos + hi)
    decreases hi - lo
  {
    if lo < hi {
      FieldShift(raw, pos, lo + 1, hi);
    }
  }

  lemma SeeManyStep<T>(
    see: seq<byte> -> Option<(T, seq<byte>)>, seen: seq<T>, raw: seq<byte>, n: nat, x: T, next: seq<byte>)
    requires n > 0 && see(raw) == Some((x, next))
    ensures JoinSeen(seen, SeeMany(see, raw, n)) == JoinSeen(seen + [x], SeeMany(see, next, n - 1))
  {
    var rest := SeeMany(see, next, n - 1);
    if rest.Some? {
      Assoc(seen, [x], rest.value.0);
    }
  }

  function JoinSeen<T>(seen: seq<T>, rest: Option<(seq<T>, seq<byte>)>): Option<(seq<T>, seq<byte>)> {
    if rest.None? then None else Some((seen + rest.value.0, rest.value.1))
  }

  lemma NothingSeen<T>(rest: Option<(seq<T>, seq<byte>)>)
    ensures JoinSeen([], rest) == rest
  {
    if rest.Some? { assert [] + rest.value.0 == rest.value.0; }
  }

  lemma {:induction false} RunningTotalSnoc(start: int, outs: seq<SeenOut>, out: SeenOut)
    ensures RunningTotal(start, outs + [out]) == WrapI64(RunningTotal(start, outs) + out.value)
    decreases |outs|
  {
    if outs == [] {
      assert [out][1..] == [] && [] + [out] == [out];
    } else {
      assert (outs + [out])[1..] == outs[1..] + [out];
      RunningTotalSnoc(WrapI64(start + outs[0].value), outs[1..], out);
    }
  }

  /** Adds one more value to the running total. */
  method AddValue(total: int, ghost outs: seq<SeenOut>, out: SeenOut) returns (t: int)
    requires total == RunningTotal(0, outs)
    ensures t == RunningTotal(0, outs + [out])
  {
    RunningTotalSnoc(0, outs, out);
    t := WrapI64(total + out.value);
  }

  method WalkOutputs(raw: seq<byte>, start: nat, count: nat)
    returns (outs: seq<SeenOut>, total: int, pos: nat, ok: bool)
    requires start <= |raw|
    ensures SeeMany(SeeOut, raw[start..], count) == if ok && pos <= |raw| then Some((outs, raw[pos..])) else None
    ensures ok ==> start <= pos <= |raw| && total == RunningTotal(0, outs)
  {
    outs, total, pos, ok := [], 0, start, true;
    NothingSeen(SeeMany(SeeOut, raw[start..], count));
    var i := 0;
    while ok && i < count
      invariant 0 <= i <= count && start <= pos <= |raw| && total == RunningTotal(0, outs)
      invariant SeeMany(SeeOut, raw[start..], count) ==
                if ok then JoinSeen(outs, SeeMany(SeeOut, raw[pos..], count - i)) else None
    {
      var out, next, taken := TakeSeenOut(raw, pos);
      if taken {
        SeeManyStep(SeeOut, outs, raw[pos..], count - i, out, raw[next..]);
        total := AddValue(total, outs, out);
        outs := outs + [out];
        pos, i := next, i + 1;
      } else {
        ok := false;
      }
    }
    if ok {
      assert outs + [] == outs;
    }
  }

  method TakeSeenOuts(raw: seq<byte>, start: nat) returns (outs: seq<SeenOut>, total: int, pos: nat, ok: bool)
    requires start <= |raw|
    ensures SeeOutGroup(raw[start..]) == if ok && pos <= |raw| then Some((outs, raw[pos..])) else None
    ensures ok ==> pos <= |raw| && total == RunningTotal(0, outs)
  {
    var count, next, read := TakeVarInt(raw, start);
    outs, total, pos, ok := [], 0, start, read;
    if read {
      outs, total, pos, ok := WalkOutputs(raw, next, count);
    }
  }

  method TakeLocktime(raw: seq<byte>, start: nat, segwit: bool, inputs: nat) returns (locktime: nat, ok: bool)
    requires start <= |raw|
    ensures ok == AtLocktime(raw[start..], segwit, inputs).Some?
    ensures ok ==> locktime == Field(AtLocktime(raw[start..], segwit, inputs).value, 0, 4)
  {
    var pos;
    pos, ok, locktime := start, true, 0;
    if segwit {
      pos, ok := WalkStacks(raw, pos, inputs);
    }
    ok := ok && pos + 4 <= |raw|;
    if ok {
      FieldShift(raw, pos, 0, 4);
      locktime := Field(raw, pos, pos + 4);
    }
  }

  method TakeInputs(raw: seq<byte>, start: nat) returns (inputs: nat, height: nat, pos: nat, ok: bool)
    requires start <= |raw|
    ensures SeeInputs(raw[start..]) == if ok && pos <= |raw| then Some((inputs, height, raw[pos..])) else None
    ensures ok ==> pos <= |raw|
  {
    height, pos := 0, start;
    var first;
    inputs, first, ok := TakeVarInt(raw, start);
    ok := ok && inputs != 0;
    if ok {
      pos, height, ok := WalkInputs(raw, first, inputs);
    }
  }

  class ShareDetail {
    var coinbaseVersion: int
    var coinbaseHeight: nat
    var coinbaseLockTime: nat
    var totalCoinbaseValue: int
    var blockSubsidy: nat
    var transactionFees: nat
    var coinbaseOutputs: seq<SeenOut>

    function View(): Detail
      reads this
    {
      Detail(coinbaseVersion, coinbaseHeight, coinbaseLockTime, totalCoinbaseValue, blockSubsidy, transactionFees,
             coinbaseOutputs)
    }

    method SetAmounts(total: int)
      modifies this`totalCoinbaseValue, this`blockSubsidy, this`transactionFees
      ensures View() == WithAmounts(old(View()), total)
    {
      totalCoinbaseValue := total;
      if coinbaseHeight > 0 {
        blockSubsidy := Subsidy(coinbaseHeight);
        if total >= blockSubsidy {
          transactionFees := total - blockSubsidy;
        }
      }
    }

    /** Outputs, witness stacks and locktime, from the cursor after the inputs. */
    method DecodeOutputs(raw: seq<byte>, start: nat, segwit: bool, inputs: nat)
      requires start <= |raw|
      modifies this
      ensures View() == AfterInputs(old(View()), raw[start..], segwit, inputs)
    {
      var outs, total, pos, ok := TakeSeenOuts(raw, start);
      if ok {
        var locktime, read := TakeLocktime(raw, pos, segwit, inputs);
        if read {
          coinbaseLockTime, coinbaseOutputs := locktime, outs;
          SetAmounts(total);
        }
      }
    }

    method DecodeInputs(raw: seq<byte>, start: nat, segwit: bool)
      requires start <= |raw|
      modifies this
      ensures View() == AfterVersion(old(View()), raw[start..], segwit)
    {
      var inputs, height, pos, ok := TakeInputs(raw, start);
      if ok {
        coinbaseHeight := height;
        DecodeOutputs(raw, pos, segwit, inputs);
      }
    }

    method DecodeCoinbaseFields(coinbase: string)
      modifies this
      ensures
        var raw := HexDecode(coinbase);
        View() == if coinbase == "" || raw.None? then old(View()) else Decode(old(View()), raw.value)
    {
      var decoded := HexDecode(coinbase);
      if coinbase == "" || decoded.None? || |decoded.value| < 4 {
        return;
      }
      var raw := decoded.value;
      coinbaseVersion := Signed32(Field(raw, 0, 4));
      var segwit := |raw| >= 6 && raw[4] == 0 && raw[5] == 1;
      DecodeInputs(raw, if segwit then 6 else 4, segwit);
    }
  }
}
