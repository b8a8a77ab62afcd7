/** The coinbase transaction: output order, the direct serializer, the advertised halves and the rebuild from them. */
module CoinbaseTx {
  import opened Results
  import opened Bytes
  import opened CoinbaseScript
  import opened Payouts
  import opened Transactions

  // ---------------------------------------------------------------- largest payout first, ties kept in order

  function Place(x: Output, sorted: seq<Output>): (r: seq<Output>)
    ensures |r| == |sorted| + 1
  {
    if sorted == [] || x.value >= sorted[0].value then [x] + sorted else [sorted[0]] + Place(x, sorted[1..])
  }

  /** The stable sort of the payouts by descending value. */
  function Ordered(xs: seq<Output>): (r: seq<Output>)
    ensures |r| == |xs|
  {
    if xs == [] then [] else Place(xs[0], Ordered(xs[1..]))
  }

  predicate Descending(xs: seq<Output>) {
    forall i, j :: 0 <= i < j < |xs| ==> xs[i].value >= xs[j].value
  }

  function WithValue(xs: seq<Output>, v: int): seq<Output> {
    if xs == [] then [] else (if xs[0].value == v then [xs[0]] else []) + WithValue(xs[1..], v)
  }

  lemma {:induction false} PlaceKeepsItems(x: Output, sorted: seq<Output>)
    ensures multiset(Place(x, sorted)) == multiset([x]) + multiset(sorted)
  {
    if sorted != [] && x.value < sorted[0].value {
      assert sorted == [sorted[0]] + sorted[1..];
      PlaceKeepsItems(x, sorted[1..]);
    }
  }

  lemma {:induction false} PlaceKeepsOrder(x: Output, sorted: seq<Output>, top: int)
    requires Descending(sorted) && x.value <= top && forall i :: 0 <= i < |sorted| ==> sorted[i].value <= top
    ensures Descending(Place(x, sorted))
    ensures forall i :: 0 <= i < |sorted| + 1 ==> Place(x, sorted)[i].value <= top
  {
    if sorted != [] && x.value < sorted[0].value {
      PlaceKeepsOrder(x, sorted[1..], sorted[0].value);
    }
  }

  lemma {:induction false} PlaceIsStable(x: Output, sorted: seq<Output>, v: int)
    requires Descending(sorted)
    ensures WithValue(Place(x, sorted), v) == WithValue([x] + sorted, v)
  {
    assert ([x] + sorted)[1..] == sorted;
    if sorted != [] && x.value < sorted[0].value {
      PlaceIsStable(x, sorted[1..], v);
      assert ([x] + sorted[1..])[1..] == sorted[1..];
    }
  }

  lemma {:induction false} OrderedKeeps(xs: seq<Output>)
    ensures Descending(Ordered(xs)) && multiset(Ordered(xs)) == multiset(xs)
  {
    if xs != [] {
      assert xs == [xs[0]] + xs[1..];
      var sorted := Ordered(xs[1..]);
      OrderedKeeps(xs[1..]);
      PlaceKeepsItems(xs[0], sorted);
      var top := if sorted == [] || sorted[0].value <= xs[0].value then xs[0].value else sorted[0].value;
      PlaceKeepsOrder(xs[0], sorted, top);
    }
  }

  /** Equal values keep the order they came in. */
  lemma {:induction false} OrderedIsStable(xs: seq<Output>, v: int)
    ensures WithValue(Ordered(xs), v) == WithValue(xs, v)
  {
    if xs != [] {
      OrderedKeeps(xs[1..]);
      OrderedIsStable(xs[1..], v);
      PlaceIsStable(xs[0], Ordered(xs[1..]), v);
      assert ([xs[0]] + Ordered(xs[1..]))[1..] == Ordered(xs[1..]);
    }
  }

  lemma {:induction false} NoneWithValue(xs: seq<Output>, v: int)
    requires forall o :: o in xs ==> o.value != v
    ensures WithValue(xs, v) == []
  {
    if xs != [] {
      NoneWithValue(xs[1..], v);
    }
  }

  lemma BothEmptyOrNeither(a: seq<Output>, b: seq<Output>)
    requires forall v :: WithValue(a, v) == WithValue(b, v)
    ensures b == [] ==> a == []
  {
    if a != [] {
      assert WithValue(b, a[0].value) == WithValue(a, a[0].value) == [a[0]] + WithValue(a[1..], a[0].value);
    }
  }

  /** There is only one descending order that keeps ties: any correct stable sort returns `Ordered`. */
  lemma {:induction false} StableOrderIsUnique(a: seq<Output>, b: seq<Output>)
    requires Descending(a) && Descending(b)
    requires forall v :: WithValue(a, v) == WithValue(b, v)
    ensures a == b
  {
    BothEmptyOrNeither(a, b);
    BothEmptyOrNeither(b, a);
    if a != [] {
      if a[0].value > b[0].value { NoneWithValue(b, a[0].value); }
      if b[0].value > a[0].value { NoneWithValue(a, b[0].value); }
      assert WithValue(a, a[0].value)[0] == WithValue(b, a[0].value)[0];
      forall v ensures WithValue(a[1..], v) == WithValue(b[1..], v) {
        assert WithValue(a, v) == WithValue(b, v);
        var head := if a[0].value == v then [a[0]] else [];
        assert (head + WithValue(a[1..], v))[|head|..] == (head + WithValue(b[1..], v))[|head|..];
      }
      StableOrderIsUnique(a[1..], b[1..]);
      assert a == [a[0]] + a[1..] && b == [b[0]] + b[1..];
    }
  }

  // ---------------------------------------------------------------- outputs

  predicate Payable(payouts: seq<Output>) {
    forall o :: o in payouts ==> o.value >= 0
  }

  function AsTxOuts(payouts: seq<Output>): (outs: seq<TxOut>)
    requires Payable(payouts)
    ensures |outs| == |payouts|
    ensures forall i :: 0 <= i < |outs| ==> outs[i] == TxOut(payouts[i].value, payouts[i].script)
  {
    if payouts == [] then [] else [TxOut(payouts[0].value, payouts[0].script)] + AsTxOuts(payouts[1..])
  }

  /** The witness commitment first and for nothing, when there is one; then the payouts in order. */
  function OutputList(commitment: Text, payouts: seq<Output>): (outs: seq<TxOut>)
    requires Payable(payouts)
    ensures |outs| == |payouts| + if commitment == [] then 0 else 1
  {
    OrderedPayable(payouts);
    (if commitment == [] then [] else [TxOut(0, commitment)]) + AsTxOuts(Ordered(payouts))
  }

  lemma {:induction false} PlacePayable(x: Output, sorted: seq<Output>)
    requires x.value >= 0 && Payable(sorted)
    ensures Payable(Place(x, sorted))
  {
    if sorted != [] && x.value < sorted[0].value {
      PlacePayable(x, sorted[1..]);
    }
  }

  lemma {:induction false} OrderedPayable(xs: seq<Output>)
    requires Payable(xs)
    ensures Payable(Ordered(xs))
  {
    if xs != [] {
      OrderedPayable(xs[1..]);
      PlacePayable(xs[0], Ordered(xs[1..]));
    }
  }

  lemma {:induction false} EncodeAllConcat<T>(encode: T -> seq<byte>, a: seq<T>, b: seq<T>)
    ensures EncodeAll(encode, a + b) == EncodeAll(encode, a) + EncodeAll(encode, b)
  {
    if a == [] {
      assert a + b == b;
    } else {
      assert (a + b)[1..] == a[1..] + b;
      EncodeAllConcat(encode, a[1..], b);
    }
  }

  /** The bytes of the first payouts of the ordered list. */
  method WritePayouts(ordered: seq<Output>) returns (bytes: seq<byte>)
    requires Payable(ordered)
    ensures bytes == EncodeOuts(AsTxOuts(ordered))
  {
    bytes := [];
    var outs := AsTxOuts(ordered);
    var i := 0;
    while i < |ordered|
      invariant 0 <= i <= |ordered| && bytes == EncodeOuts(outs[..i])
    {
      var out := TxOut(ordered[i].value, ordered[i].script);
      assert outs[..i + 1] == outs[..i] + [out];
      EncodeAllConcat(EncodeOut, outs[..i], [out]);
      SingleOut(out);
      bytes := bytes + (LE(ordered[i].value, 8) + Counted(ordered[i].script));
      i := i + 1;
    }
    assert outs[..i] == outs;
  }

  lemma SingleOut(out: TxOut)
    ensures EncodeOuts([out]) == EncodeOut(out)
  {
    assert EncodeAll(EncodeOut, [out][1..]) == [];
  }

  lemma WithCommitment(commitment: Text, payouts: seq<Output>)
    requires Payable(payouts) && Payable(Ordered(payouts))
    ensures EncodeOuts(OutputList(commitment, payouts)) ==
            (if commitment == [] then [] else LE(0, 8) + Counted(commitment)) + EncodeOuts(AsTxOuts(Ordered(payouts)))
  {
    var first := if commitment == [] then [] else [TxOut(0, commitment)];
    EncodeAllConcat(EncodeOut, first, AsTxOuts(Ordered(payouts)));
    if commitment != [] {
      SingleOut(first[0]);
    }
  }

  method WriteOutputs(commitment: Text, payouts: seq<Output>) returns (bytes: seq<byte>)
    requires Payable(payouts) && |payouts| <= MAX_OUTPUTS
    ensures bytes == OutsGroup(OutputList(commitment, payouts))
  {
    OrderedPayable(payouts);
    var ordered := Ordered(payouts);
    var body := WritePayouts(ordered);
    WithCommitment(commitment, payouts);
    var count := |ordered|;
    var first := [];
    if commitment != [] {
      count := count + 1;
      first := LE(0, 8) + Counted(commitment);
    }
    bytes := VarInt(count) + (first + body);
  }

  method BuildCoinbaseOutputs(commitment: Text, payouts: seq<Output>) returns (ok: bool, bytes: seq<byte>)
    ensures ok == Validate(payouts).None?
    ensures ok ==> Payable(payouts) && |payouts| <= MAX_OUTPUTS
    ensures ok ==> bytes == OutsGroup(OutputList(commitment, payouts))
  {
    if Validate(payouts).Some? {
      return false, [];
    }
    bytes := WriteOutputs(commitment, payouts);
    ok := true;
  }

  // ---------------------------------------------------------------- the transaction

  /** What one job fixes: everything in the coinbase except the extranonces. */
  datatype Recipe = Recipe(
    height: i64, scriptTime: i64, flags: seq<byte>, commitment: Text, message: Text, payouts: seq<Output>)

  /** Height, flags, time, and the length byte of the extranonce area. */
  function Part1(r: Recipe, room: nat): seq<byte> {
    NumberScript(r.height) + r.flags + NumberScript(r.scriptTime) + [room % 256]
  }

  /** The pool tag. */
  function Part2(r: Recipe): seq<byte> {
    StringScript(Normalize(r.message))
  }

  function SigLen(r: Recipe, room: nat): nat {
    |Part1(r, room)| + room + |Part2(r)|
  }

  /** A recipe is buildable when the scriptSig has a legal length and the payouts pass their checks. */
  predicate Buildable(r: Recipe, room: nat) {
    MIN_SCRIPTSIG <= SigLen(r, room) <= MAX_SCRIPTSIG && Validate(r.payouts).None?
  }

  /** The prevout of a coinbase input: no transaction, index 0xffffffff. */
  function NullPrevout(): Prevout {
    Zeros(32) + LE(0xffff_ffff, 4)
  }

  function Coinbase(r: Recipe, area: Text): (tx: Tx)
    requires Buildable(r, |area|)
    ensures WellFormed(tx)
  {
    Tx(LE(1, 4),
       [TxIn(NullPrevout(), Part1(r, |area|) + area + Part2(r), LE(0, 4))],
       OutputList(r.commitment, r.payouts),
       [[]],
       LE(0, 4))
  }

  lemma SingleIn(i: TxIn)
    ensures EncodeIns([i]) == EncodeIn(i)
  {
    assert EncodeAll(EncodeIn, [i][1..]) == [];
  }

  lemma Regroup(
    version: seq<byte>, count: seq<byte>, prevout: seq<byte>, len: seq<byte>, p1: seq<byte>, pad: seq<byte>,
    middle: seq<byte>, p2: seq<byte>, sequence: seq<byte>, outs: seq<byte>, lock: seq<byte>)
    ensures version + (((count + (prevout + ((len + (p1 + (pad + middle) + p2)) + sequence))) + outs) + lock)
         == (version + count + prevout + len + p1 + pad) + middle + (p2 + sequence + outs + lock)
  {
  }

  /** The bytes of a transaction with one coinbase input, cut around part of its script. */
  lemma BytesAround(tx: Tx, p1: seq<byte>, pad: seq<byte>, middle: seq<byte>, p2: seq<byte>, script: Text)
    requires WellFormed(tx) && tx.ins == [TxIn(NullPrevout(), script, LE(0, 4))]
    requires script == p1 + (pad + middle) + p2
    ensures Legacy(tx) == (tx.version + VarInt(1) + NullPrevout() + VarInt(|script|) + p1 + pad) + middle
                          + (p2 + LE(0, 4) + OutsGroup(tx.outs) + tx.locktime)
  {
    SingleIn(tx.ins[0]);
    Regroup(tx.version, VarInt(1), NullPrevout(), VarInt(|script|), p1, pad, middle, p2, LE(0, 4),
            OutsGroup(tx.outs), tx.locktime);
  }

  // ---------------------------------------------------------------- the builders

  /** Zero bytes that widen the extranonce area to the size the template asks for. */
  function Padding(templateSize: int, extranonce2Size: nat): nat {
    if templateSize > extranonce2Size then templateSize - extranonce2Size else 0
  }

  /** The extranonce area the direct serializer writes. */
  function Area(extranonce1: Text, extranonce2: Text, templateSize: int): seq<byte> {
    Zeros(Padding(templateSize, |extranonce2|)) + (extranonce1 + extranonce2)
  }

  /** The same bytes in the order the direct serializer appends them. */
  lemma BytesInOrder(
    tx: Tx, p1: seq<byte>, pad: seq<byte>, e1: seq<byte>, e2: seq<byte>, p2: seq<byte>, script: Text, vin: seq<byte>)
    requires WellFormed(tx) && tx.ins == [TxIn(NullPrevout(), script, LE(0, 4))]
    requires script == p1 + (pad + (e1 + e2)) + p2
    requires vin == VarInt(1) + Zeros(32) + LE(0xffff_ffff, 4) + VarInt(|script|) + p1 + pad + e1 + e2 + p2 + LE(0, 4)
    ensures Legacy(tx) == tx.version + vin + OutsGroup(tx.outs) + tx.locktime
  {
    SingleIn(tx.ins[0]);
    var outs := OutsGroup(tx.outs);
    RegroupVin(VarInt(1), Zeros(32), LE(0xffff_ffff, 4), VarInt(|script|), p1, pad, e1, e2, p2, LE(0, 4));
    Assoc(vin, outs, tx.locktime);
    Assoc(tx.version, vin, outs);
    Assoc(tx.version, vin + outs, tx.locktime);
  }

  lemma RegroupVin(
    count: seq<byte>, zeros: seq<byte>, index: seq<byte>, len: seq<byte>, p1: seq<byte>, pad: seq<byte>,
    e1: seq<byte>, e2: seq<byte>, p2: seq<byte>, sequence: seq<byte>)
    ensures count + zeros + index + len + p1 + pad + e1 + e2 + p2 + sequence
         == count + ((zeros + index) + (len + (p1 + (pad + (e1 + e2)) + p2) + sequence))
  {
  }

  lemma FourFixedBytes()
    ensures LE(0, 4) == [0, 0, 0, 0] && LE(1, 4) == [1, 0, 0, 0] && LE(0xffff_ffff, 4) == [0xff, 0xff, 0xff, 0xff]
  {
    assert LE(1, 4) == [1] + LE(0, 3) && LE(0, 4) == [0] + LE(0, 3);
    assert LE(0xffff_ffff, 4) == [0xff] + LE(0xff_ffff, 3);
  }

  lemma Flat(
    version: seq<byte>, count: seq<byte>, zeros: seq<byte>, index: seq<byte>, len: seq<byte>, script: seq<byte>,
    sequence: seq<byte>, outs: seq<byte>, lock: seq<byte>)
    ensures version + (((count + ((zeros + index) + ((len + script) + sequence))) + outs) + lock)
         == version + count + zeros + index + len + script + sequence + outs + lock
  {
  }

  lemma FlatScript(part1: seq<byte>, pad: seq<byte>, e1: seq<byte>, e2: seq<byte>, part2: seq<byte>)
    ensures part1 + (pad + (e1 + e2)) + part2 == part1 + pad + e1 + e2 + part2
  {
  }

  /** A transaction with one coinbase input, byte for byte. */
  lemma LegacySpelled(tx: Tx, script: Text, outs: seq<byte>)
    requires WellFormed(tx) && tx.ins == [TxIn(NullPrevout(), script, LE(0, 4))] && outs == OutsGroup(tx.outs)
    requires tx.version == LE(1, 4) && tx.locktime == LE(0, 4) && |script| <= 100
    ensures Legacy(tx) ==
            [1, 0, 0, 0] + [1] + Zeros(32) + [0xff, 0xff, 0xff, 0xff] + [|script|] + script + [0, 0, 0, 0] + outs
            + [0, 0, 0, 0]
  {
    SingleIn(tx.ins[0]);
    FourFixedBytes();
    Flat(LE(1, 4), VarInt(1), Zeros(32), LE(0xffff_ffff, 4), VarInt(|script|), script, LE(0, 4), outs, LE(0, 4));
  }

  /** The script of the coinbase, spelled out: height, flags, time, length of the extranonce area, that area, tag. */
  function ScriptBytes(r: Recipe, extranonce1: Text, extranonce2: Text, templateSize: int): seq<byte> {
    var pad := if templateSize > |extranonce2| then templateSize - |extranonce2| else 0;
    var room: byte := (pad + |extranonce1| + |extranonce2|) % 256;
    NumberScript(r.height) + r.flags + NumberScript(r.scriptTime) + [room]
    + Zeros(pad) + extranonce1 + extranonce2 + StringScript(Normalize(r.message))
  }

  lemma ScriptIsSpelled(r: Recipe, extranonce1: Text, extranonce2: Text, templateSize: int, script: seq<byte>)
    requires script == ScriptBytes(r, extranonce1, extranonce2, templateSize)
    ensures
      var area := Area(extranonce1, extranonce2, templateSize);
      SigLen(r, |area|) == |script| && Part1(r, |area|) + area + Part2(r) == script
  {
    FlatScript(Part1(r, |Area(extranonce1, extranonce2, templateSize)|), Zeros(Padding(templateSize, |extranonce2|)),
               extranonce1, extranonce2, Part2(r));
  }

  /**
   The coinbase byte for byte: version 1; one input that spends nothing at index 0xffffffff, with its script and
   sequence 0; the outputs; locktime 0.
   */
  lemma CoinbaseBytes(r: Recipe, extranonce1: Text, extranonce2: Text, templateSize: int, script: seq<byte>)
    requires script == ScriptBytes(r, extranonce1, extranonce2, templateSize)
    requires 2 <= |script| <= 100 && Validate(r.payouts).None?
    ensures Buildable(r, |Area(extranonce1, extranonce2, templateSize)|)
    ensures Legacy(Coinbase(r, Area(extranonce1, extranonce2, templateSize))) ==
            [1, 0, 0, 0] + [1] + Zeros(32) + [0xff, 0xff, 0xff, 0xff] + [|script|] + script + [0, 0, 0, 0]
            + OutsGroup(OutputList(r.commitment, r.payouts)) + [0, 0, 0, 0]
  {
    ScriptIsSpelled(r, extranonce1, extranonce2, templateSize, script);
    var tx := Coinbase(r, Area(extranonce1, extranonce2, templateSize));
    LegacySpelled(tx, script, OutsGroup(OutputList(r.commitment, r.payouts)));
  }

  /** Both script parts and the length of the whole script, with its check. */
  method WriteScriptSig(r: Recipe, room: nat) returns (part1: seq<byte>, part2: seq<byte>, length: nat, ok: bool)
    ensures part1 == Part1(r, room) && part2 == Part2(r) && length == SigLen(r, room)
    ensures ok == (MIN_SCRIPTSIG <= length <= MAX_SCRIPTSIG)
  {
    var heightScript := SerializeNumberScript(r.height);
    var timeScript := SerializeNumberScript(r.scriptTime);
    part1 := heightScript + r.flags + timeScript + [room % 256];
    part2 := StringScript(Normalize(r.message));
    length := |part1| + room + |part2|;
    ok := MIN_SCRIPTSIG <= length <= MAX_SCRIPTSIG;
  }

  method WriteTx(
    part1: seq<byte>, padLen: nat, extranonce1: seq<byte>, extranonce2: seq<byte>, part2: seq<byte>,
    scriptSigLen: u32, outputs: seq<byte>, ghost made: Tx, ghost script: Text)
    returns (tx: seq<byte>)
    requires WellFormed(made) && made.ins == [TxIn(NullPrevout(), script, LE(0, 4))]
    requires made.version == LE(1, 4) && made.locktime == LE(0, 4) && outputs == OutsGroup(made.outs)
    requires script == part1 + (Zeros(padLen) + (extranonce1 + extranonce2)) + part2 && scriptSigLen == |script|
    ensures tx == Legacy(made)
  {
    var vin := VarInt(1) + Zeros(32) + LE(0xffff_ffff, 4) + VarInt(scriptSigLen) + part1;
    vin := vin + Zeros(padLen);
    vin := vin + extranonce1 + extranonce2 + part2 + LE(0, 4);
    tx := LE(1, 4) + vin + outputs + LE(0, 4);
    BytesInOrder(made, part1, Zeros(padLen), extranonce1, extranonce2, part2, script, vin);
  }

  method SerializeCoinbaseTxPayouts(r: Recipe, extranonce1: Text, extranonce2: Text, templateSize: int)
    returns (ok: bool, tx: seq<byte>)
    ensures ok == Buildable(r, |Area(extranonce1, extranonce2, templateSize)|)
    ensures ok ==> tx == Legacy(Coinbase(r, Area(extranonce1, extranonce2, templateSize)))
    ensures
      var script := ScriptBytes(r, extranonce1, extranonce2, templateSize);
      && ok == (2 <= |script| <= 100 && Validate(r.payouts).None?)
      && (ok ==>
            tx ==
            [1, 0, 0, 0] + [1] + Zeros(32) + [0xff, 0xff, 0xff, 0xff] + [|script|] + script + [0, 0, 0, 0]
            + OutsGroup(OutputList(r.commitment, r.payouts)) + [0, 0, 0, 0])
  {
    ok, tx := AppendCoinbaseTx(r, extranonce1, extranonce2, templateSize);
    ghost var script := ScriptBytes(r, extranonce1, extranonce2, templateSize);
    ScriptIsSpelled(r, extranonce1, extranonce2, templateSize, script);
    if ok {
      CoinbaseBytes(r, extranonce1, extranonce2, templateSize, script);
    }
  }

  /** Part by part, with the checks in between. */
  method AppendCoinbaseTx(r: Recipe, extranonce1: Text, extranonce2: Text, templateSize: int)
    returns (ok: bool, tx: seq<byte>)
    ensures ok == Buildable(r, |Area(extranonce1, extranonce2, templateSize)|)
    ensures ok ==> tx == Legacy(Coinbase(r, Area(extranonce1, extranonce2, templateSize)))
  {
    var padLen := Padding(templateSize, |extranonce2|);
    var placeholderLen := |extranonce1| + |extranonce2| + padLen;
    var part1, part2, scriptSigLen, legal := WriteScriptSig(r, placeholderLen);
    if !legal {
      return false, [];
    }
    var built, outputs := BuildCoinbaseOutputs(r.commitment, r.payouts);
    if !built {
      return false, [];
    }
    ghost var made := Coinbase(r, Area(extranonce1, extranonce2, templateSize));
    tx := WriteTx(
      part1, padLen, extranonce1, extranonce2, part2, scriptSigLen, outputs, made, made.ins[0].script);
    ok := true;
  }

  // ---------------------------------------------------------------- the advertised halves

  /** The extranonce2 size the splitter uses. */
  function EffectiveSize(extranonce2Size: int): nat {
    if extranonce2Size <= 0 then 4 else extranonce2Size
  }

  /** Bytes of the two halves around the extranonces of `tx`. */
  ghost predicate Around(first: seq<byte>, middle: seq<byte>, second: seq<byte>, tx: Tx)
    requires WellFormed(tx)
  {
    first != [] && second != [] && first + middle + second == Legacy(tx)
  }

  /** Whatever extranonce2 of the agreed size a miner puts between the halves, the bytes are the direct transaction. */
  ghost predicate Halves(
    first: seq<byte>, second: seq<byte>, r: Recipe, extranonce1: Text, size: nat, templateSize: int)
  {
    forall extranonce2: Text :: |extranonce2| == size ==>
      && Buildable(r, |Area(extranonce1, extranonce2, templateSize)|)
      && Around(first, extranonce1 + extranonce2, second, Coinbase(r, Area(extranonce1, extranonce2, templateSize)))
  }

  function ZeroHex(n: nat): (s: string) {
    if n == 0 then "" else "00" + ZeroHex(n - 1)
  }

  lemma {:induction false} ZeroHexEncodesZeros(n: nat)
    ensures ZeroHex(n) == HexEncode(Zeros(n))
  {
    if n > 0 {
      ZeroHexEncodesZeros(n - 1);
      assert Zeros(n)[1..] == Zeros(n - 1);
    }
  }

  method WriteHalves(part1: seq<byte>, padLen: nat, part2: seq<byte>, scriptSigLen: u32, outputs: seq<byte>)
    returns (coinb1: string, coinb2: string)
    ensures HexDecode(coinb1) ==
            Some(LE(1, 4) + VarInt(1) + NullPrevout() + VarInt(scriptSigLen) + part1 + Zeros(padLen))
    ensures HexDecode(coinb2) == Some(part2 + LE(0, 4) + outputs + LE(0, 4))
  {
    var p1 := LE(1, 4) + VarInt(1) + NullPrevout() + VarInt(scriptSigLen) + part1;
    var p2 := part2 + LE(0, 4) + outputs + LE(0, 4);
    coinb1, coinb2 := HexEncode(p1) + ZeroHex(padLen), HexEncode(p2);
    ZeroHexEncodesZeros(padLen);
    HexEncodeConcat(p1, Zeros(padLen));
    HexRoundTrip(p1 + Zeros(padLen));
    HexRoundTrip(p2);
  }

  function FirstHalf(r: Recipe, room: nat, pad: nat): seq<byte>
    requires SigLen(r, room) <= MAX_SCRIPTSIG
  {
    LE(1, 4) + VarInt(1) + NullPrevout() + VarInt(SigLen(r, room)) + Part1(r, room) + Zeros(pad)
  }

  function SecondHalf(r: Recipe): seq<byte>
    requires Payable(r.payouts) && |r.payouts| <= MAX_OUTPUTS
  {
    Part2(r) + LE(0, 4) + OutsGroup(OutputList(r.commitment, r.payouts)) + LE(0, 4)
  }

  /** Room for the extranonces of the agreed sizes. */
  function Room(extranonce1: Text, size: nat, templateSize: int): nat {
    |extranonce1| + size + Padding(templateSize, size)
  }

  lemma HalvesAround(
    tx: Tx, p1: seq<byte>, pad: seq<byte>, middle: seq<byte>, p2: seq<byte>, script: Text, first: seq<byte>,
    second: seq<byte>)
    requires WellFormed(tx) && tx.ins == [TxIn(NullPrevout(), script, LE(0, 4))]
    requires script == p1 + (pad + middle) + p2
    requires first == tx.version + VarInt(1) + NullPrevout() + VarInt(|script|) + p1 + pad
    requires second == p2 + LE(0, 4) + OutsGroup(tx.outs) + tx.locktime
    ensures Around(first, middle, second, tx)
  {
    BytesAround(tx, p1, pad, middle, p2, script);
  }

  lemma HalvesFit(r: Recipe, extranonce1: Text, extranonce2: Text, templateSize: int, room: nat, pad: nat)
    requires room == |Area(extranonce1, extranonce2, templateSize)| && Buildable(r, room)
    requires pad == Padding(templateSize, |extranonce2|)
    ensures Around(FirstHalf(r, room, pad), extranonce1 + extranonce2, SecondHalf(r),
                   Coinbase(r, Area(extranonce1, extranonce2, templateSize)))
  {
    var tx := Coinbase(r, Area(extranonce1, extranonce2, templateSize));
    HalvesAround(
      tx, Part1(r, room), Zeros(pad), extranonce1 + extranonce2, Part2(r), tx.ins[0].script,
      FirstHalf(r, room, pad), SecondHalf(r));
  }

  lemma HalvesFitAll(r: Recipe, extranonce1: Text, size: nat, templateSize: int, first: seq<byte>, second: seq<byte>)
    requires Buildable(r, Room(extranonce1, size, templateSize))
    requires first == FirstHalf(r, Room(extranonce1, size, templateSize), Padding(templateSize, size))
    requires second == SecondHalf(r)
    ensures Halves(first, second, r, extranonce1, size, templateSize)
  {
    forall extranonce2: Text | |extranonce2| == size
      ensures Around(
                first, extranonce1 + extranonce2, second, Coinbase(r, Area(extranonce1, extranonce2, templateSize)))
    {
      HalvesFit(r, extranonce1, extranonce2, templateSize, Room(extranonce1, size, templateSize),
                Padding(templateSize, size));
    }
  }

  /** Outputs and both halves, once the scriptSig has passed its length check. */
  method FinishHalves(
    r: Recipe, extranonce1: Text, size: nat, templateSize: int, part1: seq<byte>, part2: seq<byte>, scriptSigLen: u32)
    returns (ok: bool, coinb1: string, coinb2: string)
    requires MIN_SCRIPTSIG <= SigLen(r, Room(extranonce1, size, templateSize)) == scriptSigLen <= MAX_SCRIPTSIG
    requires part1 == Part1(r, Room(extranonce1, size, templateSize)) && part2 == Part2(r)
    ensures ok == Validate(r.payouts).None?
    ensures ok ==> DecodeToHalves(coinb1, coinb2, r, extranonce1, size, templateSize)
  {
    coinb1, coinb2 := "", "";
    var outputs;
    ok, outputs := BuildCoinbaseOutputs(r.commitment, r.payouts);
    if ok {
      coinb1, coinb2 := WriteHalves(part1, Padding(templateSize, size), part2, scriptSigLen, outputs);
      HalvesFitAll(r, extranonce1, size, templateSize, HexDecode(coinb1).value, HexDecode(coinb2).value);
    }
  }

  ghost predicate DecodeToHalves(
    coinb1: string, coinb2: string, r: Recipe, extranonce1: Text, size: nat, templateSize: int)
  {
    && HexDecode(coinb1).Some? && HexDecode(coinb2).Some?
    && Halves(HexDecode(coinb1).value, HexDecode(coinb2).value, r, extranonce1, size, templateSize)
  }

  method BuildPartsWithFlags(
    height: i64, extranonce1: Text, size: nat, templateSize: int, payouts: seq<Output>, witnessCommitment: string,
    flags: seq<byte>, message: Text, scriptTime: i64)
    returns (ok: bool, coinb1: string, coinb2: string)
    requires |witnessCommitment| < 0x8000_0000
    ensures PartsAre(ok, coinb1, coinb2, HexDecode(witnessCommitment),
                     Recipe(height, scriptTime, flags, [], message, payouts), extranonce1, size, templateSize)
  {
    coinb1, coinb2 := "", "";
    var placeholderLen := |extranonce1| + if templateSize < size then size else templateSize;
    var untagged := Recipe(height, scriptTime, flags, [], message, payouts);
    var part1, part2, scriptSigLen, legal := WriteScriptSig(untagged, placeholderLen);
    if !legal {
      return false, coinb1, coinb2;
    }
    var commitment := HexDecode(witnessCommitment);
    if commitment.None? {
      return false, coinb1, coinb2;
    }
    var r := untagged.(commitment := commitment.value);
    ok, coinb1, coinb2 := FinishHalves(r, extranonce1, size, templateSize, part1, part2, scriptSigLen);
  }

  /** Halves are built exactly when everything decodes and the recipe is buildable, and then they are right. */
  ghost predicate PartsAre(
    ok: bool, coinb1: string, coinb2: string, commitment: Option<seq<byte>>, r: Recipe, extranonce1: Text, size: nat,
    templateSize: int)
  {
    && ok == (commitment.Some? && Buildable(r, Room(extranonce1, size, templateSize)))
    && (ok ==>
          && |commitment.value| < 0x8000_0000
          && DecodeToHalves(coinb1, coinb2, r.(commitment := commitment.value), extranonce1, size, templateSize))
  }

  method BuildCoinbasePartsPayouts(
    height: i64, extranonce1: Text, extranonce2Size: int, templateSize: int, payouts: seq<Output>,
    witnessCommitment: string, coinbaseFlags: string, message: Text, scriptTime: i64)
    returns (ok: bool, coinb1: string, coinb2: string)
    requires |witnessCommitment| < 0x8000_0000
    ensures
      match HexDecode(coinbaseFlags)
      case None => !ok
      case Some(flags) =>
        PartsAre(ok, coinb1, coinb2, HexDecode(witnessCommitment),
                 Recipe(height, scriptTime, flags, [], message, payouts),
                 extranonce1, EffectiveSize(extranonce2Size), templateSize)
  {
    var flags := HexDecode(coinbaseFlags);
    if flags.None? {
      return false, "", "";
    }
    ok, coinb1, coinb2 := BuildPartsWithFlags(
      height, extranonce1, EffectiveSize(extranonce2Size), templateSize, payouts, witnessCommitment, flags.value,
      message, scriptTime);
  }

  // ---------------------------------------------------------------- the rebuild from stored halves

  function BuildNotified(prefix: seq<byte>, suffix: seq<byte>, extranonce2: seq<byte>): Result<seq<byte>> {
    if prefix == [] || suffix == [] then Err("notified coinbase parts missing") else Ok(prefix + extranonce2 + suffix)
  }

  /** What halves that are right give for one extranonce2, whole and rebuilt. */
  lemma RightHalvesRebuild(
    first: seq<byte>, second: seq<byte>, r: Recipe, extranonce1: Text, extranonce2: Text, templateSize: int)
    ensures
      Halves(first, second, r, extranonce1, |extranonce2|, templateSize) ==>
        var area := Area(extranonce1, extranonce2, templateSize);
        && Buildable(r, |area|)
        && BuildNotified(first + extranonce1, second, extranonce2) == Ok(Legacy(Coinbase(r, area)))
        && first + extranonce1 + extranonce2 + second == Legacy(Coinbase(r, area))
  {
    if Halves(first, second, r, extranonce1, |extranonce2|, templateSize) {
      assert Around(
          first, extranonce1 + extranonce2, second, Coinbase(r, Area(extranonce1, extranonce2, templateSize)));
      Assoc(first, extranonce1, extranonce2);
    }
  }

  /**
   One transaction: whatever the job and the extranonce2, the builder of the advertised halves and the direct
   serializer fail together, and otherwise the halves around the extranonces, the rebuild from the stored parts and
   the direct serializer give the same bytes.
   */
  method HalvesAndDirectAgree(
    r: Recipe, extranonce1: Text, extranonce2: Text, extranonce2Size: int, templateSize: int,
    witnessCommitment: string, coinbaseFlags: string)
    returns (okHalves: bool, coinb1: string, coinb2: string, okDirect: bool, tx: seq<byte>)
    requires |witnessCommitment| < 0x8000_0000
    requires HexDecode(witnessCommitment) == Some(r.commitment) && HexDecode(coinbaseFlags) == Some(r.flags)
    requires |extranonce2| == EffectiveSize(extranonce2Size)
    ensures okHalves == okDirect
    ensures okHalves ==>
      && HexDecode(coinb1).Some? && HexDecode(coinb2).Some?
      && HexDecode(coinb1).value + extranonce1 + extranonce2 + HexDecode(coinb2).value == tx
      && BuildNotified(HexDecode(coinb1).value + extranonce1, HexDecode(coinb2).value, extranonce2) == Ok(tx)
  {
    okHalves, coinb1, coinb2 := BuildCoinbasePartsPayouts(
      r.height, extranonce1, extranonce2Size, templateSize, r.payouts, witnessCommitment, coinbaseFlags, r.message,
      r.scriptTime);
    okDirect, tx := SerializeCoinbaseTxPayouts(r, extranonce1, extranonce2, templateSize);
    if okHalves {
      RightHalvesRebuild(
        HexDecode(coinb1).value, HexDecode(coinb2).value, r, extranonce1, extranonce2, templateSize);
    }
  }

  /**
   A clamped tag never makes a builder fail on length: with a four-byte extranonce1, the same height, flags and sizes,
   and a time that takes no more bytes than the one clamped for, only the payouts can still be refused.
   */
  lemma ClampedTagBuilds(
    r: Recipe, message: Text, limit: int, scriptTime: i64, extranonce1: Text, size: nat, templateSize: int)
    requires |extranonce1| == EXTRANONCE1_SIZE && BlankFree(message)
    requires |NumberScript(r.scriptTime)| <= |NumberScript(scriptTime)|
    requires Clamp(message, limit, FixedLen(r.height, scriptTime, r.flags, size, templateSize)).Ok?
    requires r.message == Clamp(message, limit, FixedLen(r.height, scriptTime, r.flags, size, templateSize)).value.text
    ensures SigLen(r, Room(extranonce1, size, templateSize)) <= limit
    ensures Buildable(r, Room(extranonce1, size, templateSize)) <==> Validate(r.payouts).None?
  {
    ClampKeepsLimit(
      message, limit, FixedLen(r.height, scriptTime, r.flags, size, templateSize),
      FixedLen(r.height, r.scriptTime, r.flags, size, templateSize));
    SigLenIsFixedAndTag(r, extranonce1, size, templateSize);
  }

  lemma SigLenIsFixedAndTag(r: Recipe, extranonce1: Text, size: nat, templateSize: int)
    requires |extranonce1| == EXTRANONCE1_SIZE
    ensures SigLen(r, Room(extranonce1, size, templateSize))
         == ScriptSigLen(FixedLen(r.height, r.scriptTime, r.flags, size, templateSize), r.message)
  {
  }
}
