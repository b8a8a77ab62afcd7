/** Optional and failing results, used in place of Go's `(value, ok)` and `(value, error)`. */
module Results {
  datatype Option<+T> = None | Some(value: T)

  datatype Result<+T> = Ok(value: T) | Err(reason: string)
}

/** Byte strings: little-endian numbers, Bitcoin variable-length integers and hexadecimal text. */
module Bytes {
  import opened Results

  type byte = x: int | 0 <= x < 256
  type u32 = x: int | 0 <= x < 0x1_0000_0000
  type u64 = x: int | 0 <= x < 0x1_0000_0000_0000_0000
  type i64 = x: int | -0x8000_0000_0000_0000 <= x < 0x8000_0000_0000_0000

  /** A byte string short enough for a length field of the formats here. */
  type Text = b: seq<byte> | |b| < 0x8000_0000

  const HASH_SIZE: nat := 32

  /** A double-SHA-256 value, or any other 32 bytes. */
  type Hash = b: seq<byte> | |b| == 32 witness Zeros(32)

  type Bytes4 = b: seq<byte> | |b| == 4 witness Zeros(4)

  /** The value an int64 variable holds after wrapping arithmetic. */
  function WrapI64(x: int): i64 {
    var m := x % 0x1_0000_0000_0000_0000;
    if m < 0x8000_0000_0000_0000 then m else m - 0x1_0000_0000_0000_0000
  }

  function Zeros(n: nat): (b: seq<byte>)
    ensures |b| == n
    ensures forall i :: 0 <= i < n ==> b[i] == 0
  {
    seq(n, i => 0)
  }

  function Reverse<T>(s: seq<T>): (r: seq<T>)
    ensures |r| == |s|
    ensures forall i :: 0 <= i < |s| ==> r[i] == s[|s| - 1 - i]
  {
    seq(|s|, i requires 0 <= i < |s| => s[|s| - 1 - i])
  }

  // ---------------------------------------------------------------- taking byte strings apart

  lemma Assoc<T>(a: seq<T>, b: seq<T>, c: seq<T>)
    ensures (a + b) + c == a + (b + c)
  {
  }

  lemma AfterPrefix<T>(a: seq<T>, b: seq<T>)
    ensures (a + b)[|a|..] == b && (a + b)[..|a|] == a
  {
  }

  lemma DropDrop<T>(s: seq<T>, i: nat, j: nat)
    requires i + j <= |s|
    ensures s[i..][j..] == s[i + j..]
  {
  }

  // ---------------------------------------------------------------- little-endian numbers

  function Pow256(n: nat): (r: nat)
    ensures r > 0
  {
    if n == 0 then 1 else 256 * Pow256(n - 1)
  }

  /** The low `n` bytes of `v`, least significant first. */
  function LE(v: nat, n: nat): (b: seq<byte>)
    ensures |b| == n
  {
    if n == 0 then [] else [v % 256] + LE(v / 256, n - 1)
  }

  function LEVal(b: seq<byte>): nat {
    if b == [] then 0 else b[0] + 256 * LEVal(b[1..])
  }

  lemma {:induction false} LERoundTrip(v: nat, n: nat)
    requires v < Pow256(n)
    ensures LEVal(LE(v, n)) == v
  {
    if n > 0 {
      LERoundTrip(v / 256, n - 1);
      assert LE(v, n)[1..] == LE(v / 256, n - 1);
    }
  }

  lemma {:induction false} LEValBound(b: seq<byte>)
    ensures LEVal(b) < Pow256(|b|)
  {
    if b != [] {
      LEValBound(b[1..]);
    }
  }

  lemma {:induction false} LEValConcat(a: seq<byte>, b: seq<byte>)
    ensures LEVal(a + b) == LEVal(a) + Pow256(|a|) * LEVal(b)
  {
    if a == [] {
      assert a + b == b;
    } else {
      assert (a + b)[1..] == a[1..] + b;
      LEValConcat(a[1..], b);
      calc {
        LEVal(a + b);
        a[0] + 256 * (LEVal(a[1..]) + Pow256(|a| - 1) * LEVal(b));
        LEVal(a) + 256 * (Pow256(|a| - 1) * LEVal(b));
        LEVal(a) + Pow256(|a|) * LEVal(b);
      }
    }
  }

  lemma Pow256Facts()
    ensures Pow256(1) == 0x100 && Pow256(2) == 0x1_0000
    ensures Pow256(4) == 0x1_0000_0000 && Pow256(8) == 0x1_0000_0000_0000_0000
  {
    assert Pow256(3) == 0x100_0000;
    assert Pow256(5) == 0x100_0000_0000;
    assert Pow256(6) == 0x1_0000_0000_0000;
    assert Pow256(7) == 0x100_0000_0000_0000;
  }

  /** The four bytes of a 32-bit number, most significant first. */
  function BE4(v: u32): (b: seq<byte>)
    ensures |b| == 4
  {
    [v / 0x100_0000 % 0x100, v / 0x1_0000 % 0x100, v / 0x100 % 0x100, v % 0x100]
  }

  lemma BE4IsReversedLE(v: u32)
    ensures Reverse(BE4(v)) == LE(v, 4)
  {
    LEFour(v);
  }

  lemma BE4Injective(v: u32, w: u32)
    requires BE4(v) == BE4(w)
    ensures v == w
  {
    BE4IsReversedLE(v);
    BE4IsReversedLE(w);
    Pow256Facts();
    LERoundTrip(v, 4);
    LERoundTrip(w, 4);
  }

  // ---------------------------------------------------------------- variable-length integers

  function VarInt(v: u64): (b: seq<byte>)
    ensures 1 <= |b| <= 9
    ensures v < 0xfd ==> b == [v]
  {
    if v < 0xfd then [v]
    else if v <= 0xffff then [0xfd] + LE(v, 2)
    else if v <= 0xffff_ffff then [0xfe] + LE(v, 4)
    else [0xff] + LE(v, 8)
  }

  /** The little-endian number in the bytes from `pos` up to `end`. */
  function Field(b: seq<byte>, pos: nat, end: nat): nat
    requires pos <= end <= |b|
    decreases end - pos
  {
    if pos == end then 0 else b[pos] + 256 * Field(b, pos + 1, end)
  }

  lemma {:induction false} FieldIsLEVal(b: seq<byte>, pos: nat, end: nat)
    requires pos <= end <= |b|
    ensures Field(b, pos, end) == LEVal(b[pos..end])
    decreases end - pos
  {
    if pos < end {
      FieldIsLEVal(b, pos + 1, end);
      assert b[pos..end][1..] == b[pos + 1..end];
    }
  }

  /** How many bytes follow the prefix byte of an encoded number. */
  function Width(prefix: byte): nat {
    if prefix == 0xff then 8 else if prefix == 0xfe then 4 else if prefix == 0xfd then 2 else 0
  }

  function TaggedValue(b: seq<byte>, pos: nat): (v: nat)
    requires pos < |b| && pos + 1 + Width(b[pos]) <= |b|
  {
    if Width(b[pos]) == 0 then b[pos] else Field(b, pos + 1, pos + 1 + Width(b[pos]))
  }

  /** The number at the head of `raw` and the bytes it takes; None when it is cut short. */
  function ReadVarInt(raw: seq<byte>): (r: Option<(nat, nat)>)
    ensures r.Some? ==> 1 <= r.value.1 <= |raw|
  {
    if |raw| == 0 || 1 + Width(raw[0]) > |raw| then None
    else Some((TaggedValue(raw, 0), 1 + Width(raw[0])))
  }

  lemma ReadVarIntBound(raw: seq<byte>)
    ensures ReadVarInt(raw).Some? ==> ReadVarInt(raw).value.0 < 0x1_0000_0000_0000_0000
  {
    Pow256Facts();
    if ReadVarInt(raw).Some? {
      var w := Width(raw[0]);
      FieldIsLEVal(raw, 1, 1 + w);
      LEValBound(raw[1..1 + w]);
    }
  }

  /** The cursor form of the same parser: value and next position. */
  function DecodeVarInt(b: seq<byte>, pos: nat): (r: Option<(nat, nat)>)
    ensures r.Some? ==> pos < r.value.1 <= |b|
  {
    if pos >= |b| || pos + 1 + Width(b[pos]) > |b| then None
    else Some((TaggedValue(b, pos), pos + 1 + Width(b[pos])))
  }

  /** Whatever follows it, an encoded number is read back, and exactly its bytes are consumed. */
  lemma ReadVarIntOfVarInt(v: u64, rest: seq<byte>)
    ensures ReadVarInt(VarInt(v) + rest) == Some((v, |VarInt(v)|))
  {
    Pow256Facts();
    var raw := VarInt(v) + rest;
    if v >= 0xfd {
      var w := Width(raw[0]);
      FieldIsLEVal(raw, 1, 1 + w);
      LERoundTrip(v, w);
      assert raw[1..1 + w] == LE(v, w);
    }
  }

  /** The two parsers of the program read the same numbers. */
  lemma VarIntParsersAgree(b: seq<byte>, pos: nat)
    requires pos <= |b|
    ensures ReadVarInt(b[pos..]).Some? <==> DecodeVarInt(b, pos).Some?
    ensures DecodeVarInt(b, pos).Some? ==>
              ReadVarInt(b[pos..]).value == (DecodeVarInt(b, pos).value.0, DecodeVarInt(b, pos).value.1 - pos)
  {
    if DecodeVarInt(b, pos).Some? {
      var w := Width(b[pos]);
      FieldIsLEVal(b, pos + 1, pos + 1 + w);
      FieldIsLEVal(b[pos..], 1, 1 + w);
      assert b[pos..][1..1 + w] == b[pos + 1..pos + 1 + w];
    }
  }

  lemma LETwoMore(v: nat, n: nat)
    ensures LE(v, n + 2) == [v % 0x100, v / 0x100 % 0x100] + LE(v / 0x1_0000, n)
  {
    assert LE(v, n + 2) == [v % 0x100] + LE(v / 0x100, n + 1);
    assert v / 0x100 / 0x100 == v / 0x1_0000;
  }

  lemma LETwo(v: nat)
    ensures LE(v, 2) == [v % 0x100, v / 0x100 % 0x100]
  {
    LETwoMore(v, 0);
  }

  lemma LEFour(v: nat)
    ensures LE(v, 4) == [v % 0x100, v / 0x100 % 0x100, v / 0x1_0000 % 0x100, v / 0x100_0000 % 0x100]
  {
    LETwoMore(v, 2);
    LETwo(v / 0x1_0000);
    assert v / 0x1_0000 / 0x100 == v / 0x100_0000;
  }

  lemma LEEight(v: nat)
    ensures LE(v, 8) == LE(v, 4) + LE(v / 0x1_0000_0000, 4)
  {
    LETwoMore(v, 6);
    LETwoMore(v / 0x1_0000, 4);
    LEFour(v);
    assert v / 0x1_0000 / 0x1_0000 == v / 0x1_0000_0000;
    assert v / 0x1_0000 / 0x100 == v / 0x100_0000;
  }

  /** Writes the encoding of `v` at the front of a nine-byte scratch buffer. */
  method PutVarInt(dst: array<byte>, v: u64) returns (n: nat)
    requires dst.Length == 9
    modifies dst
    ensures n == |VarInt(v)| <= 9 && dst[..n] == VarInt(v)
  {
    if v < 0xfd {
      dst[0] := v;
      n := 1;
    } else if v <= 0xffff {
      dst[0], dst[1], dst[2] := 0xfd, v % 0x100, v / 0x100 % 0x100;
      n := 3;
      LETwo(v);
    } else if v <= 0xffff_ffff {
      dst[0], dst[1], dst[2] := 0xfe, v % 0x100, v / 0x100 % 0x100;
      dst[3], dst[4] := v / 0x1_0000 % 0x100, v / 0x100_0000 % 0x100;
      n := 5;
      LEFour(v);
    } else {
      PutLE8(dst, v);
      n := 9;
      assert dst[..9] == [dst[0]] + dst[1..9];
    }
  }

  /** The widest case: the prefix byte and eight little-endian bytes. */
  method PutLE8(dst: array<byte>, v: u64)
    requires dst.Length == 9
    modifies dst
    ensures dst[0] == 0xff && dst[1..9] == LE(v, 8)
  {
    var high := v / 0x1_0000_0000;
    dst[0] := 0xff;
    dst[1], dst[2], dst[3], dst[4] := v % 0x100, v / 0x100 % 0x100, v / 0x1_0000 % 0x100, v / 0x100_0000 % 0x100;
    dst[5], dst[6], dst[7], dst[8] :=
      high % 0x100, high / 0x100 % 0x100, high / 0x1_0000 % 0x100, high / 0x100_0000 % 0x100;
    LEEight(v);
    LEFour(v);
    LEFour(high);
    assert dst[1..9] == dst[1..5] + dst[5..9];
  }

  // ---------------------------------------------------------------- hexadecimal text

  function HexDigit(n: byte): char
    requires n < 16
  {
    if n < 10 then '0' + n as char else 'a' + (n - 10) as char
  }

  function HexNibble(c: char): (r: Option<byte>)
    ensures r.Some? ==> r.value < 16
  {
    if '0' <= c <= '9' then Some((c - '0') as int)
    else if 'a' <= c <= 'f' then Some((c - 'a') as int + 10)
    else if 'A' <= c <= 'F' then Some((c - 'A') as int + 10)
    else None
  }

  function HexEncode(b: seq<byte>): (s: string)
    ensures |s| == 2 * |b|
  {
    if b == [] then "" else [HexDigit(b[0] / 16), HexDigit(b[0] % 16)] + HexEncode(b[1..])
  }

  function HexDecode(s: string): (r: Option<seq<byte>>)
    ensures r.Some? ==> |s| == 2 * |r.value|
  {
    if s == "" then Some([])
    else if |s| == 1 then None
    else
      var hi, lo, rest := HexNibble(s[0]), HexNibble(s[1]), HexDecode(s[2..]);
      if hi.Some? && lo.Some? && rest.Some? then Some([hi.value * 16 + lo.value] + rest.value) else None
  }

  lemma NibbleRoundTrip(n: byte)
    requires n < 16
    ensures HexNibble(HexDigit(n)) == Some(n)
  {
  }

  lemma {:induction false} HexRoundTrip(b: seq<byte>)
    ensures HexDecode(HexEncode(b)) == Some(b)
  {
    if b != [] {
      HexRoundTrip(b[1..]);
      NibbleRoundTrip(b[0] / 16);
      NibbleRoundTrip(b[0] % 16);
      assert HexEncode(b)[2..] == HexEncode(b[1..]);
      assert [b[0]] + b[1..] == b;
    }
  }

  lemma {:induction false} HexEncodeConcat(a: seq<byte>, b: seq<byte>)
    ensures HexEncode(a + b) == HexEncode(a) + HexEncode(b)
  {
    if a == [] {
      assert a + b == b;
    } else {
      assert (a + b)[1..] == a[1..] + b;
      HexEncodeConcat(a[1..], b);
    }
  }

  /** Go's `decodeHexToFixedBytes`: exactly `n` bytes, or an error. */
  function DecodeHexFixed(s: string, n: nat): (r: Option<seq<byte>>)
    ensures r.Some? ==> |r.value| == n
  {
    if |s| != 2 * n then None else HexDecode(s)
  }
}
