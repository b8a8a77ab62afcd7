/** The pieces of a coinbase scriptSig: pushed numbers, the pool tag, and how long a tag may be. */
module CoinbaseScript {
  import opened Results
  import opened Bytes

  // ---------------------------------------------------------------- numbers

  function NumberBody(n: int): (b: seq<byte>)
    ensures |b| >= 1
    decreases if n > 0 then n else 0
  {
    if n > 0x7f then [n % 256] + NumberBody(n / 256) else [n % 256]
  }

  function NumberScript(n: i64): (b: seq<byte>)
    ensures |b| >= 1
  {
    if 1 <= n <= 16 then [0x50 + n] else [|NumberBody(n)| % 256] + NumberBody(n)
  }

  /** `128 * 256^(k-1)` is the first number that needs more than `k` bytes. */
  lemma {:induction false} NumberBodyLength(n: int, k: nat)
    requires k >= 1 && n < 128 * Pow256(k - 1)
    ensures |NumberBody(n)| <= k
  {
    if n > 0x7f {
      NumberBodyLength(n / 256, k - 1);
    }
  }

  lemma Int64NeedsEightBytes(n: i64)
    ensures |NumberBody(n)| <= 8
  {
    Pow256Facts();
    assert Pow256(8) == 256 * Pow256(7);
    NumberBodyLength(n, 8);
  }

  /** A pushed non-negative number reads back, and its top byte leaves the sign bit clear. */
  lemma {:induction false} NumberBodyValue(n: nat)
    ensures LEVal(NumberBody(n)) == n && NumberBody(n)[|NumberBody(n)| - 1] <= 0x7f
  {
    if n > 0x7f {
      NumberBodyValue(n / 256);
      assert NumberBody(n)[1..] == NumberBody(n / 256);
    } else {
      assert LEVal([n]) == n + 256 * LEVal([]);
    }
  }

  lemma {:induction false} NumberBodyMonotone(n: nat, m: nat)
    requires n <= m
    ensures |NumberBody(n)| <= |NumberBody(m)|
  {
    if n > 0x7f {
      NumberBodyMonotone(n / 256, m / 256);
    }
  }

  method SerializeNumberScript(n: i64) returns (b: seq<byte>)
    ensures b == NumberScript(n)
    ensures 1 <= n <= 16 ==> b == [0x50 + n]
    ensures n == 0 || n > 16 ==>
              2 <= |b| <= 9 && b[0] == |b| - 1 && LEVal(b[1..]) == n && b[|b| - 1] <= 0x7f
    ensures n < 0 ==> b == [1, n % 256]
  {
    if 1 <= n <= 16 {
      return [0x50 + n];
    }
    Int64NeedsEightBytes(n);
    if n >= 0 {
      NumberBodyValue(n);
    }
    var buf := new byte[9](i => 0);
    var l := FillNumber(buf, n);
    buf[0] := l;
    assert buf[..l + 1] == [buf[0]] + buf[1..l + 1];
    b := buf[..l + 1];
  }

  /** Writes the little-endian body behind the length byte. */
  method FillNumber(buf: array<byte>, n: i64) returns (l: nat)
    requires buf.Length == 9 && |NumberBody(n)| <= 8
    modifies buf
    ensures l == |NumberBody(n)| && buf[1..l + 1] == NumberBody(n)
  {
    l := 1;
    var rest: int := n;
    while rest > 0x7f
      invariant 1 <= l <= 8 && l - 1 + |NumberBody(rest)| == |NumberBody(n)|
      invariant buf[1..l] + NumberBody(rest) == NumberBody(n)
      decreases rest
    {
      ghost var before := buf[1..l];
      buf[l] := rest % 256;
      assert buf[1..l + 1] == before + [rest % 256];
      Assoc(before, [rest % 256], NumberBody(rest / 256));
      l := l + 1;
      rest := rest / 256;
    }
    buf[l] := rest % 256;
    assert buf[1..l + 1] == buf[1..l] + [rest % 256];
  }

  // ---------------------------------------------------------------- the tag

  const SLASH: byte := 47

  /** "/nodeStratum" */
  const DEFAULT_TAG: seq<byte> := [47, 110, 111, 100, 101, 83, 116, 114, 97, 116, 117, 109]

  /** The UTF-8 bytes of one Unicode space. */
  predicate IsBlank(c: seq<byte>) {
    || (|c| == 1 && (c[0] == 32 || 9 <= c[0] <= 13))
    || (|c| == 2 && c[0] == 0xc2 && (c[1] == 0x85 || c[1] == 0xa0))
    || c == [0xe1, 0x9a, 0x80] || c == [0xe3, 0x80, 0x80] || c == [0xe2, 0x81, 0x9f]
    || (|c| == 3 && c[0] == 0xe2 && c[1] == 0x80 && (c[2] <= 0x8a || c[2] in {0xa8, 0xa9, 0xaf}) && c[2] >= 0x80)
  }

  /** How many bytes the space at the front takes; none when there is no space. */
  function LeadingBlank(s: seq<byte>): (n: nat)
    ensures n <= |s| && n <= 3
    ensures n > 0 ==> IsBlank(s[..n])
  {
    if |s| >= 1 && IsBlank(s[..1]) then 1
    else if |s| >= 2 && IsBlank(s[..2]) then 2
    else if |s| >= 3 && IsBlank(s[..3]) then 3
    else 0
  }

  function TrailingBlank(s: seq<byte>): (n: nat)
    ensures n <= |s| && n <= 3
    ensures n > 0 ==> IsBlank(s[|s| - n..])
  {
    if |s| >= 1 && IsBlank(s[|s| - 1..]) then 1
    else if |s| >= 2 && IsBlank(s[|s| - 2..]) then 2
    else if |s| >= 3 && IsBlank(s[|s| - 3..]) then 3
    else 0
  }

  /** Nothing but spaces. */
  predicate AllBlank(s: seq<byte>)
    decreases |s|
  {
    s == [] || (LeadingBlank(s) > 0 && AllBlank(s[LeadingBlank(s)..]))
  }

  /** No space anywhere. */
  predicate BlankFree(s: seq<byte>) {
    forall i :: 0 <= i < |s| ==> LeadingBlank(s[i..]) == 0
  }

  function Trim(s: seq<byte>): (t: seq<byte>)
    ensures |t| <= |s|
    decreases |s|
  {
    if LeadingBlank(s) > 0 then Trim(s[LeadingBlank(s)..])
    else if TrailingBlank(s) > 0 then Trim(s[..|s| - TrailingBlank(s)])
    else s
  }

  /** No space is left at either end. */
  lemma {:induction false} TrimLeavesNoEnds(s: seq<byte>)
    ensures LeadingBlank(Trim(s)) == 0 && TrailingBlank(Trim(s)) == 0
    decreases |s|
  {
    if LeadingBlank(s) > 0 {
      TrimLeavesNoEnds(s[LeadingBlank(s)..]);
    } else if TrailingBlank(s) > 0 {
      TrimLeavesNoEnds(s[..|s| - TrailingBlank(s)]);
    }
  }

  /** A space at the front of a part is one at the front of the whole. */
  lemma LeadingBlankOfPrefix(s: seq<byte>, n: nat)
    requires n <= |s| && LeadingBlank(s[..n]) > 0
    ensures LeadingBlank(s) > 0
  {
    var k := LeadingBlank(s[..n]);
    assert s[..n][..k] == s[..k];
  }

  lemma TrailingBlankLeavesSome(s: seq<byte>)
    requires LeadingBlank(s) == 0 && TrailingBlank(s) > 0
    ensures TrailingBlank(s) < |s| && LeadingBlank(s[..|s| - TrailingBlank(s)]) == 0
  {
    var n := |s| - TrailingBlank(s);
    if LeadingBlank(s[..n]) > 0 {
      LeadingBlankOfPrefix(s, n);
    }
    SuffixNotBlank(s, n);
  }

  /** A text that does not start with a space is not one. */
  lemma SuffixNotBlank(s: seq<byte>, n: nat)
    requires LeadingBlank(s) == 0 && n <= |s| && IsBlank(s[n..])
    ensures n > 0
  {
    if n == 0 {
      WholeBlankLeads(s, s[n..]);
    }
  }

  lemma WholeBlankLeads(s: seq<byte>, t: seq<byte>)
    requires s == t && IsBlank(t)
    ensures LeadingBlank(s) > 0
  {
    assert s[..|t|] == t;
  }

  lemma {:induction false} TrimIsEmptyIff(s: seq<byte>)
    ensures Trim(s) == [] <==> AllBlank(s)
    decreases |s|
  {
    if LeadingBlank(s) > 0 {
      TrimIsEmptyIff(s[LeadingBlank(s)..]);
    } else if TrailingBlank(s) > 0 {
      TrailingBlankLeavesSome(s);
      TrimIsEmptyIff(s[..|s| - TrailingBlank(s)]);
    }
  }

  lemma BlankFreePart(s: seq<byte>, from: nat, upto: nat)
    requires from <= upto <= |s| && BlankFree(s)
    ensures BlankFree(s[from..upto])
  {
    var t := s[from..upto];
    forall i | 0 <= i < |t|
      ensures LeadingBlank(t[i..]) == 0
    {
      assert t[i..] == s[from + i..][..|t| - i];
      if LeadingBlank(t[i..]) > 0 {
        LeadingBlankOfPrefix(s[from + i..], |t| - i);
      }
    }
  }

  lemma TrimOfBlankFree(s: seq<byte>)
    requires BlankFree(s)
    ensures Trim(s) == s && (s != [] ==> !AllBlank(s))
  {
    if s != [] {
      assert s[0..] == s;
      if TrailingBlank(s) > 0 {
        var n := |s| - TrailingBlank(s);
        WholeBlankLeads(s[n..], s[n..]);
      }
    }
  }

  function DropLeadingSlash(s: seq<byte>): (t: seq<byte>)
    ensures |t| <= |s|
  {
    if s != [] && s[0] == SLASH then s[1..] else s
  }

  function DropTrailingSlash(s: seq<byte>): (t: seq<byte>)
    ensures |t| <= |s|
  {
    if s != [] && s[|s| - 1] == SLASH then s[..|s| - 1] else s
  }

  /** One leading slash, no blanks around, the default when nothing is left. */
  function Normalize(message: Text): (t: seq<byte>)
    ensures t != [] && t[0] == SLASH
    ensures AllBlank(message) ==> t == DEFAULT_TAG
    ensures !AllBlank(message) ==> |t| <= |message| + 1
    ensures |t| < 0x1_0000_0000
  {
    TrimIsEmptyIff(message);
    var trimmed := Trim(message);
    if trimmed == [] then DEFAULT_TAG else [SLASH] + DropTrailingSlash(DropLeadingSlash(trimmed))
  }

  /** A bare slash stays one. */
  lemma BareSlashNormalizes()
    ensures Normalize([SLASH]) == [SLASH]
  {
    assert LeadingBlank([SLASH]) == 0 && TrailingBlank([SLASH]) == 0;
  }

  /** The length of a text of `n` bytes with its length prefix. */
  function StringLen(n: nat): nat {
    if n < 253 then n + 1 else if n < 0x10000 then n + 3 else n + 5
  }

  function StringScript(b: seq<byte>): (s: seq<byte>)
    requires |b| < 0x1_0000_0000
    ensures |s| == StringLen(|b|)
  {
    if |b| < 253 then [|b|] + b
    else if |b| < 0x10000 then [253] + LE(|b|, 2) + b
    else [254] + LE(|b|, 4) + b
  }

  /** The text itself comes last, and a short one behind its length. */
  lemma StringScriptHolds(b: seq<byte>)
    requires |b| < 0x1_0000_0000
    ensures StringScript(b)[StringLen(|b|) - |b|..] == b && (|b| < 253 ==> StringScript(b)[0] == |b|)
  {
  }

  // ---------------------------------------------------------------- limits

  const MIN_SCRIPTSIG := 2
  const MAX_SCRIPTSIG := 100
  const EXTRANONCE1_SIZE := 4

  function Max(a: int, b: int): int {
    if a > b then a else b
  }

  /** The number, flag, length and extranonce bytes, for a four-byte extranonce1. */
  function FixedLen(height: i64, scriptTime: i64, flags: seq<byte>, extranonce2Size: int, templateSize: int): (n: int)
    ensures extranonce2Size >= 0 ==> n > 0
  {
    var template := Max(templateSize, extranonce2Size);
    |NumberScript(height)| + |flags| + |NumberScript(scriptTime)| + 1 +
    Max(template - extranonce2Size, 0) + EXTRANONCE1_SIZE + extranonce2Size
  }

  datatype Tag = Tag(text: seq<byte>, truncated: bool)

  /** The body of a normalized tag, without its slash. */
  function Body(message: Text): seq<byte> {
    Normalize(message)[1..]
  }

  /** The body, cut from the end until the tag fits. */
  function KeepFitting(body: seq<byte>, allowed: int): (kept: seq<byte>)
    ensures kept <= body
    ensures kept == body || StringLen(|kept| + 2) > allowed
    ensures kept == [] || StringLen(|kept| + 1) <= allowed
  {
    if body == [] || StringLen(|body| + 1) <= allowed then body else KeepFitting(body[..|body| - 1], allowed)
  }

  function TagText(body: seq<byte>): seq<byte> {
    if body == [] then [SLASH] else body
  }

  /** What a clamped tag keeps of its body. */
  function Kept(message: Text, limit: int, fixedLen: int): seq<byte> {
    KeepFitting(Body(message), limit - fixedLen)
  }

  /** The longest prefix of the tag that leaves the scriptSig within `limit` bytes. */
  function Clamp(message: Text, limit: int, fixedLen: int): Result<Tag> {
    if limit < MIN_SCRIPTSIG || limit > MAX_SCRIPTSIG then Err("limit out of range")
    else if limit - fixedLen < 2 then Err("not even a slash fits")
    else Ok(Tag(TagText(Kept(message, limit, fixedLen)), Kept(message, limit, fixedLen) != Body(message)))
  }

  method ClampCoinbaseMessage(
    message: Text, limit: int, height: i64, scriptTime: i64, flagsHex: string, extranonce2Size: int, templateSize: int)
    returns (r: Result<Tag>)
    ensures match HexDecode(flagsHex)
            case None => r.Err?
            case Some(flags) =>
              var fixedLen := FixedLen(height, scriptTime, flags, extranonce2Size, templateSize);
              (r.Ok? <==> Clamp(message, limit, fixedLen).Ok?) && (r.Ok? ==> r == Clamp(message, limit, fixedLen))
  {
    var flags := HexDecode(flagsHex);
    if limit < MIN_SCRIPTSIG || limit > MAX_SCRIPTSIG {
      r := Err("limit out of range");
    } else if flags.None? {
      r := Err("decode coinbase flags");
    } else {
      r := ClampBeside(message, limit, FixedLen(height, scriptTime, flags.value, extranonce2Size, templateSize));
    }
  }

  /** Clamps the tag beside fixed fields of a known length. */
  method ClampBeside(message: Text, limit: int, fixedLen: int) returns (r: Result<Tag>)
    requires MIN_SCRIPTSIG <= limit <= MAX_SCRIPTSIG
    ensures (r.Ok? <==> Clamp(message, limit, fixedLen).Ok?) && (r.Ok? ==> r == Clamp(message, limit, fixedLen))
  {
    BareSlashNormalizes();
    var smallest := |StringScript(Normalize([SLASH]))|;
    if limit - fixedLen < smallest {
      r := Err("fixed fields leave no room");
    } else {
      r := FitTag(Normalize(message), limit - fixedLen);
    }
  }

  /** The whole tag when it fits, else its longest prefix that does. */
  method FitTag(normalized: seq<byte>, allowed: int) returns (r: Result<Tag>)
    requires normalized != [] && normalized[0] == SLASH && |normalized| < 0x1_0000_0000 && allowed >= 2
    ensures
      var kept := KeepFitting(normalized[1..], allowed);
      r == Ok(Tag(TagText(kept), kept != normalized[1..]))
  {
    var body := DropLeadingSlash(normalized);
    if |StringScript(normalized)| <= allowed {
      return Ok(Tag(TagText(body), false));
    }
    while |body| > 0
      invariant body <= normalized[1..] && StringLen(|body| + 1) > allowed
      invariant KeepFitting(body, allowed) == KeepFitting(normalized[1..], allowed)
      decreases |body|
    {
      body := body[..|body| - 1];
      var candidate := [SLASH] + body;
      if |StringScript(candidate)| <= allowed {
        return Ok(Tag(TagText(body), true));
      }
    }
    return Err("smallest tag does not fit");
  }

  /** The scriptSig length a builder computes for a message. */
  function ScriptSigLen(fixedLen: int, message: Text): int {
    fixedLen + |StringScript(Normalize(message))|
  }

  /**
   When the clamped tag, normalized once more by the builder, keeps the scriptSig within the limit:
   always, except that a kept part of nothing but spaces turns into the default tag.
   */
  lemma ClampKeepsLimitIff(message: Text, limit: int, fixedLen: int)
    requires Clamp(message, limit, fixedLen).Ok?
    ensures
      var kept := Kept(message, limit, fixedLen);
      ScriptSigLen(fixedLen, Clamp(message, limit, fixedLen).value.text) <= limit <==>
      (kept == [] || !AllBlank(kept) || fixedLen + |DEFAULT_TAG| + 1 <= limit)
  {
    KeptTextFitsIff(Kept(message, limit, fixedLen), limit - fixedLen);
  }

  lemma KeptTextFitsIff(kept: Text, allowed: int)
    requires 2 <= allowed && (kept == [] || StringLen(|kept| + 1) <= allowed)
    ensures StringLen(|Normalize(TagText(kept))|) <= allowed <==>
            kept == [] || !AllBlank(kept) || |DEFAULT_TAG| + 1 <= allowed
  {
    if kept == [] {
      BareSlashNormalizes();
    } else if !AllBlank(kept) {
      StringLenMonotone(|Normalize(kept)|, |kept| + 1);
    }
  }

  lemma StringLenMonotone(m: nat, n: nat)
    requires m <= n
    ensures StringLen(m) <= StringLen(n)
  {
  }

  /** For messages without spaces the bound holds, so neither builder reports a length error. */
  lemma ClampKeepsLimit(message: Text, limit: int, fixedLen: int, fixedLen': int)
    requires 0 <= fixedLen' <= fixedLen && BlankFree(message)
    ensures
      Clamp(message, limit, fixedLen).Ok? ==>
        MIN_SCRIPTSIG <= ScriptSigLen(fixedLen', Clamp(message, limit, fixedLen).value.text) <= limit <= MAX_SCRIPTSIG
  {
    if Clamp(message, limit, fixedLen).Ok? {
      ClampKeepsLimitIff(message, limit, fixedLen);
      KeptIsNotBlank(message, limit, fixedLen);
      EncodedTagIsLong(Clamp(message, limit, fixedLen).value.text);
    }
  }

  lemma KeptIsNotBlank(message: Text, limit: int, fixedLen: int)
    requires BlankFree(message)
    ensures Kept(message, limit, fixedLen) == [] || !AllBlank(Kept(message, limit, fixedLen))
  {
    BodyOfBlankFree(message);
    BlankFreePrefix(Body(message), Kept(message, limit, fixedLen));
    TrimOfBlankFree(Kept(message, limit, fixedLen));
  }

  lemma EncodedTagIsLong(message: Text)
    ensures |StringScript(Normalize(message))| >= 2
  {
    StringLenMonotone(1, |Normalize(message)|);
  }

  lemma BodyOfBlankFree(message: Text)
    requires BlankFree(message)
    ensures BlankFree(Body(message))
  {
    TrimOfBlankFree(message);
    if message != [] {
      DroppedSlashesBlankFree(message);
      TrimIsEmptyIff(message);
    } else {
      DefaultIsBlankFree();
    }
  }

  lemma DroppedSlashesBlankFree(s: seq<byte>)
    requires BlankFree(s)
    ensures BlankFree(DropTrailingSlash(DropLeadingSlash(s)))
  {
    var rest := DropLeadingSlash(s);
    BlankFreePart(s, |s| - |rest|, |s|);
    assert s[|s| - |rest|..|s|] == rest;
    BlankFreePrefix(rest, DropTrailingSlash(rest));
  }

  lemma BlankFreePrefix(s: seq<byte>, t: seq<byte>)
    requires BlankFree(s) && t <= s
    ensures BlankFree(t)
  {
    BlankFreePart(s, 0, |t|);
    assert s[0..|t|] == t;
  }

  lemma DefaultIsBlankFree()
    ensures BlankFree(DEFAULT_TAG[1..])
  {
    var body := DEFAULT_TAG[1..];
    assert forall i :: 0 <= i < |body| ==> 47 < body[i] < 0x80;
    forall i | 0 <= i < |body|
      ensures LeadingBlank(body[i..]) == 0
    {
      assert body[i..][0] == body[i];
    }
  }

  /** Clamping fails exactly when the limit is unusable or not even "/" fits. */
  lemma ClampFailsIff(message: Text, limit: int, fixedLen: int)
    ensures Clamp(message, limit, fixedLen).Err? <==>
            limit < MIN_SCRIPTSIG || limit > MAX_SCRIPTSIG || fixedLen + |StringScript(Normalize([SLASH]))| > limit
  {
    BareSlashNormalizes();
  }

  /** Nothing longer would fit: any longer prefix of the tag breaks the limit. */
  lemma ClampKeepsLongest(message: Text, limit: int, fixedLen: int, n: nat)
    requires Clamp(message, limit, fixedLen).Ok? && n <= |Body(message)|
    ensures
      fixedLen + |StringScript([SLASH] + Body(message)[..n])| <= limit <==> n <= |Kept(message, limit, fixedLen)|
  {
  }

  /** A tag of nothing but spaces, here one no-break space, really does break the bound. */
  lemma BlankTagBreaksLimit(message: Text, limit: int, fixedLen: int)
    requires message == [SLASH, 0xc2, 0xa0, SLASH] && limit == 21 && fixedLen == 17
    ensures Clamp(message, limit, fixedLen).Ok?
    ensures ScriptSigLen(fixedLen, Clamp(message, limit, fixedLen).value.text) > limit
  {
    BodyBetweenSlashes(message, message[1..3]);
    SpaceIsBlank(message[1..3]);
    ClampKeepsLimitIff(message, limit, fixedLen);
  }

  lemma BodyBetweenSlashes(message: Text, middle: seq<byte>)
    requires |message| > 2 && message[0] == SLASH && message[|message| - 1] == SLASH
    requires middle == message[1..|message| - 1]
    ensures Body(message) == middle
  {
    assert LeadingBlank(message) == 0 && TrailingBlank(message) == 0;
  }

  lemma SpaceIsBlank(s: seq<byte>)
    requires |s| == 2 && s[0] == 0xc2 && s[1] == 0xa0
    ensures AllBlank(s)
  {
    assert LeadingBlank(s) == 2;
  }
}
