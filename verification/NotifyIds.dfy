/** Job IDs sent to miners: base-58 counters, and the per-connection notify ID. */
module NotifyIds {
  import opened Bytes

  /** The digits, in order of value. */
  const ALPHABET := "123456789" + "ABCDEFGH" + "JKLMN" + "PQRSTUVWXYZ" + "abcdefghijk" + "mnopqrstuvwxyz"

  /** The digit of value `n`, by ranges. */
  function Digit(n: nat): (c: char)
    requires n < 58
    ensures DigitValue(c) == n && c != '-'
  {
    if n < 9 then '1' + n as char
    else if n < 17 then 'A' + (n - 9) as char
    else if n < 22 then 'J' + (n - 17) as char
    else if n < 33 then 'P' + (n - 22) as char
    else if n < 44 then 'a' + (n - 33) as char
    else 'm' + (n - 44) as char
  }

  function DigitValue(c: char): int {
    if '1' <= c <= '9' then (c - '1') as int
    else if 'A' <= c <= 'H' then (c - 'A') as int + 9
    else if 'J' <= c <= 'N' then (c - 'J') as int + 17
    else if 'P' <= c <= 'Z' then (c - 'P') as int + 22
    else if 'a' <= c <= 'k' then (c - 'a') as int + 33
    else if 'm' <= c <= 'z' then (c - 'm') as int + 44
    else -1
  }

  lemma DigitsAreTheAlphabet(n: nat)
    requires n < 58
    ensures ALPHABET[n] == Digit(n)
  {
  }

  /** Most significant digit first; no digits at all for zero. */
  function Digits58(v: nat): string {
    if v == 0 then "" else Digits58(v / 58) + [Digit(v % 58)]
  }

  function Base58(v: nat): string {
    if v == 0 then [Digit(0)] else Digits58(v)
  }

  function ValueOf58(s: string): int {
    if s == "" then 0 else 58 * ValueOf58(s[..|s| - 1]) + DigitValue(s[|s| - 1])
  }

  lemma {:induction false} Digits58Inverse(v: nat)
    ensures ValueOf58(Digits58(v)) == v && '-' !in Digits58(v)
  {
    if v > 0 {
      Digits58Inverse(v / 58);
      var s := Digits58(v);
      assert s[..|s| - 1] == Digits58(v / 58);
    }
  }

  lemma Base58Injective(v: nat, w: nat)
    requires Base58(v) == Base58(w)
    ensures v == w
  {
    Digits58Inverse(v);
    Digits58Inverse(w);
    assert ValueOf58([Digit(0)]) == 0;
  }

  lemma Base58HasNoDash(v: nat)
    ensures '-' !in Base58(v)
  {
    Digits58Inverse(v);
  }

  function Pow58(n: nat): (r: nat)
    ensures r > 0
  {
    if n == 0 then 1 else 58 * Pow58(n - 1)
  }

  lemma {:induction false} Digits58Length(v: nat, n: nat)
    requires v < Pow58(n)
    ensures |Digits58(v)| <= n
  {
    if v > 0 {
      Digits58Length(v / 58, n - 1);
    }
  }

  lemma ElevenDigitsSuffice()
    ensures Pow58(11) > 0x1_0000_0000_0000_0000
  {
    assert Pow58(4) == 11316496;
    assert Pow58(8) == 11316496 * 11316496;
  }

  /** Fills a 16-byte buffer from the back. */
  method EncodeBase58Uint64(v: u64) returns (s: string)
    ensures s == Base58(v)
  {
    if v == 0 {
      return [Digit(0)];
    }
    ElevenDigitsSuffice();
    var buf := new char[16];
    var i, value := 16, v;
    while value > 0
      invariant 0 <= value && 5 <= i <= 16
      invariant value < Pow58(i - 5)
      invariant Digits58(v) == Digits58(value) + buf[i..]
      decreases value
    {
      i := i - 1;
      buf[i] := Digit(value % 58);
      assert buf[i..] == [Digit(value % 58)] + buf[i + 1..];
      value := value / 58;
    }
    s := buf[i..];
  }

  // ---------------------------------------------------------------- notify IDs

  /** What a job is called toward miners. */
  type JobId = string

  const MAX_JOB_ID_LEN := 128

  predicate IsSpace(c: char) {
    c == ' ' || c == '\t' || c == '\n' || c == '\r' || c == 11 as char || c == 12 as char
  }

  function TrimSpace(s: string): (t: string)
    ensures |t| <= |s|
    ensures t != "" ==> !IsSpace(t[0]) && !IsSpace(t[|t| - 1])
    decreases |s|
  {
    if s == "" then s
    else if IsSpace(s[0]) then TrimSpace(s[1..])
    else if IsSpace(s[|s| - 1]) then TrimSpace(s[..|s| - 1])
    else s
  }

  function StratumNotifyJobID(base: string, seq_: u64): (id: JobId) {
    var trimmed := TrimSpace(base);
    var digits := Base58(if seq_ > 0 then seq_ - 1 else seq_);
    var suffix := "-" + digits;
    if trimmed == "" then digits
    else if |trimmed| + |suffix| <= MAX_JOB_ID_LEN then trimmed + suffix
    else if |suffix| >= MAX_JOB_ID_LEN then suffix[|suffix| - MAX_JOB_ID_LEN..]
    else trimmed[..MAX_JOB_ID_LEN - |suffix|] + suffix
  }

  /** An ID ends with its counter, set off by the last dash when there is a base. */
  lemma NotifyIdShape(base: string, seq_: u64)
    ensures
      var id, digits := StratumNotifyJobID(base, seq_), Base58(if seq_ > 0 then seq_ - 1 else seq_);
      |digits| <= 11 && |id| <= MAX_JOB_ID_LEN && EndsInCounter(id, digits)
  {
    var n := if seq_ > 0 then seq_ - 1 else seq_;
    ElevenDigitsSuffice();
    Digits58Length(n, 11);
    Base58HasNoDash(n);
    var trimmed, suffix := TrimSpace(base), "-" + Base58(n);
    if trimmed != "" {
      var p := if |trimmed| + |suffix| <= MAX_JOB_ID_LEN then trimmed else trimmed[..MAX_JOB_ID_LEN - |suffix|];
      assert StratumNotifyJobID(base, seq_) == p + "-" + Base58(n);
    }
  }

  lemma DashThenNone(id: string, p: string, s: string)
    requires id == p + "-" + s && '-' !in s
    ensures |id| == |p| + 1 + |s| && id[|p|] == '-' && id[|p| + 1..] == s
    ensures forall k :: |p| < k < |id| ==> id[k] != '-'
  {
    assert forall k :: |p| < k < |id| ==> id[k] == s[k - |p| - 1];
  }

  ghost predicate EndsInCounter(id: string, digits: string) {
    '-' !in digits && (id == digits || exists p: string :: id == p + "-" + digits)
  }

  lemma OneCounterPerId(id: string, d: string, d': string)
    requires EndsInCounter(id, d) && EndsInCounter(id, d')
    ensures d == d'
  {
    HasDashUnlessBare(id, d);
    HasDashUnlessBare(id, d');
    if id != d {
      var p: string :| id == p + "-" + d;
      var q: string :| id == q + "-" + d';
      DashThenNone(id, p, d);
      DashThenNone(id, q, d');
      assert |p| == |q|;
    }
  }

  lemma HasDashUnlessBare(id: string, digits: string)
    requires EndsInCounter(id, digits)
    ensures '-' in id <==> id != digits
  {
    if id != digits {
      var p: string :| id == p + "-" + digits;
      assert id[|p|] == '-';
    }
  }

  /** Whatever the base names, two notifies of one connection never share an ID. */
  lemma NotifyIdsDistinct(base: string, s: u64, base': string, s': u64)
    requires s >= 1 && s' >= 1 && s != s'
    ensures StratumNotifyJobID(base, s) != StratumNotifyJobID(base', s')
  {
    NotifyIdShape(base, s);
    NotifyIdShape(base', s');
    if StratumNotifyJobID(base, s) == StratumNotifyJobID(base', s') {
      OneCounterPerId(StratumNotifyJobID(base, s), Base58(s - 1), Base58(s' - 1));
      Base58Injective(s - 1, s' - 1);
    }
  }
}
