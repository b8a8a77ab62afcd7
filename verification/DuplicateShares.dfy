/**
 Duplicate-share detection: a bounded set of recent share keys for each job, kept for a while after
 the job itself is evicted.
 */
module DuplicateShares {
  import opened Bytes
  import opened Sequences

  // ---------------------------------------------------------------- share keys

  const KEY_BYTES := 64

  /** A fixed 64-byte buffer of which the first `n` bytes are in use. */
  datatype ShareKey = ShareKey(n: nat, buf: seq<byte>)

  function Clip(b: seq<byte>): (c: seq<byte>)
    ensures |c| <= KEY_BYTES
  {
    if |b| <= KEY_BYTES then b else b[..KEY_BYTES]
  }

  function Padded(b: seq<byte>): ShareKey
    requires |b| <= KEY_BYTES
  {
    ShareKey(|b|, b + Zeros(KEY_BYTES - |b|))
  }

  function ShareFields(extranonce2: seq<byte>, ntime: u32, nonce: u32, version: u32): seq<byte> {
    extranonce2 + BE4(ntime) + BE4(nonce) + BE4(version)
  }

  /** The buffer holds as much of `fields` as fits, then zeros. */
  ghost predicate Holds(buf: array<byte>, n: nat, fields: seq<byte>)
    reads buf
  {
    && buf.Length == KEY_BYTES && n == |Clip(fields)|
    && buf[..n] == Clip(fields)
    && forall i :: n <= i < KEY_BYTES ==> buf[i] == 0
  }

  /** Appends as much of `b` as fits. */
  method WriteBytes(buf: array<byte>, n: nat, b: seq<byte>, ghost fields: seq<byte>) returns (n': nat)
    requires Holds(buf, n, fields)
    modifies buf
    ensures Holds(buf, n', fields + b)
  {
    var remain := KEY_BYTES - n;
    var take := if |b| > remain then remain else |b|;
    var i := 0;
    while i < take
      invariant 0 <= i <= take
      invariant buf[..n + i] == Clip(fields) + b[..i]
      invariant forall j :: n + i <= j < KEY_BYTES ==> buf[j] == 0
    {
      buf[n + i] := b[i];
      assert buf[..n + i + 1] == buf[..n + i] + [b[i]];
      i := i + 1;
    }
    n' := n + take;
    ClipTwice(fields, b);
    assert buf[..n'] == Clip(Clip(fields) + b);
  }

  method MakeDuplicateShareKeyDecoded(extranonce2: seq<byte>, ntime: u32, nonce: u32, version: u32)
    returns (key: ShareKey)
    ensures key == Padded(Clip(ShareFields(extranonce2, ntime, nonce, version)))
  {
    var buf := new byte[KEY_BYTES](i => 0);
    var n := WriteBytes(buf, 0, extranonce2, []);
    assert [] + extranonce2 == extranonce2;
    n := WriteBytes(buf, n, BE4(ntime), extranonce2);
    n := WriteBytes(buf, n, BE4(nonce), extranonce2 + BE4(ntime));
    n := WriteBytes(buf, n, BE4(version), extranonce2 + BE4(ntime) + BE4(nonce));
    key := ShareKey(n, buf[..]);
    assert buf[..] == buf[..n] + buf[n..] && buf[n..] == Zeros(KEY_BYTES - n);
  }

  lemma ClipTwice(a: seq<byte>, b: seq<byte>)
    ensures Clip(Clip(a) + b) == Clip(a + b)
  {
  }

  /** Two shares with short extranonces get the same key only if they are the same share. */
  lemma ShareKeysInjective(
    e: seq<byte>, t: u32, o: u32, v: u32, e': seq<byte>, t': u32, o': u32, v': u32)
    requires |e| <= 52 && |e'| <= 52
    requires Padded(Clip(ShareFields(e, t, o, v))) == Padded(Clip(ShareFields(e', t', o', v')))
    ensures e == e' && t == t' && o == o' && v == v'
  {
    var a, b := ShareFields(e, t, o, v), ShareFields(e', t', o', v');
    assert Padded(a).buf[..|a|] == a && Padded(b).buf[..|b|] == b;
    assert a == b;
    assert e == a[..|e|] && BE4(t) == a[|e|..|e| + 4] && BE4(o) == a[|e| + 4..|e| + 8] && BE4(v) == a[|e| + 8..];
    assert e' == b[..|e|] && BE4(t') == b[|e|..|e| + 4] && BE4(o') == b[|e| + 4..|e| + 8] && BE4(v') == b[|e| + 8..];
    BE4Injective(t, t');
    BE4Injective(o, o');
    BE4Injective(v, v');
  }

  ghost predicate KeysDistinguish(len: nat) {
    forall e: seq<byte>, t: u32, o: u32, v: u32, e': seq<byte>, t': u32, o': u32, v': u32 ::
      |e| == len && |e'| == len &&
      Padded(Clip(ShareFields(e, t, o, v))) == Padded(Clip(ShareFields(e', t', o', v'))) ==>
        e == e' && t == t' && o == o' && v == v'
  }

  /** 52 bytes is the exact limit: with longer extranonces different shares can collide. */
  lemma KeysDistinguishIffShort(len: nat)
    ensures KeysDistinguish(len) <==> len <= 52
  {
    if len <= 52 {
      forall e: seq<byte>, t: u32, o: u32, v: u32, e': seq<byte>, t': u32, o': u32, v': u32 |
        |e| == len && |e'| == len &&
        Padded(Clip(ShareFields(e, t, o, v))) == Padded(Clip(ShareFields(e', t', o', v')))
        ensures e == e' && t == t' && o == o' && v == v'
      {
        ShareKeysInjective(e, t, o, v, e', t', o', v');
      }
    } else {
      var e := Zeros(len);
      assert Clip(ShareFields(e, 0, 0, 0)) == Clip(ShareFields(e, 0, 0, 1));
    }
  }

  // ---------------------------------------------------------------- one job's set

  const HISTORY := 100
  const KEPT := 91

  function AddKey<K(==)>(order: seq<K>, key: K): seq<K> {
    if key in order then order
    else if |order| >= HISTORY then order[HISTORY / 10..] + [key]
    else order + [key]
  }

  /** The retained keys, and every key ever newly recorded, oldest first. */
  datatype Log<K> = Log(order: seq<K>, recorded: seq<K>)

  function Play<K(==)>(keys: seq<K>): (l: Log<K>) {
    if keys == [] then Log([], [])
    else
      var l, key := Play(keys[..|keys| - 1]), keys[|keys| - 1];
      Log(AddKey(l.order, key), if key in l.order then l.recorded else l.recorded + [key])
  }

  predicate IsSuffix<K(==)>(s: seq<K>, of: seq<K>) {
    |s| <= |of| && s == of[|of| - |s|..]
  }

  predicate GoodOrder<K(==)>(order: seq<K>, recorded: seq<K>) {
    && Distinct(order) && |order| <= HISTORY
    && IsSuffix(order, recorded)
    && (|order| >= KEPT || order == recorded)
  }

  lemma AddKeyKeepsGood<K>(order: seq<K>, recorded: seq<K>, key: K)
    requires GoodOrder(order, recorded)
    ensures GoodOrder(AddKey(order, key), if key in order then recorded else recorded + [key])
  {
    if key !in order {
      var next, all := AddKey(order, key), recorded + [key];
      assert next == all[|all| - |next|..];
    }
  }

  lemma {:induction false} PlayIsGood<K>(keys: seq<K>)
    ensures GoodOrder(Play(keys).order, Play(keys).recorded)
    ensures forall k :: k in Play(keys).recorded ==> k in keys
  {
    if keys != [] {
      var init := keys[..|keys| - 1];
      PlayIsGood(init);
      AddKeyKeepsGood(Play(init).order, Play(init).recorded, keys[|keys| - 1]);
    }
  }

  /** After any shares: "seen" is never false alarm, and never misses the last 91 recorded keys. */
  lemma SeenIsTruthfulAndRecent<K>(keys: seq<K>, key: K)
    ensures key in Play(keys).order ==> key in keys
    ensures
      var all := Play(keys).recorded;
      var recent := if |all| <= KEPT then all else all[|all| - KEPT..];
      key in recent ==> key in Play(keys).order
  {
    PlayIsGood(keys);
    var all, order := Play(keys).recorded, Play(keys).order;
    var recent := if |all| <= KEPT then all else all[|all| - KEPT..];
    if key in recent {
      var i :| 0 <= i < |recent| && recent[i] == key;
      var gap := |order| - |recent|;
      assert 0 <= gap && order[gap + i] == all[|all| - |recent| + i];
    }
  }

  class DuplicateShareSet {
    var m: set<ShareKey>
    var order: seq<ShareKey>

    ghost predicate Valid()
      reads this
    {
      Distinct(order) && |order| <= HISTORY && m == set k | k in order
    }

    constructor ()
      ensures Valid() && order == []
    {
      m, order := {}, [];
    }

    method SeenOrAdd(key: ShareKey) returns (seen: bool)
      requires Valid()
      modifies this
      ensures Valid()
      ensures seen == (key in old(order)) && order == AddKey(old(order), key)
    {
      if key in m {
        return true;
      }
      if |order| >= HISTORY {
        var evictCount := HISTORY / 10;
        var i := 0;
        while i < evictCount
          invariant 0 <= i <= evictCount && order == old(order)
          invariant m == set k | k in order[i..]
        {
          assert order[i..] == [order[i]] + order[i + 1..];
          m := m - {order[i]};
          i := i + 1;
        }
        order := order[evictCount..];
      }
      m := m + {key};
      order := order + [key];
      return false;
    }
  }
}
