/**
 Which header version a submitted share used: the ordinary reading, its alternate, and every other
 plausible reading, tried only to rescue a block.
 */
module BlockRescue {
  import opened Results
  import opened Sequences

  datatype Policy = Policy(active: bool, mask: bv32)

  /** BIP 310: the miner's bits inside the mask, the job's bits outside. */
  function ReplaceBits(base: bv32, submitted: bv32, mask: bv32): bv32 {
    (base & !mask) | (submitted & mask)
  }

  predicate WithinMask(bits: bv32, mask: bv32) {
    bits & !mask == 0
  }

  /** The bits of `delta` turned over. */
  function Flip(base: bv32, delta: bv32): bv32 {
    base ^ delta
  }

  lemma ReplacedBits(base: bv32, submitted: bv32, mask: bv32)
    ensures
      var v := ReplaceBits(base, submitted, mask);
      v & mask == submitted & mask && v & !mask == base & !mask
  {
  }

  lemma FlippedBits(base: bv32, delta: bv32)
    ensures var v := Flip(base, delta); v & !delta == base & !delta && v & delta == !base & delta
  {
  }

  datatype Resolution = Resolution(useVersion: bv32, versionDiff: bv32, alternate: Option<bv32>)

  function ResolveSubmittedVersion(
    base: bv32, submitted: bv32, policy: Policy, allowMaskMismatch: bool, provided: bool): Resolution
  {
    if !provided then Resolution(base, 0, None)
    else if policy.active && WithinMask(submitted, policy.mask) then
      var replaced, xored := ReplaceBits(base, submitted, policy.mask), Flip(base, submitted);
      Resolution(replaced, Flip(replaced, base), if xored != replaced then Some(xored) else None)
    else
      var diff := Flip(submitted, base);
      if WithinMask(diff, policy.mask) then Resolution(submitted, diff, None)
      else if allowMaskMismatch then Resolution(Flip(base, submitted), submitted, None)
      else Resolution(submitted, diff, None)
  }

  predicate Tried(r: Resolution, v: bv32) {
    v == r.useVersion || r.alternate == Some(v)
  }

  /** The readings of one supplied value: under a mask, as a full version, as a delta. */
  datatype Value = Value(under: bv32 -> bv32, full: bv32, delta: bv32)

  function Supplied(base: bv32, submitted: bv32): Value {
    Value(mask => ReplaceBits(base, submitted, mask), submitted, Flip(base, submitted))
  }

  // ---------------------------------------------------------------- the candidate list

  function AddCandidate(list: seq<bv32>, r: Resolution, v: bv32): seq<bv32> {
    if Tried(r, v) || v in list then list else list + [v]
  }

  function AddAll(list: seq<bv32>, r: Resolution, vs: seq<bv32>): seq<bv32>
    decreases |vs|
  {
    if vs == [] then list else AddAll(AddCandidate(list, r, vs[0]), r, vs[1..])
  }

  /** The list stays free of repeats and of versions already tried, and misses nothing else. */
  lemma {:induction false} AddAllCollects(list: seq<bv32>, r: Resolution, vs: seq<bv32>)
    requires Distinct(list) && forall v :: v in list ==> !Tried(r, v)
    ensures Distinct(AddAll(list, r, vs))
    ensures forall v :: v in AddAll(list, r, vs) <==> v in list || (v in vs && !Tried(r, v))
    decreases |vs|
  {
    if vs != [] {
      AddAllCollects(AddCandidate(list, r, vs[0]), r, vs[1..]);
      assert vs == [vs[0]] + vs[1..];
    }
  }

  lemma {:induction false} AddAllSnoc(list: seq<bv32>, r: Resolution, vs: seq<bv32>, v: bv32)
    ensures AddAll(list, r, vs + [v]) == AddCandidate(AddAll(list, r, vs), r, v)
    decreases |vs|
  {
    if vs == [] {
      assert vs + [v] == [v];
    } else {
      assert (vs + [v])[1..] == vs[1..] + [v];
      AddAllSnoc(AddCandidate(list, r, vs[0]), r, vs[1..], v);
    }
  }

  function UnderAll(x: Value, masks: seq<bv32>): (vs: seq<bv32>)
    ensures |vs| == |masks|
    ensures forall i :: 0 <= i < |masks| ==> vs[i] == x.under(masks[i])
  {
    if masks == [] then [] else [x.under(masks[0])] + UnderAll(x, masks[1..])
  }

  function UnderPolicy(x: Value, p: Option<Policy>): seq<bv32> {
    if p.Some? && p.value.active then [x.under(p.value.mask)] else []
  }

  /** The notify-time policy, unless it is the current one. */
  function IfDifferent(p: Option<Policy>, current: Policy): Option<Policy> {
    if p == Some(current) then None else p
  }

  /** Every reading the rescue looks at, in order, before the ones already tried are left out. */
  function Readings(x: Value, current: Policy, notified: Option<Policy>, masks: seq<bv32>): seq<bv32> {
    UnderPolicy(x, Some(current)) + UnderPolicy(x, IfDifferent(notified, current)) + UnderAll(x, masks) +
    [x.full, x.delta]
  }

  /** Three inline slots, then an overflow list, and one count for both. */
  class Candidates {
    const ordinary: Resolution
    var versions: array<bv32>
    var extra: seq<bv32>
    var count: nat

    ghost predicate Valid()
      reads this, versions
    {
      && versions.Length == 3
      && |extra| == (if count <= 3 then 0 else count - 3)
    }

    function Contents(): (s: seq<bv32>)
      requires Valid()
      reads this, versions
      ensures |s| == count
    {
      if count <= 3 then versions[..count] else versions[..] + extra
    }

    constructor (ordinary: Resolution)
      ensures Valid() && Contents() == [] && this.ordinary == ordinary && fresh(versions)
    {
      this.ordinary := ordinary;
      versions := new bv32[3](i => 0);
      extra, count := [], 0;
    }

    function At(i: nat): (v: bv32)
      requires Valid() && i < count
      reads this, versions
      ensures v == Contents()[i]
    {
      if i < 3 then versions[i] else extra[i - 3]
    }

    method Append(candidate: bv32)
      requires Valid()
      modifies this`extra, this`count, versions
      ensures Valid() && Contents() == AddCandidate(old(Contents()), ordinary, candidate)
    {
      if Tried(ordinary, candidate) {
        return;
      }
      var i := 0;
      while i < count
        invariant 0 <= i <= count
        invariant candidate !in Contents()[..i]
      {
        if At(i) == candidate {
          return;
        }
        i := i + 1;
      }
      assert candidate !in Contents()[..count] && Contents()[..count] == Contents();
      ghost var before := Contents();
      if count < 3 {
        versions[count] := candidate;
      } else {
        extra := extra + [candidate];
      }
      count := count + 1;
      assert Contents() == before + [candidate];
    }

    method AppendAll(vs: seq<bv32>)
      requires Valid()
      modifies this`extra, this`count, versions
      ensures Valid() && Contents() == AddAll(old(Contents()), ordinary, vs)
    {
      var i := 0;
      while i < |vs|
        invariant 0 <= i <= |vs| && Valid()
        invariant Contents() == AddAll(old(Contents()), ordinary, vs[..i])
      {
        assert vs[..i + 1] == vs[..i] + [vs[i]];
        AddAllSnoc(old(Contents()), ordinary, vs[..i], vs[i]);
        Append(vs[i]);
        i := i + 1;
      }
      assert vs[..i] == vs;
    }
  }

  method BlockOnlyRescueVersions(
    x: Value, ordinary: Resolution, current: Policy, notified: Option<Policy>, masks: seq<bv32>)
    returns (list: seq<bv32>)
    ensures list == AddAll([], ordinary, Readings(x, current, notified, masks))
  {
    var c := new Candidates(ordinary);
    c.AppendAll(Readings(x, current, notified, masks));
    list := c.Contents();
  }

  // ---------------------------------------------------------------- choosing the reading

  /** The pool's view of each version: does its header win, is it an acceptable share. */
  datatype Work = Work(wins: bv32 -> bool, acceptable: bv32 -> bool)

  function PreferAlternate(primaryWins: bool, alternateWins: bool, primaryOk: bool, alternateOk: bool): bool {
    if alternateWins && !primaryWins then true
    else if primaryWins then false
    else !primaryOk && alternateOk
  }

  method ResolveSubmissionContext(r: Resolution, rescue: seq<bv32>, work: Work) returns (version: bv32, isBlock: bool)
    ensures isBlock == work.wins(version)
    ensures isBlock <==> exists v :: (Tried(r, v) || v in rescue) && work.wins(v)
    ensures Tried(r, version) || version in rescue
    ensures !isBlock ==> Tried(r, version)
    ensures work.wins(r.useVersion) ==> version == r.useVersion
    ensures !isBlock && version != r.useVersion ==>
              !(work.acceptable(r.useVersion) || work.wins(r.useVersion)) && work.acceptable(version)
    ensures !isBlock && r.alternate.Some? && !work.acceptable(r.useVersion) && work.acceptable(r.alternate.value) ==>
              version == r.alternate.value
    ensures r.alternate.Some? && work.wins(r.alternate.value) && !work.wins(r.useVersion) ==>
              version == r.alternate.value
  {
    version := r.useVersion;
    if r.alternate.Some? {
      var alternate := r.alternate.value;
      var primaryOk := work.wins(version) || work.acceptable(version);
      var alternateOk := work.wins(alternate) || work.acceptable(alternate);
      if PreferAlternate(work.wins(version), work.wins(alternate), primaryOk, alternateOk) {
        version := alternate;
      }
    }
    isBlock := work.wins(version);
    assert isBlock <==> exists v :: Tried(r, v) && work.wins(v) by {
      assert Tried(r, version) && Tried(r, r.useVersion);
    }
    if !isBlock {
      var i := 0;
      while i < |rescue|
        invariant 0 <= i <= |rescue|
        invariant forall j :: 0 <= j < i ==> !work.wins(rescue[j])
      {
        if work.wins(rescue[i]) {
          return rescue[i], true;
        }
        i := i + 1;
      }
    }
  }

  // ---------------------------------------------------------------- completeness

  /** Every version a miner may have hashed for a supplied value. */
  ghost predicate Plausible(x: Value, current: Policy, notifyTime: Option<Policy>, masks: seq<bv32>, v: bv32) {
    || v == x.full
    || v == x.delta
    || (current.active && v == x.under(current.mask))
    || (notifyTime.Some? && notifyTime.value.active && v == x.under(notifyTime.value.mask))
    || (exists i :: 0 <= i < |masks| && v == x.under(masks[i]))
  }

  lemma UnderAllMembers(x: Value, masks: seq<bv32>, v: bv32)
    ensures v in UnderAll(x, masks) <==> exists i :: 0 <= i < |masks| && v == x.under(masks[i])
  {
    if i :| 0 <= i < |masks| && v == x.under(masks[i]) {
      assert UnderAll(x, masks)[i] == v;
    }
  }

  lemma ReadingsArePlausible(x: Value, current: Policy, notifyTime: Option<Policy>, masks: seq<bv32>, v: bv32)
    ensures v in Readings(x, current, notifyTime, masks) <==> Plausible(x, current, notifyTime, masks, v)
  {
    UnderAllMembers(x, masks, v);
    var first, second := UnderPolicy(x, Some(current)), UnderPolicy(x, IfDifferent(notifyTime, current));
    var third, last := UnderAll(x, masks), [x.full, x.delta];
    assert v in first + second + third + last <==> v in first || v in second || v in third || v in last;
  }

  lemma ResolutionIsPlausible(
    base: bv32, submitted: bv32, current: Policy, allow: bool, notifyTime: Option<Policy>, masks: seq<bv32>, v: bv32)
    requires Tried(ResolveSubmittedVersion(base, submitted, current, allow, true), v)
    ensures Plausible(Supplied(base, submitted), current, notifyTime, masks, v)
  {
  }

  /** The candidates are pairwise distinct, new, and together with the tried ones complete. */
  lemma RescueListComplete(
    base: bv32, submitted: bv32, current: Policy, notifyTime: Option<Policy>, masks: seq<bv32>, allow: bool)
    ensures
      var r, x := ResolveSubmittedVersion(base, submitted, current, allow, true), Supplied(base, submitted);
      var list := AddAll([], r, Readings(x, current, notifyTime, masks));
      && Distinct(list)
      && (forall v :: v in list ==> !Tried(r, v))
      && (forall v :: Tried(r, v) || v in list <==> Plausible(x, current, notifyTime, masks, v))
  {
    var r, x := ResolveSubmittedVersion(base, submitted, current, allow, true), Supplied(base, submitted);
    AddAllCollects([], r, Readings(x, current, notifyTime, masks));
    forall v
      ensures v in Readings(x, current, notifyTime, masks) <==> Plausible(x, current, notifyTime, masks, v)
      ensures Tried(r, v) ==> Plausible(x, current, notifyTime, masks, v)
    {
      ReadingsArePlausible(x, current, notifyTime, masks, v);
      if Tried(r, v) {
        ResolutionIsPlausible(base, submitted, current, allow, notifyTime, masks, v);
      }
    }
  }

  /**
   One submission, from the supplied value to the header that counts. A supplied value makes a block
   exactly when some plausible reading of it wins; other shares only ever use the ordinary readings.
   */
  method ResolveSubmission(
    base: bv32, submitted: bv32, provided: bool, current: Policy, notifyTime: Option<Policy>, masks: seq<bv32>,
    allow: bool, work: Work) returns (version: bv32, isBlock: bool)
    ensures isBlock == work.wins(version)
    ensures provided ==>
              (isBlock <==>
               exists v :: Plausible(Supplied(base, submitted), current, notifyTime, masks, v) && work.wins(v))
    ensures provided ==> Plausible(Supplied(base, submitted), current, notifyTime, masks, version)
    ensures !provided ==> version == base
    ensures !isBlock ==> Tried(ResolveSubmittedVersion(base, submitted, current, allow, provided), version)
  {
    var r := ResolveSubmittedVersion(base, submitted, current, allow, provided);
    var rescue: seq<bv32> := [];
    if provided {
      rescue := BlockOnlyRescueVersions(Supplied(base, submitted), r, current, notifyTime, masks);
      RescueListComplete(base, submitted, current, notifyTime, masks, allow);
    }
    version, isBlock := ResolveSubmissionContext(r, rescue, work);
  }
}
