/** Merkle trees: the padded array, the branch list of the coinbase, and the folds that use it. `sha` is the hash. */
module Merkle {
  import opened Results
  import opened Bytes

  type Hasher = seq<byte> -> Hash

  /** The left hash, then the right one. */
  function Joined(left: Hash, right: Hash): (b: seq<byte>)
    ensures |b| == 64 && b[..32] == left && b[32..] == right
  {
    var first: seq<byte> := left;
    first + right
  }

  // ---------------------------------------------------------------- the tree of a block (Bitcoin's rule)

  /** One level up: neighbours are hashed together, a lone last one with itself. */
  function NextLevel(sha: Hasher, xs: seq<Hash>): (r: seq<Hash>)
    ensures |r| == (|xs| + 1) / 2
  {
    if xs == [] then []
    else if |xs| == 1 then [sha(Joined(xs[0], xs[0]))]
    else [sha(Joined(xs[0], xs[1]))] + NextLevel(sha, xs[2..])
  }

  function Root(sha: Hasher, xs: seq<Hash>): Hash
    requires xs != []
    decreases |xs|
  {
    if |xs| == 1 then xs[0] else Root(sha, NextLevel(sha, xs))
  }

  /** The siblings met on the way from the first leaf to the root. */
  function BranchList(sha: Hasher, xs: seq<Hash>): seq<Hash>
    decreases |xs|
  {
    if |xs| <= 1 then [] else [xs[1]] + BranchList(sha, NextLevel(sha, xs))
  }

  function Fold(sha: Hasher, start: Hash, branches: seq<Hash>): Hash
    decreases |branches|
  {
    if branches == [] then start else Fold(sha, sha(Joined(start, branches[0])), branches[1..])
  }

  /** The siblings do not depend on the first leaf. */
  lemma {:induction false} FirstLeafIsFree(sha: Hasher, xs: seq<Hash>, ys: seq<Hash>)
    requires xs != [] && |xs| == |ys| && xs[1..] == ys[1..]
    ensures BranchList(sha, xs) == BranchList(sha, ys)
    decreases |xs|
  {
    if |xs| > 1 {
      assert xs[1] == xs[1..][0] && ys[1] == ys[1..][0];
      assert xs[2..] == xs[1..][1..] && ys[2..] == ys[1..][1..];
      assert NextLevel(sha, xs)[1..] == NextLevel(sha, xs[2..]);
      assert NextLevel(sha, ys)[1..] == NextLevel(sha, ys[2..]);
      FirstLeafIsFree(sha, NextLevel(sha, xs), NextLevel(sha, ys));
    }
  }

  lemma {:induction false} FoldReachesRoot(sha: Hasher, xs: seq<Hash>)
    requires xs != []
    ensures Fold(sha, xs[0], BranchList(sha, xs)) == Root(sha, xs)
    decreases |xs|
  {
    if |xs| > 1 {
      var up := NextLevel(sha, xs);
      assert up[0] == sha(Joined(xs[0], xs[1]));
      assert BranchList(sha, xs)[1..] == BranchList(sha, up);
      FoldReachesRoot(sha, up);
    }
  }

  /** Branches built once with any placeholder give the block's root for every coinbase put in front. */
  lemma BranchesServeEveryCoinbase(sha: Hasher, placeholder: Hash, txs: seq<Hash>, coinbase: Hash)
    ensures Fold(sha, coinbase, BranchList(sha, [placeholder] + txs)) == Root(sha, [coinbase] + txs)
  {
    assert ([placeholder] + txs)[1..] == txs == ([coinbase] + txs)[1..];
    FirstLeafIsFree(sha, [placeholder] + txs, [coinbase] + txs);
    FoldReachesRoot(sha, [coinbase] + txs);
  }

  // ---------------------------------------------------------------- the padded array

  type Node = Option<Hash>

  function Parent(sha: Hasher, left: Node, right: Node): Node {
    if left.None? then None
    else if right.None? then Some(sha(Joined(left.value, left.value)))
    else Some(sha(Joined(left.value, right.value)))
  }

  function Up(sha: Hasher, level: seq<Node>): (r: seq<Node>)
    requires |level| % 2 == 0
    ensures |r| == |level| / 2
  {
    if level == [] then [] else [Parent(sha, level[0], level[1])] + Up(sha, level[2..])
  }

  lemma {:induction false} UpAt(sha: Hasher, level: seq<Node>, i: nat)
    requires |level| % 2 == 0 && 2 * i + 1 < |level|
    ensures Up(sha, level)[i] == Parent(sha, level[2 * i], level[2 * i + 1])
  {
    if i > 0 {
      UpAt(sha, level[2..], i - 1);
    }
  }

  predicate PowerOfTwo(n: nat) {
    n == 1 || (n > 1 && n % 2 == 0 && PowerOfTwo(n / 2))
  }

  /** All levels one after another, leaves first. */
  function Tree(sha: Hasher, level: seq<Node>): (t: seq<Node>)
    requires PowerOfTwo(|level|)
    ensures |t| == 2 * |level| - 1
    decreases |level|
  {
    if |level| == 1 then level else level + Tree(sha, Up(sha, level))
  }

  lemma TreeStartsWithLevel(sha: Hasher, level: seq<Node>)
    requires PowerOfTwo(|level|)
    ensures Tree(sha, level)[..|level|] == level
    ensures |level| > 1 ==> Tree(sha, level)[|level|..] == Tree(sha, Up(sha, level))
  {
  }

  /** Every inner cell is the parent of the two cells it covers. */
  lemma {:induction false} CellIsParent(sha: Hasher, level: seq<Node>, j: nat)
    requires PowerOfTwo(|level|) && j + 1 < |level|
    ensures Tree(sha, level)[|level| + j] == Parent(sha, Tree(sha, level)[2 * j], Tree(sha, level)[2 * j + 1])
    decreases |level|
  {
    CoversInTree(sha, level, Up(sha, level), Tree(sha, Up(sha, level)), j);
  }

  /** Cell `j` of the levels above covers cells `2j` and `2j + 1` of the whole. */
  ghost predicate Covers(sha: Hasher, whole: seq<Node>, above: seq<Node>, j: nat) {
    2 * j + 1 < |whole| && j < |above| && above[j] == Parent(sha, whole[2 * j], whole[2 * j + 1])
  }

  lemma {:induction false} CoversInTree(sha: Hasher, level: seq<Node>, up: seq<Node>, above: seq<Node>, j: nat)
    requires |level| % 2 == 0 && up == Up(sha, level) && PowerOfTwo(|up|) && above == Tree(sha, up) && j < |above|
    ensures Covers(sha, level + above, above, j)
    decreases |up|
  {
    if j < |up| {
      TreeStartsWithLevel(sha, up);
      LowestCovers(sha, level, up, above, j);
    } else {
      var next := Tree(sha, Up(sha, up));
      CoversInTree(sha, up, Up(sha, up), next, j - |up|);
      UpperCovers(sha, level, up, next, j, j - |up|);
    }
  }

  lemma LowestCovers(sha: Hasher, level: seq<Node>, up: seq<Node>, above: seq<Node>, j: nat)
    requires |level| % 2 == 0 && up == Up(sha, level) && up <= above && j < |up|
    ensures Covers(sha, level + above, above, j)
  {
    UpAt(sha, level, j);
  }

  lemma UpperCovers(sha: Hasher, level: seq<Node>, up: seq<Node>, next: seq<Node>, j: nat, k: nat)
    requires |level| == 2 * |up| && j == |up| + k && Covers(sha, up + next, next, k)
    ensures Covers(sha, level + (up + next), up + next, j)
  {
  }

  /** A level of hashes, filled up with empty cells. */
  function Padded(xs: seq<Hash>, width: nat): (level: seq<Node>)
    requires |xs| <= width
    ensures |level| == width
    ensures forall i :: 0 <= i < width ==> level[i] == if i < |xs| then Some(xs[i]) else None
  {
    seq(width, i requires 0 <= i => if i < |xs| then Some(xs[i]) else None)
  }

  lemma {:induction false} NextLevelAt(sha: Hasher, xs: seq<Hash>, i: nat)
    requires 2 * i < |xs|
    ensures NextLevel(sha, xs)[i] == sha(Joined(xs[2 * i], xs[if 2 * i + 1 < |xs| then 2 * i + 1 else 2 * i]))
  {
    if i > 0 {
      NextLevelAt(sha, xs[2..], i - 1);
    }
  }

  /** Going up a padded level is Bitcoin's step, padded to half the width. */
  lemma UpOfPadded(sha: Hasher, xs: seq<Hash>, width: nat)
    requires |xs| <= width && width % 2 == 0
    ensures Up(sha, Padded(xs, width)) == Padded(NextLevel(sha, xs), width / 2)
  {
    forall i | 0 <= i < width / 2
      ensures Up(sha, Padded(xs, width))[i] == Padded(NextLevel(sha, xs), width / 2)[i]
    {
      UpAt(sha, Padded(xs, width), i);
      if 2 * i < |xs| { NextLevelAt(sha, xs, i); }
    }
  }

  /** The root is found level by level: pairs of neighbours hashed, left before right, a lone last one with itself. */
  lemma RootByLevels(sha: Hasher, xs: seq<Hash>, up: seq<Hash>)
    requires |xs| > 1 && |up| == (|xs| + 1) / 2
    requires forall i :: 0 <= i < |up| ==>
               up[i] == sha(Joined(xs[2 * i], if 2 * i + 1 < |xs| then xs[2 * i + 1] else xs[2 * i]))
    ensures Root(sha, xs) == Root(sha, up)
  {
    forall i | 0 <= i < |up|
      ensures up[i] == NextLevel(sha, xs)[i]
    {
      NextLevelAt(sha, xs, i);
    }
    assert up == NextLevel(sha, xs);
  }

  method NextPowerOfTwo(n: nat) returns (width: nat)
    requires n >= 1
    ensures PowerOfTwo(width) && width / 2 < n <= width
  {
    width := 1;
    while width < n
      invariant PowerOfTwo(width) && width / 2 < n
    {
      width := width * 2;
    }
  }

  method FillLeaves(leaves: seq<Hash>, tree: array<Node>)
    requires |leaves| <= tree.Length && forall k :: 0 <= k < tree.Length ==> tree[k] == None
    modifies tree
    ensures forall k :: 0 <= k < tree.Length ==> tree[k] == if k < |leaves| then Some(leaves[k]) else None
  {
    for i := 0 to |leaves|
      invariant forall k :: 0 <= k < tree.Length ==> tree[k] == if k < i then Some(leaves[k]) else None
    {
      tree[i] := Some(leaves[i]);
    }
  }

  ghost predicate GoodCell(sha: Hasher, whole: seq<Node>, leafWidth: nat, j: int)
    requires leafWidth >= 1 && |whole| == 2 * leafWidth - 1 && 0 <= j && j + 1 < leafWidth
  {
    whole[leafWidth + j] == Parent(sha, whole[2 * j], whole[2 * j + 1])
  }

  /** Fills each inner cell from the two it covers. */
  method FillParents(sha: Hasher, leafWidth: nat, tree: array<Node>, ghost whole: seq<Node>)
    requires leafWidth >= 1 && tree.Length == 2 * leafWidth - 1 == |whole|
    requires forall k :: 0 <= k < leafWidth ==> tree[k] == whole[k]
    requires forall j :: 0 <= j && j + 1 < leafWidth ==> GoodCell(sha, whole, leafWidth, j)
    modifies tree
    ensures tree[..] == whole
  {
    var offset := leafWidth;
    while offset < tree.Length
      invariant leafWidth <= offset <= tree.Length
      invariant forall k :: 0 <= k < offset ==> tree[k] == whole[k]
    {
      var j := offset - leafWidth;
      var i := 2 * j;
      assert GoodCell(sha, whole, leafWidth, j);
      tree[offset] := Parent(sha, tree[i], tree[i + 1]);
      offset := offset + 1;
    }
  }

  lemma CellsAreGood(sha: Hasher, level: seq<Node>)
    requires PowerOfTwo(|level|)
    ensures forall k :: 0 <= k < |level| ==> Tree(sha, level)[k] == level[k]
    ensures forall j :: 0 <= j && j + 1 < |level| ==> GoodCell(sha, Tree(sha, level), |level|, j)
  {
    TreeStartsWithLevel(sha, level);
    forall k | 0 <= k < |level| ensures Tree(sha, level)[k] == level[k] {
      assert Tree(sha, level)[k] == Tree(sha, level)[..|level|][k];
    }
    forall j | 0 <= j && j + 1 < |level| ensures GoodCell(sha, Tree(sha, level), |level|, j) {
      CellIsParent(sha, level, j);
    }
  }

  method BuildMerkleTreeStore(sha: Hasher, leaves: seq<Hash>, width: nat) returns (tree: array<Node>)
    requires 1 <= |leaves| <= width && PowerOfTwo(width)
    ensures fresh(tree) && tree[..] == Tree(sha, Padded(leaves, width))
  {
    tree := new Node[2 * width - 1](i => None);
    FillLeaves(leaves, tree);
    ghost var level := Padded(leaves, width);
    CellsAreGood(sha, level);
    FillParents(sha, width, tree, Tree(sha, level));
  }

  /** What the walk finds on one level, and what is left of the tree above it. */
  lemma OneLevelUp(sha: Hasher, level: seq<Hash>, width: nat, tree: seq<Node>)
    requires PowerOfTwo(width) && width > 1 && width / 2 < |level| <= width && tree == Tree(sha, Padded(level, width))
    ensures tree[1] == Some(level[1]) && |NextLevel(sha, level)| <= width / 2 < 2 * |NextLevel(sha, level)|
    ensures PowerOfTwo(width / 2) && tree[width..] == Tree(sha, Padded(NextLevel(sha, level), width / 2))
  {
    TreeStartsWithLevel(sha, Padded(level, width));
    UpOfPadded(sha, level, width);
    assert tree[1] == tree[..width][1];
  }

  /**
   Walks the left edge of the array and collects the right neighbours. The exit for an empty neighbour is there,
   and never taken.
   */
  method BuildMerkleBranches(sha: Hasher, txs: seq<Hash>, placeholder: Hash) returns (branches: Option<seq<Hash>>)
    ensures branches == Some(BranchList(sha, [placeholder] + txs))
  {
    if txs == [] {
      return Some([]);
    }
    var leaves := [placeholder] + txs;
    var width := NextPowerOfTwo(|leaves|);
    var tree := BuildMerkleTreeStore(sha, leaves, width);
    branches := WalkLeftEdge(tree, width);
    NeighboursAreBranches(sha, leaves, width, tree[..]);
  }

  /** The right neighbours on the left edge; None when one is missing. */
  function Neighbours(cells: seq<Node>, width: nat): Option<seq<Hash>>
    requires 2 * width - 1 <= |cells|
    decreases width
  {
    if width <= 1 then Some([])
    else if cells[1].None? then None
    else
      var rest := Neighbours(cells[width..], width / 2);
      if rest.None? then None else Some([cells[1].value] + rest.value)
  }

  lemma {:induction false} NeighboursAreBranches(sha: Hasher, level: seq<Hash>, width: nat, cells: seq<Node>)
    requires PowerOfTwo(width) && width / 2 < |level| <= width && 2 * width - 1 == |cells|
    requires cells == Tree(sha, Padded(level, width))
    ensures Neighbours(cells, width) == Some(BranchList(sha, level))
    decreases width
  {
    if width > 1 {
      OneLevelUp(sha, level, width, cells);
      NeighboursAreBranches(sha, NextLevel(sha, level), width / 2, cells[width..]);
    }
  }

  /** The walk itself. */
  method WalkLeftEdge(tree: array<Node>, leafWidth: nat) returns (branches: Option<seq<Hash>>)
    requires leafWidth >= 1 && 2 * leafWidth - 1 <= tree.Length
    ensures branches == Neighbours(tree[..], leafWidth)
  {
    var found: seq<Hash>, levelOffset: nat, width: nat := [], 0, leafWidth;
    ghost var all := Neighbours(tree[..], leafWidth);
    if all.Some? { assert found + all.value == all.value; }
    assert tree[0..] == tree[..];
    while width > 1
      invariant levelOffset + 2 * width - 1 <= tree.Length && (width == 0 ==> leafWidth == 0)
      invariant var rest := Neighbours(tree[levelOffset..], width);
                if rest.None? then all == None else all == Some(found + rest.value)
      decreases width
    {
      var sibling := tree[levelOffset + 1];
      if sibling.None? {
        return None;
      }
      ghost var rest := Neighbours(tree[levelOffset + width..], width / 2);
      DropDrop(tree[..], levelOffset, width);
      assert tree[levelOffset..] == tree[..][levelOffset..];
      assert tree[levelOffset + width..] == tree[..][levelOffset + width..];
      if rest.Some? {
        Assoc(found, [sibling.value], rest.value);
      }
      found := found + [sibling.value];
      levelOffset := levelOffset + width;
      width := width / 2;
    }
    assert found + [] == found;
    return Some(found);
  }

  // ---------------------------------------------------------------- the folds

  function AllHex(branches: seq<Hash>): (r: seq<string>)
    ensures |r| == |branches|
    ensures forall i :: 0 <= i < |r| ==> r[i] == HexEncode(branches[i])
  {
    seq(|branches|, i requires 0 <= i < |branches| => HexEncode(branches[i]))
  }

  function DecodeBranches(branches: seq<string>): (r: Option<seq<Hash>>)
    ensures r.Some? ==> |r.value| == |branches|
  {
    if branches == [] then Some([])
    else
      var first, rest := DecodeHexFixed(branches[0], 32), DecodeBranches(branches[1..]);
      if first.None? || rest.None? then None else Some([first.value] + rest.value)
  }

  lemma {:induction false} DecodeOfAllHex(branches: seq<Hash>)
    ensures DecodeBranches(AllHex(branches)) == Some(branches)
  {
    if branches != [] {
      HexRoundTrip(branches[0]);
      assert [branches[0]] + branches[1..] == branches;
      assert AllHex(branches)[1..] == AllHex(branches[1..]);
      DecodeOfAllHex(branches[1..]);
    }
  }

  method ComputeRootFromHex(sha: Hasher, coinbaseHash: seq<byte>, branches: seq<string>)
    returns (root: seq<byte>, ok: bool)
    ensures ok == (|coinbaseHash| == 32 && DecodeBranches(branches).Some?)
    ensures ok ==> root == Fold(sha, coinbaseHash, DecodeBranches(branches).value)
  {
    if |coinbaseHash| != 32 {
      return [], false;
    }
    var acc: Hash := coinbaseHash;
    var i := 0;
    while i < |branches|
      invariant 0 <= i <= |branches|
      invariant DecodeBranches(branches).Some? <==> DecodeBranches(branches[i..]).Some?
      invariant DecodeBranches(branches).Some? ==>
                  Fold(sha, coinbaseHash, DecodeBranches(branches).value) ==
                  Fold(sha, acc, DecodeBranches(branches[i..]).value)
    {
      var branch := DecodeHexFixed(branches[i], 32);
      assert branches[i..][1..] == branches[i + 1..];
      if branch.None? {
        return acc, false;
      }
      ghost var rest := DecodeBranches(branches[i + 1..]);
      if rest.Some? { assert ([branch.value] + rest.value)[1..] == rest.value; }
      acc := sha(Joined(acc, branch.value));
      i := i + 1;
    }
    return acc, true;
  }

  method ComputeRootFromBytes(sha: Hasher, coinbaseHash: seq<byte>, branches: seq<Hash>)
    returns (root: seq<byte>, ok: bool)
    ensures ok == (|coinbaseHash| == 32)
    ensures ok ==> root == Fold(sha, coinbaseHash, branches)
  {
    if |coinbaseHash| != 32 {
      return [], false;
    }
    var acc: Hash := coinbaseHash;
    var i := 0;
    while i < |branches|
      invariant 0 <= i <= |branches|
      invariant Fold(sha, coinbaseHash, branches) == Fold(sha, acc, branches[i..])
    {
      assert branches[i..][1..] == branches[i + 1..];
      acc := sha(Joined(acc, branches[i]));
      i := i + 1;
    }
    return acc, true;
  }

  /** The text and byte folds of the branches of one job reach the same root, and it is the block's. */
  lemma FoldsReachTheBlockRoot(sha: Hasher, placeholder: Hash, txs: seq<Hash>, coinbase: Hash)
    ensures
      var branches := BranchList(sha, [placeholder] + txs);
      && DecodeBranches(AllHex(branches)) == Some(branches)
      && Fold(sha, coinbase, branches) == Root(sha, [coinbase] + txs)
  {
    DecodeOfAllHex(BranchList(sha, [placeholder] + txs));
    BranchesServeEveryCoinbase(sha, placeholder, txs, coinbase);
  }
}
