/** From a submitted extranonce to a block: the coinbase, its merkle root, the header and the test. */
module ShareContext {
  import opened Results
  import opened Bytes
  import opened CoinbaseTx
  import opened Transactions
  import Merkle
  import BlockHeader
  import JobTiers
  import JobMemory

  type i32 = BlockHeader.i32

  /** The job's part of a share context. */
  datatype Job = Job(
    header: BlockHeader.JobHeader, branches: seq<Hash>, targetBE: Hash, target: nat, extranonce2Size: int)

  datatype Context = Context(header: seq<byte>, coinbase: seq<byte>, merkleRoot: Hash, isBlock: bool)

  /** What a context must be for a coinbase: the root over it, the header with that root, and the numeric test. */
  predicate ContextFor(
    sha: seq<byte> -> Hash, job: Job, coinbase: seq<byte>, ntime: u32, nonce: u32, version: i32, c: Context)
  {
    && c.coinbase == coinbase && c.merkleRoot == Merkle.Fold(sha, sha(coinbase), job.branches)
    && BlockHeader.Says(c.header, version, job.header.prevHashBytes, c.merkleRoot, ntime,
                        BlockHeader.FromBE(job.header.bitsBytes), nonce)
    && (c.isBlock <==> LEVal(sha(c.header)) <= BlockHeader.Threshold(job.target))
  }

  /** The target bytes of a job are not filled in, or are those of its target. */
  predicate TargetBytesOk(job: Job) {
    job.targetBE == Zeros(HASH_SIZE) || job.targetBE == Reverse(LE(job.target, HASH_SIZE))
  }

  /** The context of a share for a job whose advertised coinbase was kept. */
  method PrepareShareContext(
    sha: seq<byte> -> Hash, job: Job, prefix: seq<byte>, suffix: seq<byte>, extranonce2: seq<byte>, ntime: u32,
    nonce: u32, version: i32)
    returns (r: Option<Context>)
    requires TargetBytesOk(job)
    ensures r.Some? <==> job.extranonce2Size > 0 && |extranonce2| == job.extranonce2Size && prefix != [] && suffix != []
    ensures r.Some? ==> ContextFor(sha, job, prefix + extranonce2 + suffix, ntime, nonce, version, r.value)
  {
    if job.extranonce2Size <= 0 || |extranonce2| != job.extranonce2Size {
      return None;
    }
    var coinbase := BuildNotified(prefix, suffix, extranonce2);
    if coinbase.Err? {
      return None;
    }
    var root, rootOk := Merkle.ComputeRootFromBytes(sha, sha(coinbase.value), job.branches);
    var header := BlockHeader.BuildBlockHeaderU32(job.header, root, ntime, nonce, version);
    if header.None? {
      return None;
    }
    var isBlock := BlockHeader.IsBlock(sha, header.value, job.targetBE, job.target);
    return Some(Context(header.value, coinbase.value, root, isBlock));
  }

  /** Another version for the same share: only the header and the test are redone. */
  method PrepareVersionShareContext(
    sha: seq<byte> -> Hash, job: Job, base: Context, ntime: u32, nonce: u32, version: i32)
    returns (r: Option<Context>)
    requires TargetBytesOk(job) && base.merkleRoot == Merkle.Fold(sha, sha(base.coinbase), job.branches)
    ensures r.Some? <==> base.coinbase != []
    ensures r.Some? ==> ContextFor(sha, job, base.coinbase, ntime, nonce, version, r.value)
  {
    if base.coinbase == [] {
      return None;
    }
    var header := BlockHeader.BuildBlockHeaderU32(job.header, base.merkleRoot, ntime, nonce, version);
    if header.None? {
      return None;
    }
    var isBlock := BlockHeader.IsBlock(sha, header.value, job.targetBE, job.target);
    return Some(base.(header := header.value, isBlock := isBlock));
  }

  /**
   A share is tested on the block that would be submitted for it: when the branches are those of the job's
   transactions, the header commits to the merkle root of the direct coinbase transaction followed by them.
   */
  lemma ShareCommitsToItsBlock(
    sha: seq<byte> -> Hash, job: Job, r: Recipe, first: seq<byte>, second: seq<byte>, extranonce1: Text,
    extranonce2: Text, templateSize: int, placeholder: Hash, txids: seq<Hash>, ntime: u32, nonce: u32, version: i32,
    c: Context)
    requires job.branches == Merkle.BranchList(sha, [placeholder] + txids)
    ensures
      Halves(first, second, r, extranonce1, |extranonce2|, templateSize)
      && ContextFor(sha, job, first + extranonce1 + extranonce2 + second, ntime, nonce, version, c) ==>
        var area := Area(extranonce1, extranonce2, templateSize);
        && Buildable(r, |area|) && c.coinbase == Legacy(Coinbase(r, area))
        && c.merkleRoot == Merkle.Root(sha, [sha(c.coinbase)] + txids)
        && c.header[36..68] == c.merkleRoot
  {
    RightHalvesRebuild(first, second, r, extranonce1, extranonce2, templateSize);
    Merkle.BranchesServeEveryCoinbase(sha, placeholder, txids, sha(c.coinbase));
  }

  /**
   A share for any of the last 2N jobs of a connection, live or retired, is rebuilt from the bytes that were advertised:
   the stored prefix, the extranonce2, the stored suffix. When those were the halves of a recipe, the rebuild is the
   coinbase transaction of that recipe.
   */
  lemma LateShareRebuildsItsCoinbase(
    l: JobMemory.Lookup, n: nat, history: seq<JobTiers.Notified>, k: nat, withBounds: bool, first: seq<byte>,
    r: Recipe, extranonce1: Text, extranonce2: Text, templateSize: int)
    requires |history| - 2 * n <= k < |history| && JobTiers.Rebuildable(history[k])
    requires JobMemory.AnswersAsSent(l, history[k].id, n, history, withBounds)
    ensures
      var sent := history[k].parts.value;
      && l.parts.Some?
      && BuildNotified(l.parts.value.prefix, l.parts.value.suffix, extranonce2) ==
         Ok(sent.prefix + extranonce2 + sent.suffix)
      && (sent.prefix == first + extranonce1
          && Halves(first, sent.suffix, r, extranonce1, |extranonce2|, templateSize) ==>
            sent.prefix + extranonce2 + sent.suffix ==
            Legacy(Coinbase(r, Area(extranonce1, extranonce2, templateSize))))
  {
    RightHalvesRebuild(first, history[k].parts.value.suffix, r, extranonce1, extranonce2, templateSize);
  }
}
