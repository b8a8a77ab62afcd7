/**
 The two places a solved block is kept: the pending_submissions table and the emergency spool
 directory. Every SQL statement and every file operation is one pure function here.
 */
module PendingStore {
  import opened Bytes

  type Block = b: seq<byte> | b != [] witness [0]
  type Key = s: string | s != "" witness "0"
  type Digest = string

  /** The row key (the block hash in hex) and the spool digest (SHA-256 in hex) of a block. */
  datatype Naming = Naming(keyOf: Block -> Key, digestOf: Block -> Digest)

  ghost predicate Distinct(n: Naming) {
    && (forall a: Block, b: Block :: n.keyOf(a) == n.keyOf(b) ==> a == b)
    && (forall a: Block, b: Block :: n.digestOf(a) == n.digestOf(b) ==> a == b)
  }

  // ---------------------------------------------------------------- the table

  /** `Unset` is the empty status of rows written by older versions. */
  datatype Status = Unset | Pending | Submitting | Submitted

  datatype Row = Row(block: Block, status: Status)

  type Table = map<Key, Row>

  /** How a statement ended: normally, failing without effect, or failing after it took effect. */
  datatype Fault = NoFault | Lost | Landed

  function Land<T>(before: T, after: T, fault: Fault): T {
    if fault == Lost then before else after
  }

  predicate Matches(status: Status, from: Status) {
    status == from || (from == Pending && status == Unset)
  }

  /** The compare half of a status transition: whether the UPDATE touches a row. */
  predicate Changes(rows: Table, key: Key, from: Status) {
    key in rows && Matches(rows[key].status, from)
  }

  function Transition(rows: Table, key: Key, from: Status, to: Status): Table {
    if Changes(rows, key, from) then rows[key := rows[key].(status := to)] else rows
  }

  function Upsert(rows: Table, key: Key, block: Block, status: Status): Table {
    rows[key := Row(block, status)]
  }

  function InsertIfAbsent(rows: Table, key: Key, block: Block): Table {
    if key in rows then rows else rows[key := Row(block, Pending)]
  }

  function Reclaim(rows: Table): Table {
    map k | k in rows :: if rows[k].status == Submitting then rows[k].(status := Pending) else rows[k]
  }

  // ---------------------------------------------------------------- the spool

  datatype FileName = Final(digest: Digest) | Temp(id: nat)

  /** `Garbage` is a file whose content is not a record at all, such as a half-written one. */
  datatype FileData =
    | Garbage
    | Record(version: int, submissionKey: string, digest: Digest, hash: string, block: Block)

  type Spool = map<FileName, FileData>

  const SPOOL_VERSION := 1

  function Encode(n: Naming, b: Block): FileData {
    Record(SPOOL_VERSION, n.keyOf(b), n.digestOf(b), n.keyOf(b), b)
  }

  /** The row key a record asks for: its block hash, or the block's own hex when it has none. */
  function RecordKey(data: FileData): Key
    requires data.Record?
  {
    if data.hash != "" then data.hash else HexEncode(data.block)
  }

  /** The checks a spool file must pass before it is believed. */
  predicate ValidSpoolFile(n: Naming, name: FileName, data: FileData) {
    && data.Record?
    && data.version == SPOOL_VERSION
    && RecordKey(data) == data.submissionKey
    && data.digest == n.digestOf(data.block)
    && (name.Final? ==> name.digest == n.digestOf(data.block))
  }

  /** What a call that writes a spool record leaves behind. */
  datatype SpoolWrite = NothingLeft | PartialTemp(id: nat) | WholeTemp(id: nat) | Installed | InstalledUnsynced

  function WriteSpool(n: Naming, files: Spool, b: Block, w: SpoolWrite): Spool {
    match w
    case NothingLeft => files
    case PartialTemp(id) => if Temp(id) in files then files else files[Temp(id) := Garbage]
    case WholeTemp(id) => if Temp(id) in files then files else files[Temp(id) := Encode(n, b)]
    case Installed => files[Final(n.digestOf(b)) := Encode(n, b)]
    case InstalledUnsynced => files[Final(n.digestOf(b)) := Encode(n, b)]
  }

  /** How a removal ended: as it should, not at all, or with the directory not synced afterwards. */
  datatype Removal = Removed | Kept | RemovedUnsynced

  function RemoveSpool(n: Naming, files: Spool, b: Block, removal: Removal): Spool {
    if removal == Kept then files else files - {Final(n.digestOf(b))}
  }

  // ---------------------------------------------------------------- what is held

  datatype Store = Store(rows: Table, files: Spool, acked: set<Block>)

  predicate InTable(n: Naming, s: Store, b: Block) {
    n.keyOf(b) in s.rows && s.rows[n.keyOf(b)].block == b
  }

  predicate InSpool(n: Naming, s: Store, b: Block) {
    var name := Final(n.digestOf(b));
    name in s.files && ValidSpoolFile(n, name, s.files[name]) && s.files[name].block == b
  }

  /** The exact bytes of `b` survive in a row or in a valid spool record. */
  predicate Held(n: Naming, s: Store, b: Block) {
    InTable(n, s, b) || InSpool(n, s, b)
  }

  /** Rows and records are filed under their own block's name; `Submitted` is never unearned. */
  ghost predicate Sound(n: Naming, s: Store) {
    && (forall k :: k in s.rows ==> k == n.keyOf(s.rows[k].block))
    && (forall k :: k in s.rows && s.rows[k].status == Submitted ==> s.rows[k].block in s.acked)
    && (forall f :: f in s.files && ValidSpoolFile(n, f, s.files[f]) ==>
          RecordKey(s.files[f]) == n.keyOf(s.files[f].block))
  }
}
