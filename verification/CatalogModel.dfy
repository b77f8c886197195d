/** The data held by the catalog state machine, and the visibility rules over it. */
module CatalogModel {

  datatype Option<+T> = None | Some(value: T)

  datatype Error =
    | TooManyFiles | MissingPurgeId | MissingField | EmptyDeletion | AnchorGone | CrossTable
    | Fenced | Conflict | NotFound | AlreadyExists | NotEmpty | InvalidName | SchemaChanged
    | UnsupportedVersion | InvalidState | ResourceExhausted | SchemaMismatch | LeaseTaken

  datatype Result<+T> = Ok(value: T) | Err(error: Error)

  /** A data file as the manifest records it. `deletedAt == 0` means not deleted. */
  datatype File = File(
    path: string, batchId: string, table: string, shard: string, window: string,
    rowCount: nat, fileSize: nat, schemaVersion: nat, clientKey: string,
    validFrom: nat, deletedAt: nat)
  {
    predicate VisibleAt(snapshot: nat) {
      validFrom <= snapshot && ProtectedAt(snapshot)
    }

    predicate ProtectedAt(snapshot: nat) {
      deletedAt == 0 || snapshot < deletedAt
    }
  }

  /** A deletion vector: some rows of the file at `path` are deleted while it is active. */
  datatype Dv = Dv(
    dvId: string, table: string, path: string, batchId: string,
    appliedAt: nat, revokedAt: nat, card: nat, storePath: string)
  {
    predicate ActiveAt(snapshot: nat) {
      appliedAt <= snapshot && (revokedAt == 0 || snapshot < revokedAt)
    }

    function Key(): (string, string) {
      (dvId, path)
    }
  }

  /** `batchId == ""` means the key is claimed but not yet committed by any batch. */
  datatype Idem = Idem(key: string, batchId: string, committedAt: nat)

  /** `holder == ""` means released; the epoch stays as a high-water mark. */
  datatype Lease = Lease(purpose: string, holder: string, epoch: nat, grantedAt: nat, expiresAt: nat)

  datatype Grant = Grant(granted: bool, epoch: nat, expiresAt: nat)

  datatype ShardKey = ShardKey(table: string, shard: string)

  datatype Table = Table(name: string, namespace: string, version: nat, arrowSchema: string, createdAt: nat)

  datatype SchemaVersion = SchemaVersion(version: nat, arrowSchema: string, createdAt: nat)

  datatype Datanode = Datanode(instanceId: string, address: string, registeredAt: nat)

  /** The files, their deletion vectors, and the number of the current snapshot. */
  datatype Data = Data(files: map<string, File>, dvs: map<(string, string), Dv>, snapshot: nat)

  datatype Registry = Registry(
    tables: map<string, Table>,
    namespaces: set<string>,
    schemas: map<(string, nat), SchemaVersion>,
    datanodes: map<string, Datanode>)

  datatype Counters = Counters(lastApplied: nat, schemaVer: nat, manifestVer: nat, tableVer: map<string, nat>)

  /** Everything the state machine stores except the task directory, which is derived from it. */
  datatype State = State(
    data: Data,
    registry: Registry,
    idem: map<string, Idem>,
    purged: map<string, nat>,
    leases: map<string, Lease>,
    inFlight: map<string, nat>,
    ver: Counters)

  const DEFAULT_SCHEMA := "public"
  const COMPACTION_LEASE := "compaction"

  const U64_MAX: nat := 0xFFFF_FFFF_FFFF_FFFF

  function SatAdd(a: nat, b: nat): nat {
    if a + b <= U64_MAX then a + b else U64_MAX
  }

  function SatMul(a: nat, b: nat): nat {
    if a * b <= U64_MAX then a * b else U64_MAX
  }

  function SatSub(a: nat, b: nat): nat {
    if b <= a then a - b else 0
  }

  function Initial(): State {
    State(Data(map[], map[], 1), Registry(map[], {DEFAULT_SCHEMA}, map[], map[]),
          map[], map[], map[], map[], Counters(0, 0, 0, map[]))
  }

  /** Position of the last '/' of `s`, or -1. */
  function LastSlash(s: string): (i: int)
    ensures -1 <= i < |s|
    ensures i >= 0 ==> s[i] == '/'
    ensures forall j | i < j < |s| :: s[j] != '/'
  {
    if s == "" then -1
    else if s[|s| - 1] == '/' then |s| - 1
    else LastSlash(s[..|s| - 1])
  }

  /** Where the bitmap of a deletion vector is stored, derived from the path of its data file. */
  function DvObjectPath(path: string, dvId: string): string {
    var i := LastSlash(path);
    (if i < 0 then "" else path[..i]) + "/dv/" + path[i + 1..] + "/" + dvId + ".bin"
  }
}
