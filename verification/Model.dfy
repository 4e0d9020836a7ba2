/** The records of include/storagefabric/model. Identities and generations are the uint64_t behind
    the strong types, with 0 the nil value; enumerations are their uint8_t codes, which a decoder
    may fill with any byte. */
module Model {
  import opened Bytes

  type U64 = n: nat | n < TWO_64
  type I64 = n: int | -0x8000_0000_0000_0000 <= n < 0x8000_0000_0000_0000
  type Id = nat
  type Digest = bytes
  type Enum = nat

  /** ContentDigest::is_zero on a stored digest. */
  predicate IsZero(d: Digest) {
    forall b <- d :: b == 0
  }

  // PlacementLifecycle
  const AVAILABLE: Enum := 4
  const LIFECYCLE_STALE: Enum := 6
  const EVICTED: Enum := 9
  // Freshness
  const CURRENT: Enum := 0
  const FRESHNESS_STALE: Enum := 1
  const REVALIDATION_REQUIRED: Enum := 2
  // ReplicaState
  const UNDER_REPLICATED: Enum := 0
  const REPLICA_HEALTHY: Enum := 1
  const REPLICA_STALE: Enum := 4
  const REPLICA_FAILED: Enum := 5
  // AuthorityOrigin
  const ORIGIN_RUNNER: Enum := 1
  const ORIGIN_WORKER: Enum := 2
  const ORIGIN_COORDINATOR: Enum := 3
  const ORIGIN_RECOVERY: Enum := 4
  // StorageClass
  const STORAGE_CLASS_UNKNOWN: Enum := 7
  // RetentionPolicy
  const LRU_CLASS: Enum := 3

  datatype Authority = Authority(epoch: nat, boot: Id, worker: Id, generation: nat, origin: Enum) {
    predicate IsNil() {
      epoch == 0 && boot == 0 && worker == 0 && generation == 0
    }
  }

  datatype Provenance = Provenance(origin: Enum, worker: Id, boot: Id, generation: nat, creator: bytes)

  datatype Object = Object(
    id: Id, generation: nat, kind: Enum, logicalSize: U64, digest: Digest, owner: Id,
    provenance: Provenance, minReplicas: nat, restorePriority: Enum, preferred: Enum, nodeHint: bytes,
    retention: Enum, policyGeneration: nat, dependencies: seq<Id>,
    /** A std::map: its entries in iteration order. */
    compatibility: seq<(bytes, bytes)>,
    createdAt: I64)

  datatype Chunk = Chunk(
    id: Id, generation: nat, offset: U64, logicalLength: U64, physicalLength: U64,
    digest: Digest, blob: Id, provenance: Enum)

  datatype Manifest = Manifest(
    id: Id, generation: nat, obj: Id, objectGeneration: nat, total: U64, digest: Digest, chunks: seq<Chunk>)

  datatype Placement = Placement(
    id: Id, obj: Id, objectGeneration: nat, replica: Id, replicaGeneration: nat, backend: Id, tier: Id,
    volume: Id, key: bytes, manifest: Id, logicalSize: U64, physicalSize: U64, digest: Digest,
    durabilityReplicas: nat, locality: bytes, lifecycle: Enum, freshness: Enum, authorityGeneration: nat,
    provenance: Enum, writerWorker: Id, writerBoot: Id, placementGeneration: nat,
    createdAt: I64, availableAt: I64)

  datatype Replica = Replica(
    id: Id, generation: nat, backend: Id, node: Id, domain: bytes, logicalSize: U64, physicalSize: U64,
    state: Enum, placementGeneration: nat, authoritative: bool)

  datatype ReplicaSet = ReplicaSet(
    obj: Id, generation: nat, required: nat, actual: nat, distinctDomains: nat, authoritative: nat,
    state: Enum, authorityGeneration: nat, replicas: seq<Replica>, updatedAt: I64)

  datatype Capacity = Capacity(
    total: U64, free: U64, reserved: U64, committed: U64, reclaimable: U64, unknown: bool)

  datatype Backend = Backend(
    id: Id, tier: Id, node: Id, name: bytes, generation: nat, capacity: Capacity, capabilities: seq<Enum>,
    health: Enum, freshness: Enum, provenance: Enum, registeredAt: I64)

  datatype Transfer = Transfer(
    id: Id, kind: Enum, obj: Id, source: Id, target: Id, bytes: nat, state: Enum, finishedAt: I64)

  /** MetadataSnapshot. The accounting counters are listed in their order in the file. */
  datatype Snapshot = Snapshot(
    epoch: nat, authority: Authority, policyGeneration: nat, savedAt: I64, accounting: seq<nat>,
    objects: seq<Object>, manifests: seq<Manifest>, placements: seq<Placement>, replicaSets: seq<ReplicaSet>,
    backends: seq<Backend>, transfers: seq<Transfer>, authorities: seq<Authority>)

  /** ReplicaSet::compute_state */
  function ComputeState(authoritative: nat, domains: nat, required: nat): Enum {
    if authoritative >= required && domains >= required then REPLICA_HEALTHY
    else if authoritative == 0 then REPLICA_FAILED
    else if domains == 0 then REPLICA_STALE
    else UNDER_REPLICATED
  }
}
