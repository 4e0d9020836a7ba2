# Storage Fabric: verified model

Storage Fabric is a C++20 storage runtime. This Dafny 4.11 project models the parts of it that carry its
guarantees and proves them; `dafny verify dfyconfig.toml` checks everything.

**Checksums, digests and frames** (`Crc32`, `Sha256`, `Frame`, over `Bytes` and `Words`). `crc32_combine` raises a bit
matrix to a power and must give the CRC of a concatenation nobody forms. The reference is the bit-serial CRC of
section 8 of RFC 1952 and section 3.2.9 of IEEE 802.3; the table, the matrix code and the combination are
methods over arrays, proved equal to it. `CrcPolynomial` says what that CRC is, without shifts: the remainder of the message
polynomial modulo a generator given by its exponents. `Sha256` is the buffered object, proved to compute the function of sections
5.1.1, 5.3.3 and 6.2.2 of FIPS 180-4 for every split of the message. `Fips180` proves its constants to be the roots of primes
that sections 4.2.2 and 5.3.3 name and its round functions bit by bit, and `Fips180Example` carries one message through to its
published digest. The frame codec rests on the checksum.

**The runtime** (`Runtime`, with `BlobStore`, `Ledger`, `Guards`, `Manifests`). `StorageFabric` is a class with the
source's fields; each of its methods is proved equal to a function on the whole state (`Fabric`). A backend is a map from
blob id to bytes, and every operation takes a `Faults` value that says which of its backend calls fail. About those
functions the project proves, operation by operation and then for all runs (`Runs`):
- `Safety`: a blob has at least as many references as manifests of placements not evicted name it, each such blob lies on
  its placement's backend with its recorded digest, and the counts are exact when every publication succeeded;
- `Conservation`: between operations nothing is reserved, and committed bytes are the sizes of what is placed;
- `Durability`: replica sets list exactly the placements not evicted, and move-free runs never lose an object, recovered or not;
- `ReadBack`: what was published is what is read until the placement is evicted;
- `Integrity`: verify says yes of bytes published as defined, and no of exactly the placements that damage or a wrong descriptor touches;
- `Admission` and `Writers`: exactly which publications, replications, moves and CREATE_OBJECT requests succeed, and under which authority;
- `Publications`: what publications, evictions and moves record, field by field and code by code;
- `Recovery`, `AfterRecovery` and `LiveRecovery`: saving, recovering into a new process or the running one, and running on;
- `Examples`: complete runs for what the runtime does not promise, for every digest function without a zero digest.

**The metadata file** (`Layout`, `Records`, `CompatMap`, `Snapshots`). Each record's layout is written down field by
field with the decoder's limits; the encoders and decoders are loops over a layout, and both round trips are proved once for
every layout and then for whole files. `FileLayout` gives the bytes of every record and of the file as plain concatenations
in the order of the source, and `FileLimits` what the decoder takes. `SaveFile` ties them to what a reachable runtime saves
and what is recovered from the file. `Unreadable` holds snapshots that are written but not read back.

**The rest.** `SyntheticStore` is the in-memory backend. `Coordinator` and `AuthorityOrder` are the authority fencing, and
`Requests` carries the coordinator's requests out on the runtime. `Planner` is the deterministic ranking. `Model` and `Status`
hold the records and codes, `Sums` and `Permutations` general lemmas.

`uint64_t` arithmetic is modelled with its wrap-around wherever the source computes with it. Identities and generations
are natural numbers. The digest of the runtime is an arbitrary function; where reading depends on it, absence of a collision
among the bytes concerned is a hypothesis. Wall-clock nonces and hash-map iteration orders are arbitrary choices.

## What turned out not to hold

Each of these has the exact condition under which the code does keep the property. The witnesses in `Examples` are runs on two
disks, from an empty runtime.

- `move` leaves its demoted source counted as authoritative, so evicting the new copy is allowed and can lose the object.
  Demoted copies are exactly those moved away (`Runs.RunDemotedIff`), and exactly they are miscounted
  (`Durability.EvictMiscountsIff`); `Durability.MoveLosesFloor` is the general failure and `Examples.ObjectLost` a run.
- `move` from an evicted placement sets it back to STALE, although its references are gone. A move keeps blob safety
  exactly when its source was not evicted or its blobs are still there with references to spare, as a failed publication may
  leave them; while counts are exact there are none (`Runs.MoveSafeIff`; a run in `Examples.EvictedMoved`). `Runs` therefore moves
  only placements that were not evicted.
- The dedup index spans all backends. Without eager verification every eligible publication without a zero digest
  succeeds (`Admission.PublishOkIff`), and it keeps blob safety exactly when all it shares lies on its own backend
  (`Admission.UnverifiedSafeIff`; a run in `Examples.MissingBytes`). `Runs` therefore verifies eagerly.
- `publish_to` looks the object up after committing its reservation. Exactly the otherwise admissible publications of objects
  not catalogued leave bytes committed for no placement (`Admission.UncataloguedOutcome`, `Admission.ConservedIff`; a run in
  `Examples.LostBytes`). `Runs` therefore publishes only catalogued objects.
- Recovery restores neither the ledger nor any counter but the blob counter. `AfterRecovery.RestartedPublishIff`,
  `RestartedDefineIff` and `RestartedConservedIff` say exactly what this stands in the way of; `Examples.StuckAfterRecovery` is a run.
  It does not stand in the way of durability: `AfterRecovery.LivesContinue`. Recovery also counts the manifests of evicted
  placements again: `AfterRecovery.RestartContinues` says when counts are exact.
- Recovering a running runtime counts every manifest once more (`LiveRecovery.LiveContinues`), and puts older replica sets in
  place of newer ones: `LiveRecovery.LiveDurableIff` says when that does harm, and in `Examples.LostByRecovering` an object is lost.
  From an older file the coordinator's authority moves back: `Coordinator.RestoredFencesIff`.
- `publish_to` does not compare the content with its descriptor's digest: a publication of other content of the same size goes
  through, and exactly then verify says no of it (`Integrity.PublishVerifies`). `read` does not compare digests either: it notices
  damage exactly when a blob's length changed (`Integrity.DamageRead`).
- The fence covers placements, not definitions: an envelope whose publication failed defines again (`Requests.DefinesAgainIff`).
- With gaps allowed, manifest validation accepts a chunk whose end wraps: `Manifests.GappedDisjointIffNoWrap` and
  `Manifests.GappedWrapAccepted`.
- The synthetic backend's account is lost when a put its guard lets through takes the true total to 2^64 or more:
  `SyntheticStore.PutAccountedIff` and `RunAccountedIff`, with four blobs in `SyntheticStore.PutOverflowExample`. This is a limit of the
  arithmetic, beyond what one address space holds.
- A payload of 4 GiB or more is written with a truncated length: `Snapshots.RoundTripIff`. A backend with 17 or more capabilities is
  written but not read back (`Unreadable.SeventeenCapabilities`), and so is an object of kind 12 or more, which `define_object` takes
  and the coordinator passes on unchecked: `SaveFile.UnknownKindSaved`.

Where documentation and code disagree the code is followed. Lines 234-237 and 328-334 of the repository's own README describe a
snapshot that does not round-trip and a receiver that decodes headers only; `src/persist.cpp:307` writes the digest as 32 raw bytes and
`src/net.cpp:216-241` decodes the payload. `include/storagefabric/core/persist.h:3-8` places the checksum after the payload and
over the header too; the code puts it in the header and takes it over the payload alone.

## Model

| member | source | states |
|---|---|---|
| Crc32.StepsXor | src/digest.cpp:11-36 | shifting zero bits through the register is GF(2)-linear |
| Crc32.StepsInjective | src/digest.cpp:11-36 | any number of zero bits is a bijection on the register |
| Crc32.EightSteps | src/digest.cpp:11-27 | eight bit steps are one table look-up on the low byte and a shift of the rest |
| Crc32.Checksum | src/digest.cpp:29-37 | the table-driven loop computes the bit-serial checksum of every byte string |
| Crc32.TimesApplies | src/digest.cpp:39-46 | the product with a matrix whose columns are shifted unit vectors is the shift itself |
| Crc32.MatrixTimes | src/digest.cpp:39-46 | the loop over the set bits is the matrix product, its column index always below 32 |
| Crc32.MatrixSquare | src/digest.cpp:48-51 | squaring the matrix of k zero bits gives the matrix of 2k |
| Crc32.FirstMatrix | src/digest.cpp:53-65 | the matrix filled in before the loop applies exactly one zero bit |
| Crc32.CrcConcat | src/digest.cpp:53-79 | the checksum of a concatenation from the two checksums and the second length alone |
| Crc32.Crc32Combine | src/digest.cpp:53-79 | the alternating squaring loop applies exactly 8 * len2 zero bits to the first checksum, for every length |
| Crc32.CombineIsConcatenation | src/digest.cpp:53-79 | combining the checksums of A and B gives the checksum of A ++ B, for all A and B |
| Crc32.BurstChangesCrc | src/digest.cpp:29-37 | replacing one to four consecutive bytes always changes the checksum |
| CrcPolynomial.PolyIsGenerator | src/digest.cpp:11-27 | the constant is the generator polynomial of section 8 of RFC 1952 and section 3.2.9 of IEEE 802.3 given by its exponents, reflected, without its top term |
| CrcPolynomial.RemainderUnique | src/digest.cpp:11-37 | a polynomial has at most one remainder of degree below 32 modulo the generator |
| CrcPolynomial.CrcIsRemainder | src/digest.cpp:29-37 | a word is the checksum of a message exactly when, with its bits reflected and complemented, it is the remainder of the message polynomial, started from all ones, modulo the generator: for every message |
| CrcPolynomial.CheckValue | src/digest.cpp:29-37 | the checksum of the letter a, as a number and as it is stored |
| Sha256.FillSchedule | src/digest.cpp:99-112 | the message schedule array holds the words of section 6.2.2 of FIPS 180-4 |
| Sha256.RunRounds | src/digest.cpp:112-127 | the 64 rounds over that array are the rounds of section 6.2.2 of FIPS 180-4 |
| Sha256.CompressBlock | src/digest.cpp:99-127 | the state array is overwritten with the compression of the old state and the block |
| Sha256.PadLength | src/digest.cpp:148-175 | padding always reaches a multiple of 64 bytes (section 5.1.1 of FIPS 180-4) |
| Sha256.PadInjective | src/digest.cpp:148-175 | messages of less than 2^64 bits with the same padding are the same |
| Sha256.FoldAppend | src/digest.cpp:99-146 | compressing one more whole block continues the fold over the blocks before it |
| Sha256.Sha256.Update | src/digest.cpp:138-146 | feeding bytes appends them to what was absorbed, however the buffer was filled before |
| Sha256.Sha256.AppendPadding | src/digest.cpp:148-168 | the byte-wise padding loop ends, and has absorbed exactly the padding |
| Sha256.Sha256.Finish | src/digest.cpp:148-175 | the digest of everything absorbed, after which the object is as new |
| Sha256.Sha256.Digest | src/digest.cpp:177-180 | the same digest, leaving the object untouched |
| Sha256.HashPieces | src/digest.cpp:129-186 | for every split of a message into updates the result is the hash of the message |
| Fips180.PrimesInOrder | src/digest.cpp:85-93 | the table the constants refer to holds the first 64 primes: each is prime and none lies between |
| Fips180.RoundConstants | src/digest.cpp:85-93 | each round constant is the first 32 bits of the fraction of the cube root of its prime (section 4.2.2 of FIPS 180-4) |
| Fips180.InitialState | src/digest.cpp:94-95 | each initial word is the first 32 bits of the fraction of the square root of its prime (section 5.3.3 of FIPS 180-4) |
| Fips180.ChBits | src/digest.cpp:117 | Ch chooses, bit by bit |
| Fips180.MajBits | src/digest.cpp:120 | Maj is the majority, bit by bit |
| Fips180.SigmaBits | src/digest.cpp:107-119 | bit by bit, which three bits of its argument each of the four sigma functions adds (section 4.1.2 of FIPS 180-4) |
| Fips180Example.AbcDigest | src/digest.cpp:83-186 | the digest of the message abc is the published one |
| Bytes.LeRoundTrip | include/storagefabric/core/bytes.h:129-165 | a number written to a field wide enough for it is read back |
| Bytes.UnLeRoundTrip | include/storagefabric/core/bytes.h:62-126 | every field is the encoding of the number read from it |
| Bytes.ByteReader.ReadLe | include/storagefabric/core/bytes.h:71-103 | reads exactly the next field, or fails and stays where it was |
| Bytes.ByteReader.ReadBlob | include/storagefabric/core/bytes.h:104-112 | reads exactly the next length-prefixed blob, never past the end |
| Bytes.TakeBlobOfBlob | include/storagefabric/core/bytes.h:104-112 | a blob below 4 GiB is read back from its encoding with anything after it |
| Bytes.BlobOfTakeBlob | include/storagefabric/core/bytes.h:104-112 | whatever is read as a blob was its encoding |
| Bytes.ByteWriter.PutLe | include/storagefabric/core/bytes.h:133-151 | appends exactly the little-endian field, cut to its width |
| Frame.EncodeFrame | src/protocol.cpp:26-50 | the patched header and payload are the encoded frame; a payload over 64 MiB gives nothing |
| Frame.HeaderCrc | src/protocol.cpp:52-55 | the combined checksum is the checksum of header bytes followed by payload, never joined |
| Frame.DecodeFrame | src/protocol.cpp:57-100 | the first frame and its length, or the first check that fails, for every input |
| Frame.RoundTrip | src/protocol.cpp:26-100 | decoding undoes encoding for all 13 kinds and all payloads up to 64 MiB, whatever follows |
| Frame.Canonical | src/protocol.cpp:57-100 | every accepted prefix is the encoding of what was decoded |
| Frame.StreamRoundTrip | src/protocol.cpp:26-100 | repeated decoding of concatenated frames returns the original list |
| Frame.BurstDetected | src/protocol.cpp:57-100 | any change confined to four consecutive payload bytes is answered with IntegrityMismatch |
| Frame.FrameBytes | src/protocol.cpp:26-50 | every byte of a frame: magic, version, the number of its kind, length, checksum, payload; nothing over 64 MiB |
| Frame.HeaderAnswers | src/protocol.cpp:57-100 | which error each wrong header field gives, for every header |
| Frame.PrefixTruncated | src/protocol.cpp:57-100 | a frame cut off anywhere is answered with Truncated |
| Manifests.SortChunks | src/model.cpp:24-29 | a permutation ordered by offset, then id |
| Manifests.ValidateManifest | src/model.cpp:37-95 | the validator with its sort, wrapping cursor and id set gives the first failing check |
| Manifests.SortedKeysUnique | src/model.cpp:40-55 | sorting an ordered list can only exchange chunks the order check cannot tell apart |
| Manifests.WrappedRejected | src/model.cpp:80-92 | a chunk running past the total is refused even when its end wraps below the cursor |
| Manifests.ValidationIsTiling | src/model.cpp:37-95 | strict validation accepts exactly the manifests whose distinct, non-nil chunks tile the object in mathematical integers |
| Manifests.FirstOffender | src/model.cpp:58-86 | which status a manifest is refused with, by the first thing wrong with the first chunk that does not go on tiling |
| Manifests.GappedDisjointIffNoWrap | src/model.cpp:37-95 | with gaps allowed, an accepted manifest has disjoint chunks inside the object exactly when no chunk end wraps |
| Manifests.GappedWrapAccepted | src/model.cpp:80-92 | a manifest with a wrapping, overlapping chunk that is accepted when gaps are |
| Ledger.ReservationLedger.ReserveBytes | src/capacity.cpp:19-57 | the whole new ledger, or the refusal that leaves it unchanged |
| Ledger.ReservationLedger.CommitReservation | src/capacity.cpp:59-81 | the whole new ledger: bytes move from reserved to committed, the record is marked |
| Ledger.ReservationLedger.ReleaseReservation | src/capacity.cpp:83-109 | the whole new ledger: bytes are given back once, with the right generation |
| Ledger.ReserveKeeps | src/capacity.cpp:19-57 | reserving keeps the accounts balanced and within limits, succeeds exactly when the bytes fit, and never meets a duplicate id |
| Ledger.CommitKeeps | src/capacity.cpp:59-81 | a commit succeeds exactly on an ACTIVE reservation; its underflow branch is unreachable |
| Ledger.ReleaseKeeps | src/capacity.cpp:83-109 | a release succeeds exactly on an ACTIVE reservation of that generation; its underflow branch is unreachable |
| Ledger.RemoveCommittedKeeps | src/capacity.cpp:120-130 | removing committed bytes keeps the balance and succeeds exactly when they are there |
| Ledger.RunBalanced | src/capacity.cpp:19-130 | after any schedule of calls: reserved is the sum of ACTIVE reservations, totals are sums over backends, and nothing is overcommitted unless free space was refreshed or bytes added unreserved |
| Ledger.LeavesActiveOnce | src/capacity.cpp:59-109 | a reservation leaves ACTIVE at most once in any run |
| Ledger.LedgerAnswers | src/capacity.cpp:59-109 | in a balanced ledger: which of the answers commit and release give, by the state and generation of the reservation alone |
| Ledger.ReservationRecord | src/capacity.cpp:19-81 | what a reservation records from being taken to being committed |
| Ledger.FreeIsReservable | src/capacity.cpp:146-153 | without an allowance a reservation of some bytes succeeds exactly when no more are asked for than are free |
| Ledger.RefreshDecides | src/capacity.cpp:13-57 | after refreshed free bytes a reservation is measured against those, on that backend only |
| Guards.ReservationGuard.Destroy | src/capacity.cpp:177-181 | the destructor releases exactly when the guard is armed |
| Guards.ReservationGuard.Moved | src/capacity.cpp:183-186 | moving passes the reservation on and disarms the source |
| Guards.ReservationGuard.Assign | src/capacity.cpp:188-199 | move assignment first gives back what the target held; onto itself it does nothing |
| Guards.GuardStepKeeps | src/capacity.cpp:174-213 | every guard or ledger step keeps exactly one armed owner for each ACTIVE reservation |
| Guards.GuardRunKeeps | src/capacity.cpp:174-213 | and so does every run |
| Guards.NothingLeaks | src/capacity.cpp:174-213 | once all guards are gone no reservation is ACTIVE and nothing is reserved |
| SyntheticStore.SyntheticBackend.PutBlob | src/synthetic_backend.cpp:26-45 | the whole new store of a put, with the net change as a wrapping difference |
| SyntheticStore.PutBounded | src/synthetic_backend.cpp:26-45 | below 2^64 a put is a write to a capacity-bounded map: it succeeds exactly when the new total fits |
| SyntheticStore.PutAccountedIff | src/synthetic_backend.cpp:26-45 | the account survives a put exactly when the capacity guard refuses it or the true total stays below 2^64, and the guard alone decides |
| SyntheticStore.PutOverflowExample | src/synthetic_backend.cpp:26-45 | the arithmetic of the guard at its limit: with the largest capacity four blobs of 2^62 bytes are all accepted, and then nothing counts as used |
| SyntheticStore.RemoveAccounted | src/synthetic_backend.cpp:56-66 | removal keeps the account exact and touches only its key |
| SyntheticStore.RunAccountedIff | src/synthetic_backend.cpp:26-66 | through any history used bytes equal the stored sizes and stay within capacity, exactly while the stored bytes stay below 2^64 |
| SyntheticStore.HealthDecides | src/synthetic_backend.cpp:16-66 | what an unavailable and a degraded backend refuse, with which status |
| AuthorityOrder.NewerOrder | include/storagefabric/model/authority.h:29-46 | a strict order, total up to the ignored fields, in which a session is an interval |
| AuthorityOrder.NewerMeans | include/storagefabric/model/authority.h:29-46 | epoch first, then boot, then generation, the greater the newer |
| Coordinator.BaselineBelow | tools/storage_fabric_coordinator.cpp:157-180 | the baseline of an epoch is below exactly what names a boot or generation in it, or a later epoch |
| Coordinator.CoordinatorState.OnCommit | tools/storage_fabric_coordinator.cpp:339-366 | accepts exactly strictly newer envelopes, and hands out the next dispatch number |
| Coordinator.CoordinatorState.OnWorkerLoss | tools/storage_fabric_coordinator.cpp:157-180 | removes the boot, advances the epoch and resets the baseline |
| Coordinator.LogIncreases | tools/storage_fabric_coordinator.cpp:263-366 | over any run accepted envelopes strictly increase, from above the initial authority |
| Coordinator.Fencing | tools/storage_fabric_coordinator.cpp:263-366 | no envelope is accepted twice and the mutations of one session are one block of the log |
| Coordinator.LossFences | tools/storage_fabric_coordinator.cpp:167-180 | after a worker loss nothing of the ended epoch or an earlier one is ever accepted |
| Coordinator.SessionOpenIff | tools/storage_fabric_coordinator.cpp:263-366 | a session can still get a mutation accepted exactly when it is not behind the live one |
| Coordinator.SessionNeverReopens | tools/storage_fabric_coordinator.cpp:263-366 | a session left behind stays shut out in every later state |
| Coordinator.RestoredFencesIff | tools/storage_fabric_coordinator.cpp:383-397 | after recovering from a file everything shut out stays shut out exactly when the file is of the live epoch, or of the one before while nothing was accepted since |
| Coordinator.DispatchesCount | tools/storage_fabric_coordinator.cpp:339-366 | dispatch numbers are handed out one after the other |
| Requests.CreateObject | tools/storage_fabric_coordinator.cpp:263-311 | CREATE_OBJECT on the runtime: fence, definition, publication and authority, with the whole new state |
| Requests.CreateEffect | tools/storage_fabric_coordinator.cpp:263-311 | the definition happens as soon as the fence is passed; the placement and the authority come together, or neither |
| Requests.ServeRefines | tools/storage_fabric_coordinator.cpp:157-366 | the runtime's authority moves as the abstract fence does, and a creation succeeds exactly when that accepts it |
| Requests.ServeAllFenced | tools/storage_fabric_coordinator.cpp:157-366 | over any requests of any workers the runtime keeps all its guarantees and gains one placement for each accepted creation |
| Requests.DefinesAgainIff | tools/storage_fabric_coordinator.cpp:284-295 | an envelope defines a second object exactly when its first publication failed |
| Writers.StaleWriterRefused | src/runtime.cpp:300-314 | a publication under an older authority is refused as StaleAuthority and changes nothing |
| Writers.StaleWriterIff | src/runtime.cpp:300-314 | StaleAuthority is answered exactly to publications of the right size under an authority older than the live one |
| Writers.NilActsAsLive | src/runtime.cpp:303 | a publication under no authority does all that one under the live authority does |
| Writers.NoAuthorityRefused | src/runtime.cpp:303-304 | without a given or a live authority: InvalidArgument, nothing changed |
| Writers.RefusedBeforeWriting | src/runtime.cpp:316-321 | what an unknown backend, empty content and missing room are answered, nothing changed |
| Writers.CreateOkIff | tools/storage_fabric_coordinator.cpp:263-311 | while no call fails, CREATE_OBJECT succeeds exactly under a newer authority with content of the given size that fits, shares no blob kept elsewhere and has no zero digest |
| Writers.CreatedRecord | tools/storage_fabric_coordinator.cpp:284-305 | the object and the placement an accepted CREATE_OBJECT leaves: digest, size, kind, writer, priority, number of copies |
| Planner.MakePlan | src/planner.cpp:66-192 | ranked is a permutation of all evaluations, viable ones first, then by falling score, then by rising id; feasible exactly when some candidate passes; then the first is selected and min(required, domains) replica targets lie in distinct domains |
| Planner.FirstViolation | src/planner.cpp:84-115 | which hard constraint is reported first, and that none is exactly when all hold |
| Planner.RankingDeterministic | src/planner.cpp:157-170 | for distinct backend ids the ranking does not depend on candidate order |
| Planner.PlanTwice | src/planner.cpp:66-192 | two plans over the same candidates in any orders agree in ranking, selection, feasibility and number of targets |
| Planner.SelectedIsBest | src/planner.cpp:157-170 | the selected candidate passes every hard constraint and none that does is better |
| Planner.RankedEntries | src/planner.cpp:84-155 | every entry of the ranking carries the ids, score and first violated constraint of one of the candidates |
| BlobStore.WriteSlices | src/runtime.cpp:332-369 | for every positive size and chunk size the loop ends with ceil(size/chunk) chunks whose slices tile the content |
| BlobStore.WriteGrows | src/runtime.cpp:332-369 | writing adds one reference for each chunk and changes no blob that was known, also when it fails half way |
| BlobStore.NextIdTaken | src/runtime.cpp:337-349 | a slice that is not shared takes the next blob id, used up even when the put fails |
| BlobStore.VerifyFromMeans | src/runtime.cpp:371-378 | eager verification passes exactly when every chunk reads and has its digest |
| BlobStore.FirstUnverified | src/runtime.cpp:371-378 | which status eager verification stops with, at the first chunk missing or changed |
| BlobStore.SlicesReadBack | src/runtime.cpp:332-378 | verified slices read back as the content, given no digest collision |
| BlobStore.ReadFaults | src/runtime.cpp:517-523 | failing reads can only turn an answer into an I/O error |
| BlobStore.DropAllMeans | src/runtime.cpp:658-668 | dropping takes exactly the given references and deletes only blobs left without one |
| Runtime.StorageFabric.Define | src/runtime.cpp:202-242 | define_object: result and whole new state |
| Integrity.DefinedDescribes | src/runtime.cpp:213-241 | the defined descriptor has the digest and size of the content, the writer's ids and the asked-for durability and priority |
| Integrity.DefineAnswers | src/runtime.cpp:206-237 | what define_object refuses, and what that leaves changed |
| Integrity.DefinePublishVerify | src/runtime.cpp:202-570 | define over some content, publish other content: verify says yes exactly when the digests are the same, so of the same content always |
| Runtime.StorageFabric.KeepSlice | src/runtime.cpp:333-357 | a slice is shared with the indexed blob or written as a new one |
| Runtime.StorageFabric.PublishTo | src/runtime.cpp:297-460 | publish_to with its guard: result and whole new state on every path |
| Runtime.StorageFabric.Read | src/runtime.cpp:484-530 | the bytes of the given placement, or of some AVAILABLE placement of the object |
| Runtime.StorageFabric.Verify | src/runtime.cpp:532-570 | whether the stored bytes still have the placement's digest |
| Integrity.VerifyMeans | src/runtime.cpp:532-570 | of whatever read returns verify says whether it has the digest of the record |
| Integrity.DamageShows | src/runtime.cpp:549-555 | other bytes in a blob, of the same or another length, always change the whole a manifest names |
| Integrity.DamageFound | src/runtime.cpp:532-570 | once one blob has other bytes verify says no of exactly the honest placements that keep a chunk in it, and yes of the others |
| Integrity.DamageRead | src/runtime.cpp:484-530 | read refuses damage that changes a length and returns the rest as it is |
| Integrity.LossFound | src/runtime.cpp:549-552 | a missing blob is an I/O error to exactly the placements that keep a chunk in it |
| Integrity.PublishVerifies | src/runtime.cpp:297-570 | after a publication verify says whether the content has its descriptor's digest: no under a descriptor of other content |
| Integrity.VerifyLater | src/runtime.cpp:532-570 | and says the same in every later state, until the placement is evicted |
| Runtime.StorageFabric.MoveTo | src/runtime.cpp:573-598 | replicate, then demotion of the source |
| Runtime.StorageFabric.EvictPlacement | src/runtime.cpp:619-686 | decision and whole new state of an eviction |
| Runtime.EvictDecision | src/runtime.cpp:601-645 | can_evict and evict decide alike |
| Effects.PublishEffect | src/runtime.cpp:297-460 | a publication either adds one placement with its manifest, or changes nothing a reader or the catalog can see |
| Publications.PlacementRecorded | src/runtime.cpp:388-409 | every field of the new placement: the next ids, the object, where it lies, how many copies it wants, its writer, its codes |
| Publications.ReplicaRecorded | src/runtime.cpp:421-452 | the entry gains the placement and its replica, on the node of the backend and in the domain of its tier, and all counts follow |
| Publications.StateMeans | src/model.cpp:147-152 | a replica set is HEALTHY exactly when its replicas lie in as many domains as required, FAILED exactly when there are none; STALE never occurs |
| Publications.ManifestRecorded | src/runtime.cpp:324-386 | the recorded manifest is of the object, its chunks are the slices of the content, its digest is that of its own bytes |
| Publications.ManifestBytesInjective | src/runtime.cpp:29-52 | manifests hashed alike describe the same object in the same chunks |
| Publications.KeysDistinct | src/runtime.cpp:397 | placements of different ids have different keys |
| Publications.EvictionRecorded | src/runtime.cpp:653-682 | what an eviction leaves in the record and in the replica set |
| Publications.EvictAnswers | src/runtime.cpp:619-640 | the four answers of evict, by the placement's lifecycle and the number of placements not evicted |
| Publications.MoveRecorded | src/runtime.cpp:589-598 | a move changes nothing in the record of its source but the lifecycle |
| Publications.CopyRecorded | src/runtime.cpp:573-587 | a copy wants as many replicas as asked for, or as its source when nothing is asked |
| Safety.PublishKeeps | src/runtime.cpp:332-424 | publishing keeps blob safety on every path, and exact counts when it succeeds |
| Safety.EvictKeeps | src/runtime.cpp:642-668 | eviction never deletes a blob any other placement needs, and keeps exact counts |
| Safety.DemoteKeeps | src/runtime.cpp:589-598 | demoting a source that was not evicted keeps blob safety and exact counts |
| Safety.DemoteSafeIff | src/runtime.cpp:594-596 | marking a placement STALE keeps blob safety exactly when it was not evicted, or its blobs are still there with references to spare |
| Runs.MoveSafeIff | src/runtime.cpp:589-598 | an eagerly verified move that goes through keeps blob safety exactly when its source was not evicted, or had its blobs still there with references to spare; exact counts spare none |
| Examples.EvictedMoved | src/runtime.cpp:589-598 | a reachable state in which moving an evicted placement goes through and ends blob safety |
| Conservation.ReserveCommit | src/capacity.cpp:19-109 | reserve, commit and the guard's release together move the bytes to committed and nothing else |
| Conservation.PublishLedger | src/runtime.cpp:318-420 | a publication charges its backend for the placement it adds and for nothing else, however it ends |
| Admission.UncataloguedOutcome | src/runtime.cpp:411-420 | a publication of an object not catalogued: if admissible otherwise, NotFound with its bytes committed and no placement; if not, refused with the accounts unchanged |
| Admission.ConservedIff | src/runtime.cpp:318-420 | a publication keeps the accounts in step with the placements exactly when its object is catalogued or nil, or it is not admissible |
| Examples.LostBytes | src/runtime.cpp:411-420 | a reachable state and a refused publication whose bytes stay committed for no placement |
| Conservation.PublishConserves | src/runtime.cpp:318-460 | nothing stays reserved and committed bytes stay the sizes of the placements not evicted |
| Conservation.EvictConserves | src/runtime.cpp:683 | an allowed eviction always finds the bytes it gives back: NegativeAccounting is unreachable |
| Durability.PublishDurable | src/runtime.cpp:421-458 | the replica list stays one replica for each placement not evicted, with agreeing cached counts and state, whatever the id counters are |
| Durability.EvictDurable | src/runtime.cpp:669-682 | and so after an eviction |
| Durability.WithoutReplicaMeans | src/runtime.cpp:672-675 | erasing by id removes the one replica with it |
| Durability.EvictFloor | src/runtime.cpp:630-682 | while nothing was moved, an allowed eviction leaves at least the required number of AVAILABLE copies, in recovered runtimes too |
| Durability.EvictFloorIff | src/runtime.cpp:630-682 | in general it does so exactly when more AVAILABLE copies than required existed |
| Durability.MoveLosesFloor | src/runtime.cpp:589-645 | after moving the only required copy, evicting the new one is allowed and leaves none |
| Durability.EvictMiscountsIff | src/runtime.cpp:630-682 | an eviction goes below the required number of AVAILABLE copies exactly when the demoted copies make up the difference in the count it looks at |
| Runs.RunDemotedIff | src/runtime.cpp:589-686 | over any run the demoted copies are exactly the sources of moves that went through and have not been evicted since |
| Examples.ObjectLost | src/runtime.cpp:589-645 | a reachable state, a move and an eviction, all allowed, that lose an object's last AVAILABLE copy |
| ReadBack.PublishReads | src/runtime.cpp:297-530 | the new placement reads as the published bytes, whatever chunk size and sharing |
| ReadBack.PublishPreserves | src/runtime.cpp:297-460 | publishing keeps the bytes of every placement, also when it fails half way |
| ReadBack.EvictPreserves | src/runtime.cpp:619-686 | evicting keeps the bytes of every other placement |
| ReadBack.SameRead | src/runtime.cpp:484-530 | a preserved placement reads the same, under the same failing reads |
| ReadBack.ReadsAgree | src/runtime.cpp:496-504 | whichever AVAILABLE placement is met first, the object reads the same |
| ReadBack.VerifyAgrees | src/runtime.cpp:532-570 | verify says yes of every honest placement that was not evicted |
| Admission.BuiltIsValid | src/runtime.cpp:324-381 | the manifest a publication builds is accepted exactly when none of its digests is zero |
| Admission.VerifiedIff | src/runtime.cpp:332-378 | without failing calls eager verification passes exactly when every blob to be shared is on this backend |
| Admission.SucceedsIff | src/runtime.cpp:297-460 | the same without the invariants: in any state with a consistent index and balanced accounts, exactly the admissible ones with free counters and a catalogued object |
| Admission.PublishOkIff | src/runtime.cpp:297-460 | in every sound state, and while no call fails, exactly the admissible publications succeed: without eager verification, all eligible ones without a zero digest |
| Admission.UnverifiedSafeIff | src/runtime.cpp:332-378 | an unverified publication that goes through keeps blob safety exactly when every blob it shares is on its own backend |
| Examples.MissingBytes | src/runtime.cpp:332-378 | a reachable state in which sharing a blob of another disk is refused under eager verification, and without it goes through with no bytes |
| Admission.MoveOkIff | src/runtime.cpp:573-598 | replicate and move succeed exactly when the source reads and the copy is admissible |
| Runs.StepSteady | src/runtime.cpp:202-686 | every operation keeps blob safety and every byte still placed, in recovered runtimes too, and exact counts when it goes through |
| Runs.StepDurable | src/runtime.cpp:202-686 | every operation keeps replica sets in step with the placements, in recovered runtimes too |
| Runs.StepSound | src/runtime.cpp:202-686 | until something is recovered, every operation also keeps the accounts in step with the placements and the counters ahead of all ids |
| Runs.ReachableSound | src/runtime.cpp:202-686 | all of these hold in every reachable state, failed publications included |
| Runs.RunExact | src/runtime.cpp:332-667 | reference counts are exact on runs whose publications all succeed |
| Runs.RunPreserves | src/runtime.cpp:202-686 | no run changes the bytes of a placement before it is evicted |
| Runs.ReadAfterPublish | src/runtime.cpp:297-530 | in every later state a published placement is evicted or reads as what was published |
| Runs.ReplicateReads | src/runtime.cpp:573-587 | the copy replicate makes reads as the source did |
| Runs.ReadAfterReplicate | src/runtime.cpp:484-587 | and in every later state it is evicted or still reads so, or a read of it fails |
| Runs.RunNeverLost | src/runtime.cpp:426-682 | in any run from any runtime, recovered ones too, replica sets stay in step, and without moves no published object loses its last AVAILABLE placement |
| Runs.RunHonest | src/runtime.cpp:297-598 | when contents match their descriptors, every placement keeps reading as bytes of the object's digest |
| Runs.ObjectReadsAgree | src/runtime.cpp:484-570 | after any such run all AVAILABLE placements of an object read the same, and verify agrees |
| Recovery.BuildSnapshot | src/runtime.cpp:689-703 | the snapshot lists every map's values, in some order |
| Recovery.Recover | src/runtime.cpp:737-788 | the whole recovered state, from the decoded snapshot on |
| Recovery.RecordsBack | src/runtime.cpp:740-755 | catalog, placements and manifests are those that were saved, each entry listing its placements |
| Recovery.IndexMeans | src/runtime.cpp:758-766 | the rebuilt counts have one reference for each occurrence, and the index agrees with the recorded digests, in any iteration order |
| Recovery.IndexSizes | src/runtime.cpp:758-766 | each rebuilt blob size is the length of a chunk that names the blob |
| Recovery.RecoverSafe | src/runtime.cpp:729-768 | over the same backend contents blob safety holds again, placements read the same, and no manifest's blob id is handed out again |
| AfterRecovery.RestartContinues | src/runtime.cpp:689-791 | a new process over the same contents recovers blob safety and every placed byte, with exact counts exactly when no eviction or failed publication left a manifest behind |
| AfterRecovery.RestartThenRun | src/runtime.cpp:202-791 | and goes on keeping them over any run after recover; each placement reads the same until it is evicted |
| AfterRecovery.RestartDurable | src/runtime.cpp:689-791 | the replica sets come back in step with the placements and no published object is lost, although the counters start over |
| AfterRecovery.LivesContinue | src/runtime.cpp:202-791 | through any number of lives of running, saving and recovering: blob safety, every placed byte, replica sets, and without moves every published object |
| LiveRecovery.LiveContinues | src/runtime.cpp:729-791 | recovering a running runtime from its own earlier file keeps blob safety and every placed byte; counts stay exact only when no manifest has a chunk |
| LiveRecovery.LiveThenRun | src/runtime.cpp:202-791 | and so after any operations before and after it |
| LiveRecovery.LiveDurableIff | src/runtime.cpp:745-749 | its replica sets are in step afterwards exactly when the file was up to date about every object it names |
| Examples.LostByRecovering | src/runtime.cpp:619-791 | a reachable state, saved, one copy evicted, recovered in the same process: evict then lets go of the last AVAILABLE copy |
| Recovery.RecoveredNewer | src/runtime.cpp:771-779 | the new authority is newer than every one of the saved epoch or earlier exactly when the epoch counter does not wrap |
| Recovery.RecoveredRefuses | src/runtime.cpp:767-769 | the other id counters start over: while they point at recovered records no publication succeeds, whatever calls fail |
| Recovery.RecoveredUnder | src/runtime.cpp:756-788 | the authority a recovered runtime acts under, which descriptor each backend has, and which need revalidation |
| AfterRecovery.RestartedPublishIff | src/runtime.cpp:297-460 | in the recovered runtime a publication succeeds exactly when it is admissible and neither a manifest nor a placement with id one came back |
| AfterRecovery.RestartedDefineIff | src/runtime.cpp:202-242 | and define_object answers DuplicateIdentity exactly when object one came back |
| AfterRecovery.RestartedConservedIff | src/runtime.cpp:729-768 | its accounts agree with its placements exactly when every placement that came back had been evicted |
| Examples.StuckAfterRecovery | src/runtime.cpp:729-791 | a reachable state, saved and recovered, in which all three go wrong |
| Layout.TakeOfEncode | src/persist.cpp:11-266 | for every layout: decoding an encoding gives the value back within the decoder's limits and fails outside them |
| Layout.EncodeOfTake | src/persist.cpp:11-266 | for every layout: whatever decodes is within all limits and was its own encoding |
| Layout.Put | src/persist.cpp:11-251 | the encoders append exactly the encoding, or stop at the first field over its cap |
| Layout.Read | src/persist.cpp:15-266 | the decoders read exactly the value, or stop at the first field missing or out of range |
| CompatMap.EntriesMeans | src/persist.cpp:102-106 | entries with distinct keys in any order make one map in key order; a repeated key makes none |
| CompatMap.LessMeans | src/persist.cpp:74-76 | the order of the keys: at the first difference the smaller byte, or the end, comes first |
| Records.PlacementDataBack | src/persist.cpp:141-167 | the fields of a decoded placement are the fields it is written with |
| Records.ObjectDataBack | src/persist.cpp:62-108 | an object is written as it was read exactly when its compatibility entries came in key order |
| FileLayout.AuthorityWritten | src/persist.cpp:53-56 | the bytes of an authority, field after field |
| FileLayout.ObjectWritten | src/persist.cpp:62-78 | the bytes of an object, field after field |
| FileLayout.ManifestWritten | src/persist.cpp:110-122 | the bytes of a manifest and its chunks |
| FileLayout.PlacementWritten | src/persist.cpp:141-151 | the bytes of a placement, lifecycle before freshness, times in two's complement |
| FileLayout.ReplicaSetWritten | src/persist.cpp:169-183 | the bytes of a replica set and its replicas |
| FileLayout.BackendWritten | src/persist.cpp:204-214 | the bytes of a backend with its capacity and capabilities |
| FileLayout.TransferWritten | src/persist.cpp:230-235 | the bytes of a transfer |
| FileLayout.PayloadWritten | src/persist.cpp:274-297 | the order of the sections, each list behind its count |
| FileLayout.FileWritten | src/persist.cpp:300-308 | the head of the file: magic, version, length, checksum, digest |
| FileLimits.SnapshotLimits | src/persist.cpp:53-266 | the decoder's limits, record by record: which enumerations, strings and lists it takes |
| FileLimits.FileOfSnapshot | src/persist.cpp:274-379 | the whole file of a snapshot byte for byte, and that these bytes are read back as the snapshot exactly when every record fits, no id comes twice and the payload is below 4 GiB |
| Snapshots.SerializeSnapshot | src/persist.cpp:274-316 | the file of the payload, or Internal when a cap is exceeded |
| Snapshots.DeserializeSnapshot | src/persist.cpp:318-379 | the snapshot, or the first check that fails, for every input |
| Snapshots.HeadAnswers | src/persist.cpp:318-341 | which error each wrong field of the head gives, for every head |
| Snapshots.CutOrExtended | src/persist.cpp:318-334 | a file cut off or extended anywhere is refused: Truncated inside the head, TrailingGarbage after it |
| Snapshots.FilePayload | src/persist.cpp:318-341 | a file is read back as its payload, except that a payload of 4 GiB or more is refused as TrailingGarbage |
| Snapshots.RoundTripIff | src/persist.cpp:274-379 | a snapshot is written and read back as itself exactly when it is portable |
| Snapshots.CanonicalIff | src/persist.cpp:274-379 | re-serialising an accepted file gives the same bytes exactly when its compatibility entries were in key order |
| Snapshots.AcceptedIsSaved | src/persist.cpp:274-379 | a file that is accepted at all gives back the snapshot it was written from |
| Unreadable.CapabilitiesRefused | src/persist.cpp:204-228 | a snapshot within the encoder's limits with more than 16 capabilities on a backend is written and then refused |
| Unreadable.SeventeenCapabilities | src/persist.cpp:204-228 | a snapshot of one backend with 17 capabilities that is written and then refused |
| Unreadable.KindRefused | src/persist.cpp:81-89 | a snapshot within the encoder's limits with an object of a kind that does not exist is written and then refused |
| SaveFile.SavedUnique | src/runtime.cpp:697-703 | what a runtime saves carries no id twice, however often it was recovered |
| SaveFile.SavedReadsBackIff | src/runtime.cpp:689-706 | the file of a runtime is read back as saved exactly when every record is within the decoder's limits and its bytes below 4 GiB |
| SaveFile.LivesSavable | src/runtime.cpp:202-791 | every runtime reached through any number of lives meets the conditions of that, compatibility maps included |
| SaveFile.UnknownKindSaved | src/runtime.cpp:202-242 | define_object with any byte from 12 on as its kind: the reachable runtime saves a file that it refuses |
| SaveFile.RecoverFromFile | src/runtime.cpp:689-791 | save, decode, recover, run on: a runtime recovered from the file continues the one that wrote it, and every placement reads the same until it is evicted |
| Snapshots.DamageDetected | src/persist.cpp:336-339 | any one to four consecutive payload bytes replaced are answered with Corrupted |

## Left out

- Sockets, threads and signal handling (`src/net.cpp`, the loops of `tools/`): I/O; the coordinator keeps its locked sections as steps.
- REGISTER_BACKEND, PUBLISH (which saves), READ and VERIFY requests of the coordinator: they touch no authority; RECOVER is `LiveRecovery` and `Coordinator.Restored`.
- File operations of `src/local_backend.cpp`, and the file writing and reading of `save` and `recover`: foreign calls.
- Concurrent publishes or evictions on one runtime: `publish_to` takes no lock and `evict` two; the runtime is sequential here and evict one step. Only the ledger, its guards and the coordinator are interleaved.
- Wrap-around of id, generation and epoch counters at 2^64, except the epoch in `Recovery.RecoveredNewer`.
- Accounting counters, and that `AccountingTotals::is_consistent` holds: it does not.
- `CatalogEntry::manifest` and `stale_placements`, which nothing reads.
- Recovery.Recover: the saved accounting totals, the recovered flag and its note are not restored, because the model has none of them.
- Runtime.StorageFabric.EvictPlacement: the removal of the placement's own key, which nothing wrote, is not modelled.
- Runtime.StorageFabric.Verify: the size and digest it reports beside its yes or no are not part of the result.
- `publish`, which plans and then calls `publish_to`, and `make_plan_request`, which copies candidate fields.
- Backends inside the runtime have no capacity of their own: a put that would not fit is one of the failing calls.
- The planner's floating-point score: any real-valued function of a candidate, so NaN and rounding are not modelled.
- `explain_*`, `to_string`, messages and detail strings: text output.
- `can_transition`, `HealthAccumulator`, freshness ageing: small tables and increments.
- The names of the 21 accounting counters: the file codec keeps them as a list of numbers.
- Layout.Put: the encoders of one record are a loop over its list of fields instead of one function each.
- SaveFile.SavedReadsBackIff: that runs whose operations carry values in range save files within the limits is not shown, because it would only add easy members, bounds on each field through each operation.
- SHA-256 collision resistance: a hypothesis where it matters.
