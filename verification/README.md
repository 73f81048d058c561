# xilo: verified models

xilo is a deduplicating binary cache for Nix. Store paths are cut into chunks that are addressed by
their SHA-256 hash and shared between all paths of a storage backend; a sweep removes chunks that
nothing references. This project models the parts of xilo whose correctness depends on an argument
and proves that argument in Dafny 4.11. `dafny verify dfyconfig.toml` checks all of it.

## What is modelled

**The chunk lifecycle** (`ChunkLifecycle`, `RowSafety`, `BlobSafety`, `RequestOutcomes`). Sweeps, put-path and adopt
requests, get-missing-chunks queries, uploads and evictions run over the same chunk rows, blobs and
path rows with no lock around them. `ChunkLifecycle` is a step system in which every database write
and every batch of a batched read is one atomic step, any number of actors are in flight and any of
them may stop anywhere. Two durations describe a deployment: the *window* from a registration's stamp
to its commit, and the *delay* from reading the clock to writing the stamp, which matters because a
late write lowers a newer stamp. `RowSafety` proves that registered paths keep their rows in every
run exactly when window plus delay fits in the grace period, with a run that loses a row whenever it
does not. `BlobSafety` proves that under any discipline that lets uploads and sweeps finish what they
began, rows keep their blobs in every run exactly when no upload of a chunk overlaps a sweep
reclaiming it, that a lock excluding such overlaps is enough, and that without one nothing about timing
helps: a blob written between a sweep's row delete and its blob delete is lost. The comment at internal/store/gc.go:19-22 says that the worst
outcome is an orphaned blob; that holds only under this hypothesis, which the code does not enforce.
It also proves that the number of rows a sweep reports is always right, but the bytes it reports as
freed, which it looks up in a snapshot taken before its first batch, are right in every run exactly
when the delay is at most the grace period. `RequestOutcomes` says what requests leave behind in every
run: what put-path registers, what get-missing-chunks answers and stamps, what a sweep picks.

**The push client** (`PushGates`, `PushPath`). `PushGates` is the state machine of the three gates
(path workers, resolving windows, uploads) and of the count `wait` blocks on, with `Sums` for its
costs: bounds, exactness of that count, termination of every run, and that a push can get stuck
exactly when some gate has no room. `PushPath` is one path: the loop
over a dump that filters, collects windows and uploads, and the retries around it.

**Formats** (`Nar`, `NarRoundTrip`, `NarEncoder`, `NixBase32`, `Bloom`, `BloomFilter`, with `Bits`
for the arithmetic). The NAR archive of the Nix manual's chapter on the Nix Archive format, with a
parser that inverts it and the writer whose first error sticks; nix-base32 and the normal form of
NAR hashes; the chunk presence filter and its wire form.

**Server state** (`QuiescentSweep`, `Eviction`, `StatementCache`, `OrderedFetch`, `BufferPools`,
`BufferLoans`, `RecencyCaches`, `VerifiedPaths`, `LoginLimiter`, `Rebind`, `Fsck`) **and the client's nix.conf editor**
(`ManagedBlock`). Each is a class or method in the form of the source, proved against a specification
about which the promised property is then proved for every input or every run.

Where the code and its comments disagree the model follows the code. internal/server/ratelimit.go:13
speaks of a burst of 5; the constant is 10.

Hashes are functions without collisions and zstd is a codec whose decoding undoes its encoding. The
clock, the network, the file system and the database driver appear as parameters or as
nondeterministic steps.

## Model

| member | source | states |
|---|---|---|
| RowSafety.SafeExactlyWhenCovered | internal/store/gc.go:23-64 | in every interleaving every chunk of every registered path has a row, if and only if window + delay <= grace |
| RowSafety.StepKeeps | internal/store/gc.go:137-160 | every step keeps the invariant: a registered chunk that is still a sweep's candidate is stamped past that sweep's cutoff |
| RowSafety.RunKeeps | internal/server/api.go:149-160 | the invariant holds after every timely run |
| RowSafety.RegisteredKept | internal/store/models.go:242-267 | no step deletes a registered row or lowers it below a cutoff it was above |
| RowSafety.UnsafeRun | internal/server/gc.go:11 | when the grace period is too short, a run whose sweep took its clock read first leaves a registered path without a row |
| RowSafety.CommitIsFresh | internal/server/api.go:344-364 | the chunks of a timely commit all have rows stamped past the cutoff of every sweep in flight; a corollary of the invariant |
| RowSafety.StampedRowSurvives | internal/store/gc.go:34-47 | a row stamped at t survives every sweep started by t + grace - delay, in every run |
| RowSafety.StampHeld | internal/store/models.go:242-267 | a stamp that found its row during a run still holds at its end, up to the delay, while no sweep can have a later cutoff |
| RowSafety.PromisedChunksNeverMissing | internal/server/api.go:196-201 | if for each chunk some earlier step of the run stamped its row at `stamp` or later, a put-path that starts afterwards and checks by stamp + grace - delay is never told one is missing, whatever runs beside it |
| BlobSafety.RowsStayBacked | internal/server/api.go:302-313 | with no upload overlapping a reclaim of its chunk, every row has its blob in every reachable state |
| BlobSafety.DeletedAreReclaimed | internal/store/gc.go:137-160 | a sweep reclaims exactly the blobs of the rows its write removed |
| BlobSafety.RegisteredPathsServable | internal/store/gc.go:23-64 | under both hypotheses every registered path has all its rows and blobs |
| BlobSafety.OverlapIsFatal | internal/store/gc.go:44-55 | from every state in which an upload that is still in time has put its blob and a sweep is still to delete it, at most three steps leave a row without a blob |
| BlobSafety.BackedExactlyWithoutOverlap | internal/store/gc.go:44-55 | for every discipline that never holds up the end of an upload or of a blob delete: every row has its blob in every run it allows if and only if no such run has an overlap |
| BlobSafety.LockIsEnough | internal/server/api.go:302-313 | holding up blob writes of chunks being reclaimed, and batches with a chunk being uploaded, keeps every row backed in every run, whatever the timing |
| BlobSafety.TimingAloneDoesNotBack | internal/store/gc.go:44-55 | whatever the timing, some run reaches a row without its blob |
| BlobSafety.CountsAreExact | internal/store/gc.go:57-61 | in every run, whatever the timing, `deleted` is the number of rows removed in completed batches, no chunk twice, and `freed` is the sum of their sizes in the snapshot |
| BlobSafety.TotalsAreExact | internal/store/gc.go:57-61 | in every run `freed` is the compressed size of exactly the rows removed in completed batches, if and only if delay <= grace |
| BlobSafety.MiscountingRun | internal/store/gc.go:57-61 | whenever delay > grace, a run with two sweeps and a late upload reports a size other than that of the row removed |
| RequestOutcomes.RegistersWhatWasAsked | internal/server/api.go:344-432 | in every run a put-path that commits registers exactly the chunk list it was given, in order, until the path is evicted or registered again; when window + delay <= grace each of its chunks has its row |
| RequestOutcomes.RegistersWhenAllIsThere | internal/server/api.go:344-432 | from every state a put-path left to itself registers its path when every chunk has a row |
| RequestOutcomes.EvictedIsGone | internal/server/gc.go:10-70 | an evicted path is not registered until somebody registers it again |
| RequestOutcomes.NeverThere | internal/server/api.go:421-432 | no path is registered that no put-path or adoption committed |
| RequestOutcomes.PromisesWhatWasThere | internal/server/api.go:189-203 | get-missing-chunks promises exactly those of the chunks asked for that had a row at a check, and calls one missing only if at its check it had none |
| RequestOutcomes.PromisesAreStamped | internal/server/api.go:196-201 | when the promise is through, each of its chunks was stamped by it, if it still had a row |
| RequestOutcomes.UploadRecordsItsChunk | internal/server/api.go:302-313 | an upload that gets to its insert leaves its chunk a row, with its own size or the one on record, and no other row changes |
| RequestOutcomes.UploadGoesThrough | internal/server/api.go:253-313 | from every state an upload left to itself ends with its chunk's row stamped, and its blob written unless there was a row |
| RequestOutcomes.SweepPicks | internal/store/gc.go:23-41 | whatever goes on beside it, a sweep picks exactly the rows of its backend that no path listed when it read the paths and that are older than a grace period before its start |
| RequestOutcomes.SweepDeletes | internal/store/gc.go:137-160 | one delete takes exactly the rows among the next 500 candidates that are still that old |
| QuiescentSweep.Store.GC | internal/store/gc.go:23-64 | with nobody else writing, exactly the unreferenced rows older than the cutoff and their blobs go, and the totals are their count and size |
| QuiescentSweep.Store.SweepAll | internal/store/gc.go:42-62 | the batches together remove each candidate's row and blob once and count it once |
| QuiescentSweep.Store.LiveChunkSet | internal/store/gc.go:95-112 | exactly the chunks some path lists |
| QuiescentSweep.Store.Candidates | internal/store/gc.go:32-41 | exactly the rows that are not live and older than the cutoff, each once |
| QuiescentSweep.Store.DeleteRowsIf | internal/store/gc.go:137-160 | deletes and names exactly the rows of the batch that are still older than the cutoff |
| PushGates.StuckExactlyWhenAGateIsClosed | internal/push/push.go:196-210 | some push can get stuck if and only if some gate has no room for one |
| PushGates.Progress | internal/push/push.go:412-451 | in every reachable state with work left some step is enabled that is no failure of the server and no early end of a dump |
| PushGates.CanFinish | internal/push/push.go:412-451 | from every reachable state the push can go on to its return without another failure, and then, if nothing had failed, every path was taken on |
| PushGates.EveryRunEnds | internal/push/push.go:500-531 | every run keeps the invariant of the gates and makes a bounded number of steps, whatever the server answers |
| PushGates.UploadsBounded | internal/push/push.go:409-422 | at most `uploads` gated uploads, `windows` resolving windows and `workers` paths at once; ungated whole uploads add at most one a worker, one fewer when anything is in the gate |
| PushGates.ZeroIsDrained | internal/push/push.go:402-407 | the WaitGroup count of a path is zero exactly when it owns no upload and no window |
| PushGates.WaitIsComplete | internal/push/push.go:402-407 | in every reachable state the count is zero exactly when nothing of the path is in flight, and it is zero for a path that has gone past wait() |
| PushGates.WaitNeverRaces | internal/push/push.go:426-427 | while a path is in wait() with its count at zero, no step of any run raises it |
| PushGates.EndsWellExactly | internal/push/push.go:387-407 | in every interleaving a path in wait() can end without an error exactly when nothing it started is in flight and no window request and no upload it started has failed since its last dump began |
| PushGates.ReturnIsComplete | internal/push/push.go:529-531 | when the push returns nothing is in flight, and with no error every path was taken on |
| PushGates.PushCompletes | internal/push/http.go:119-125 | with n = max(jobs, 1): every run is bounded and continues, without further failures, to the push's return, and has at most n paths in hand, n gated uploads, max(2, n) windows and 2n - 1 uploads in all at once |
| PushGates.BoundsReached | internal/push/push.go:196-203 | for every job count one run has n paths, n gated uploads, max(2, n) windows and 2n - 1 uploads in all at one moment |
| PushGates.NothingForgotten | internal/push/push.go:412-451 | in every run the uploads a path called for, chunks handed over and chunks the server lacks of its windows, are those done and those outstanding; when its wait() is over all were done |
| PushGates.OnlyFinishEnds | internal/push/push.go:283-303 | a path ends only by its end, an end with an error stops the push, and a retry begins the next attempt with nothing failed |
| PushPath.PlanPays | internal/push/push.go:328-358 | what a dump hands off has every hash once and, unless cut off, is exactly the new hashes the filter does not claim |
| PushPath.UploadedOnce | internal/push/push.go:334-346 | no prefix of a dump's work uploads a hash twice, or one the filter claims |
| PushPath.EveryChunkAccountedFor | internal/push/push.go:428-451 | when all operations succeed, every hash of the archive was stored, confirmed present, or a filter hit |
| PushPath.WindowsFit | internal/push/push.go:232-238 | every window has 1 to 32 chunks and held less than 4 MiB before its last |
| PushPath.WindowsFill | internal/push/push.go:346-357 | every window but the tail of a complete archive has 32 chunks or 4 MiB |
| PushPath.Perform | internal/push/push.go:412-451 | an operation succeeds exactly when the window is answered and every upload it makes is stored |
| PushPath.DumpPush | internal/push/push.go:307-374 | put-path is called exactly when the dump ended, every window was answered, every upload stored and the hash agreed, with the whole ordered list, each hash accounted for; then the outcome is its answer, and otherwise a mismatch if only the hash disagreed and a failure if not |
| PushPath.PushWhole | internal/push/push.go:457-485 | a small archive is uploaded exactly when the hash agrees and nobody claims its chunk, and put-path is called exactly when the hash agrees and the chunk is stored, confirmed or claimed; the outcome is its answer, a mismatch or a failure |
| PushPath.PushOne | internal/push/push.go:276-304 | success only if the last put-path, or the manifest's, succeeded; at most three dumps (two if the first is external), a conflict followed by a pessimistic one and a disagreeing hash by an external one; the exit after the third is never taken, a mismatch is never the result, and a conflict only after a pessimistic dump |
| NarRoundTrip.UnarchiveInvertsArchive | internal/nar/nar.go:39-51 | parsing the archive of any tree gives the tree |
| NarRoundTrip.ArchiveInjective | internal/nar/nar.go:68-82 | trees with equal archives are equal, and archives are whole 8-byte words |
| NarRoundTrip.DecodeInvertsEncode | internal/nar/nar.go:68-82 | the string layer, length, bytes and padding, can be read back |
| NarRoundTrip.ParseInvertsEntries | internal/nar/nar.go:112-127 | the entries of a directory can be read back from its tokens |
| NarRoundTrip.EncodeAligned | internal/nar/nar.go:78-82 | every sequence of strings has a length divisible by 8 |
| NarRoundTrip.StringLayout | internal/nar/nar.go:68-82 | a string is its length in eight bytes, least significant first, its bytes, and fewer than eight zeros up to a multiple of eight |
| NarRoundTrip.FormatSpelledOut | internal/nar/nar.go:84-133 | the strings of a file, an executable, a symlink and an empty directory, word for word |
| NarRoundTrip.EntriesSpelledOut | internal/nar/nar.go:112-127 | the strings of a directory with two entries, the one first in byte order first |
| NarEncoder.Dump | internal/nar/nar.go:39-51 | succeeds exactly when the tree can be archived and the writer has room; then the output is the archive of the tree |
| NarEncoder.ListingOrderForgotten | internal/nar/nar.go:166-180 | trees that differ only in the order any of their directories, at any depth, is listed in are one tree, and can be archived alike |
| NarEncoder.OnlyOrderForgotten | internal/nar/nar.go:166-180 | of what can be archived, only what is the same up to listing order is the same tree |
| NarEncoder.DumpTwice | internal/nar/nar.go:39-51 | two dumps of trees that are the same up to listing order both fail or write the same bytes, and two that succeed write the same bytes only for such trees, as long as no string outgrows its 64-bit length |
| NarEncoder.DirNames | internal/nar/nar.go:168-180 | a directory's names come out each once, and of any two the earlier is a proper prefix of the later or has the smaller byte where they first differ |
| NarEncoder.Encoder.WriteStr | internal/nar/nar.go:68-82 | writes the encoding of one string, or nothing after an error |
| NarEncoder.Encoder.Contents | internal/nar/nar.go:139-164 | writes a file's string if its size is as declared, and fails otherwise |
| NarEncoder.Encoder.Walk | internal/nar/nar.go:84-133 | writes exactly the tokens of the tree below a path, and fails on anything that cannot be archived |
| Nar.LessIsByteOrder | internal/nar/nar.go:166-180 | the order used is byte order |
| Nar.AscendingUnique | internal/nar/nar.go:168-180 | there is one way to list a set of names in byte order |
| NixBase32.DecodeInvertsEncode | internal/narinfo/base32.go:16-32 | decode(encode(b)) = b for all bytes |
| NixBase32.EncodeInvertsDecode | internal/narinfo/base32.go:36-61 | encode(decode(s)) = s for all accepted text, and both denote the same number |
| NixBase32.AcceptsExactlyEncodings | internal/narinfo/base32.go:36-61 | the texts accepted are exactly the encodings of byte strings |
| NixBase32.DecodableExactly | internal/narinfo/base32.go:36-61 | the lengths with remainder 0, 2, 4, 5 or 7 are those at which the decoder's indexing stays in range |
| NixBase32.Base32Encode | internal/narinfo/base32.go:16-32 | the bit loop writes the number's base-32 digits, most significant first |
| NixBase32.Base32Decode | internal/narinfo/base32.go:36-61 | for every text the byte-placing loop gives the number's bytes, or the error for a too short text, a bad character or a carry, or the index out of range that other lengths end in when nothing else stops them first |
| NixBase32.NarHashIdempotent | internal/narinfo/base32.go:100-109 | normalizing a normalized hash changes nothing |
| NixBase32.NarHashCanonical | internal/narinfo/base32.go:78-109 | two spellings have the same normal form exactly when they denote the same digest |
| NixBase32.AllFormsAlike | internal/narinfo/base32.go:63-109 | every text form of a 32-byte digest, nix-base32, hex or base64 with or without padding, after any prefix or none, has the one normal form |
| NixBase32.OnlyTheseForms | internal/narinfo/base32.go:78-109 | whatever has a normal form spells 32 bytes in one of those forms |
| NixBase32.AlphabetIs | internal/narinfo/base32.go:10-12 | the letters are the digits and the lower-case letters but e, o, u and t, in order |
| NixBase32.TwoBytesSpelledOut | internal/narinfo/base32.go:16-32 | the bytes 0 and 1 encode as 0080: least significant byte first, most significant digit first |
| NixBase32.ByteSpelledOut | internal/narinfo/base32.go:16-32 | the byte 255 encodes as 7z |
| Bloom.ProbesDistinct | internal/bloom/bloom.go:74-78 | the probe positions of one string are pairwise distinct, for every odd step and power-of-two table up to 2^64 |
| Bloom.PositionIs | internal/bloom/bloom.go:103-122 | masking a wrapped 64-bit sum is the sum modulo the table size |
| Bloom.ClearLowestBit | internal/bloom/bloom.go:142-156 | m & (m - 1) is zero exactly for powers of two |
| Bloom.OneByteApart | internal/bloom/bloom.go:74-101 | strings that differ in one byte only, wherever it is, have different first hashes |
| Bloom.ProbesAre | internal/bloom/bloom.go:74-78 | the first hash is FNV-1a and the second FNV-1 made odd, from the published starting value |
| Bloom.PublishedFnv1a | internal/bloom/bloom.go:85-91 | FNV-1a of "a" has its published value |
| Bloom.PublishedFnv1 | internal/bloom/bloom.go:94-100 | FNV-1 of "a" has its published value |
| BloomFilter.ProbesSpread | internal/bloom/bloom.go:103-122 | the positions of a sound filter are in range and pairwise distinct |
| BloomFilter.UnmarshalInvertsMarshal | internal/bloom/bloom.go:127-156 | what is marshalled is read back as the same filter |
| BloomFilter.MarshalInvertsUnmarshal | internal/bloom/bloom.go:127-156 | every accepted body is the wire form of the filter read from it, and that filter is safe to probe |
| BloomFilter.WireLayout | internal/bloom/bloom.go:127-138 | the wire form byte by byte: xbf1, the probes in four bytes, the bits in eight, the words in eight each, least significant byte first |
| BloomFilter.SetOneBit | internal/bloom/bloom.go:103-111 | or-ing one bit into its word adds that position and no other |
| BloomFilter.Filter.Add | internal/bloom/bloom.go:103-111 | adds exactly the string's positions to the set bits |
| BloomFilter.Filter.Has | internal/bloom/bloom.go:113-122 | true exactly when the bits at all the string's positions are set |
| BloomFilter.Filter.Marshal | internal/bloom/bloom.go:127-138 | writes the wire form |
| BloomFilter.TableSize | internal/bloom/bloom.go:55-59 | the least power of two, from 8192 up, that holds the wanted bits |
| BloomFilter.ProbeCountBounds | internal/bloom/bloom.go:60-61 | 22 to 24 probes when the table has at least 32 bits an entry, as every table the server sizes has |
| BloomFilter.ProbeCountIs | internal/bloom/bloom.go:60-61 | 22 probes for 32 bits an entry, 23 for 33, and 24 from 34 on |
| BloomFilter.New | internal/bloom/bloom.go:48-62 | a sound empty filter, or none above the limit |
| BloomFilter.Unmarshal | internal/bloom/bloom.go:142-156 | accepts exactly the bodies the specification does, and gives their filter |
| BloomFilter.Build | internal/server/chunkfilter.go:72-79 | a filter sized for any count and given any sequence of hashes has exactly their positions set; there is none exactly when the count is above 8388608 |
| BloomFilter.BuildAndShip | internal/bloom/bloom.go:103-156 | for every size and every sequence of adds, the client reading the filter off the wire is told yes exactly for strings whose positions are all among those of the added hashes: always for an added one, never when nothing was added |
| Eviction.EvictToFit | internal/store/gc.go:247-276 | returns the ids of the shortest prefix in access order whose removal makes the distinct remaining chunks fit, for any chunk lists |
| Eviction.EnforceCap | internal/store/gc.go:198-241 | over rows as stored: what goes is accessed no later than what stays, oldest first, each once, and is the shortest such list whose removal makes the rest fit; without a cap nothing goes |
| Eviction.PlanPrefix | internal/store/gc.go:263-275 | before each turn and at the end refcounts and total describe exactly the paths not yet taken off, so the total is their footprint; what is taken off is the shortest prefix that makes the rest fit |
| Eviction.DescribesFootprint | internal/store/gc.go:248-259 | refcounts that count the references and a total over the live ones give the footprint |
| Eviction.AddPath | internal/store/gc.go:248-259 | counting one path in raises each chunk by as often as it is listed and the total by the chunks not referenced before |
| Eviction.RemovePath | internal/store/gc.go:263-275 | counting one path out lowers each chunk by as often as it is listed and the total by those no longer referenced |
| Eviction.Distinct | internal/store/gc.go:296-306 | the same elements, each once |
| Eviction.OldestGoFirst | internal/store/gc.go:247-276 | no evicted path was accessed after a kept one, and keeping one more would not fit; a corollary of the shortest prefix |
| StatementCache.ExactlyOneState | internal/store/stmtcache.go:106-150 | in every run each prepared statement is listed, or evicted and checked out, or closed, and only one of these; at most 256 are listed |
| StatementCache.ClosedExactlyOnce | internal/store/stmtcache.go:183-201 | once the connection is shut and all is given back every statement was closed exactly once |
| StatementCache.GotIsExclusive | internal/store/stmtcache.go:106-132 | an acquired statement is open, for that query, at the front, and checked out to nobody else |
| StatementCache.HitIsHandedOut | internal/store/stmtcache.go:106-114 | a listed statement that nobody has is handed out, with nothing prepared and nothing displaced; one somebody has is not |
| StatementCache.MissPrepares | internal/store/stmtcache.go:115-131 | for any other query a new statement is prepared, put in front and handed out, unless preparing fails or closing the one it displaces does |
| StatementCache.MostRecentFirst | internal/store/stmtcache.go:106-132 | in every run the list is in the order of latest use |
| StatementCache.DisplacedIsOldest | internal/store/stmtcache.go:126-142 | what an acquire displaces, from a list of 256, was used before everything it leaves |
| StatementCache.OpenUntilGivenBack | internal/store/stmtcache.go:134-150 | a checked-out statement stays open through every run without its release or a shutdown |
| StatementCache.StepValid | internal/store/stmtcache.go:106-150 | every operation keeps list, map and flags consistent |
| StatementCache.StmtConn.DoAcquire | internal/store/stmtcache.go:106-132 | the connection's acquire does what the specification's does, with its result |
| StatementCache.StmtConn.DoEvict | internal/store/stmtcache.go:134-142 | takes the last statement off, closing it unless it is busy |
| StatementCache.StmtConn.DoRelease | internal/store/stmtcache.go:144-150 | gives a statement back, closing it if it was evicted |
| StatementCache.StmtConn.Close | internal/store/stmtcache.go:183-190 | closes every listed statement and empties list and map |
| OrderedFetch.EachOrdered | internal/server/streamchunks.go:124-160 | the loop gives what fetching one by one gives, and never waits on a channel that was not made |
| OrderedFetch.StrictlyInOrder | internal/server/streamchunks.go:124-160 | for every completion order the consumer has at every moment a first part of what one-by-one fetching gives |
| OrderedFetch.BoundedAhead | internal/server/streamchunks.go:124-147 | at most max(ahead, 1) chunks are launched and not consumed, and exactly so many, as far as there are chunks, while the loop runs |
| OrderedFetch.NeverStuck | internal/server/streamchunks.go:137-160 | the loop never waits for a chunk that was not launched |
| OrderedFetch.StepsBounded | internal/server/streamchunks.go:124-160 | a run makes at most two steps a chunk and one more |
| OrderedFetch.SameAsOneByOne | internal/server/streamchunks.go:124-160 | a finished run has the data and the error of fetching one by one: all chunks, or those before the first fetch that failed, or those up to the first the consumer refused |
| OrderedFetch.DeliversTheArchive | internal/server/streamchunks.go:61-72 | encoded chunks come out as the bytes that went in |
| BufferLoans.UndisturbedReading | internal/server/streamchunks.go:144-151 | in every run, while the consumer reads a buffer no pool, fetch, channel or other request has it, and it holds the chunk handed over; what the consumer reads is a first part of what one-by-one fetching gives |
| BufferLoans.UndisturbedWaiting | internal/server/streamchunks.go:61-89 | in every run a result waiting in its channel is as exclusive and as intact, and no pool has a buffer twice |
| BufferLoans.NoBufferLost | internal/server/streamchunks.go:31-48 | in every run in which nobody lets a buffer go, each one ever made is in exactly one place: a pool, a fetch, a channel, the consumer or another request |
| BufferLoans.StepKeepsHolders | internal/server/streamchunks.go:31-48 | no step of a fetch, the loop, a pool or another request gives a buffer a second holder |
| BufferLoans.Projects | internal/server/streamchunks.go:124-160 | forgetting the buffers, every run is a run of the ordered fetching loop |
| BufferLoans.Lifts | internal/server/streamchunks.go:124-160 | every run of the ordered fetching loop is one of these with the buffers forgotten |
| BufferLoans.FetchCompletes | internal/server/streamchunks.go:61-107 | in every state a fetch in flight can complete by its own steps, with its chunk in a buffer of its own or its error |
| BufferPools.ClassIsSmallestThatFits | internal/server/streamchunks.go:24-29 | the class of a size is the smallest whose capacity holds it, and none above 4 MiB |
| BufferPools.ExactCapacity | internal/server/streamchunks.go:42-48 | a capacity that is exactly a class's is in that class |
| BufferPools.CapacitiesAre | internal/server/streamchunks.go:16-22 | eleven classes from 4 KiB to 4 MiB, each twice the one before |
| BufferPools.Pools.GetBuf | internal/server/streamchunks.go:31-40 | a buffer of at least the hinted capacity, exactly that of its class, at most one buffer leaving that pool |
| BufferPools.Pools.PutBuf | internal/server/streamchunks.go:42-48 | exactly the buffers of a class's capacity are kept, in that class |
| BufferPools.ReadAllInto | internal/server/streamchunks.go:93-107 | reads all of the content, in whatever pieces it arrives, empty ones included, and does not grow a buffer larger than it |
| BufferPools.FetchRaw | internal/server/streamchunks.go:77-89 | a blob of any size is read whole; its buffer ends in the pool of its capacity, if there is one, and when the blob is no larger than recorded it did not grow and that is the pool it came from |
| RecencyCaches.HeldExactlyWhenRecent | internal/server/verifycache.go:64-93 | a key is held exactly when it was used and fewer distinct other keys than fit were used since |
| RecencyCaches.UseKeepsRecent | internal/server/narinfocache.go:43-67 | moving to the front, inserting and dropping the last keep the list the latest distinct keys used |
| RecencyCaches.VerifyCache.Find | internal/server/verifycache.go:64-75 | true exactly for held keys, which are thereby used |
| RecencyCaches.VerifyCache.Add | internal/server/verifycache.go:77-93 | the key counts as used, and list and map stay in step |
| RecencyCaches.NarinfoCache.Get | internal/server/narinfocache.go:43-51 | the entry last put under the key, exactly when the key is held |
| RecencyCaches.NarinfoCache.Put | internal/server/narinfocache.go:53-67 | the entry is the latest under its key, and list and map stay in step |
| VerifiedPaths.KeyInjective | internal/server/verifycache.go:43-62 | requests with the same key have the same storage, NAR hash and chunk list |
| VerifiedPaths.VerifyKey | internal/server/verifycache.go:43-62 | the line-by-line fold digests storage, hash and joined chunks |
| VerifiedPaths.HitIsGenuine | internal/server/api.go:404-411 | a key found in the cache was put there for this very chunk list and hash |
| VerifiedPaths.StepKeeps | internal/server/api.go:352-434 | every step of uploads, sweeps, registrations, adoptions (the candidate read first, its chunks checked, then inserted, though it may be gone by then) and evictions keeps paths and cache genuine |
| VerifiedPaths.GenuineExactlyWhenVerifying | internal/server/api.go:398-419 | every path of every run concatenates to bytes with its NAR hash, if and only if the server verifies |
| VerifiedPaths.RegistersExactlyWhenItCan | internal/server/api.go:344-432 | in every reachable state a put-path left to itself registers its path, by cache hit or by reading, if and only if its chunks have rows and, when the server verifies, blobs that make up an archive with its hash |
| VerifiedPaths.UploadedIsRegistrable | internal/server/api.go:404-429 | in every state, once its chunks are uploaded, the path they make up can be registered |
| VerifiedPaths.AdoptsWhenItCan | internal/server/api.go:134-160 | an adoption left to itself registers its candidate when all its chunks have rows |
| VerifiedPaths.ForgedRun | internal/server/api.go:398-398 | with verification off a path without chunks is registered under a hash that is not that of the empty archive |
| ManagedBlock.ReadBackExactly | internal/cli/use.go:164-213 | parsing what was written gives the written lists exactly when there was at most one block start, or nothing to write |
| ManagedBlock.ReadBack | internal/cli/use.go:164-213 | with n block starts the written lists come back n times over |
| ManagedBlock.LastWriteWins | internal/cli/use.go:181-213 | of two writes only the second counts, to the byte |
| ManagedBlock.UserLinesKept | internal/cli/use.go:191-212 | the user's lines outside the block are kept in order, up to trailing newlines |
| ManagedBlock.UseAndDrop | internal/cli/use.go:110-163 | using a cache twice is using it once, and removing a new one restores what the block said |
| ManagedBlock.UseIsReadBack | internal/cli/use.go:147-163 | after use the block says what it said and then, if new, the substituter and the key |
| ManagedBlock.DropIsReadBack | internal/cli/use.go:110-124 | after removal the block says what it said without the substituter and without any key of the cache |
| ManagedBlock.BlockStaysInPlace | internal/cli/use.go:181-213 | a block is replaced where it is: the lines in front of it stay in front of it |
| ManagedBlock.LinesOfReplaced | internal/cli/use.go:181-213 | the lines of the written text |
| ManagedBlock.FieldsOfSetting | internal/cli/use.go:233-239 | a setting's words come back from its line |
| ManagedBlock.PrintableIsWord | internal/cli/use.go:233-239 | any text of printable ASCII characters is a word, and no text with a blank is |
| ManagedBlock.XiloFormatIsSane | internal/cli/use.go:18-21 | the markers and keys of the client cannot be taken for one another, so all of this holds of them |
| ManagedBlock.ParseManagedBlock | internal/cli/use.go:164-179 | the flag loop reads what the specification reads |
| ManagedBlock.ReplaceManagedBlock | internal/cli/use.go:181-213 | the flag loop writes what the specification writes |
| LoginLimiter.WindowBound | internal/server/ratelimit.go:36-65 | in every window of every run an address is admitted at most 10 times and once per 10 seconds elapsed |
| LoginLimiter.PruningUnnoticed | internal/server/ratelimit.go:41-48 | verdicts are those of a limiter that never prunes |
| LoginLimiter.TenAtOnce | internal/server/ratelimit.go:50-65 | the bound is met by a new address |
| LoginLimiter.RefusedForTenSeconds | internal/server/ratelimit.go:50-65 | an address that has just used up all ten is refused until ten seconds have passed, and then admitted |
| LoginLimiter.WaitingIsAdmitted | internal/server/ratelimit.go:55-64 | an address that waited 10 seconds is admitted |
| LoginLimiter.AdmittedAgainstLevel | internal/server/ratelimit.go:50-65 | what is admitted never exceeds what was there to spend plus what was refilled |
| LoginLimiter.Limiter.Allow | internal/server/ratelimit.go:36-65 | verdict and buckets are those of the specification |
| LoginLimiter.Limiter.Prune | internal/server/ratelimit.go:41-48 | above 4096 buckets exactly those idle for over 100 seconds go |
| Rebind.SameMeaningExactlyWhenPlain | internal/store/pgdriver.go:103-126 | binding by number after rewriting equals binding by position, for all arguments, exactly when outside quotes no digit follows a `$` or a placeholder |
| Rebind.LiteralsUnchanged | internal/store/pgdriver.go:113-122 | quoted text is unchanged for every query |
| Rebind.ItoaIs | internal/store/pgdriver.go:120-120 | the digits written denote the number |
| Rebind.RebindQuery | internal/store/pgdriver.go:103-126 | the character loop writes what the specification writes |
| Fsck.RunFsck | internal/cli/fsck.go:59-123 | reports intact exactly when every row looked at is good and every chunk of every path has a row, changes nothing then or without repair, otherwise leaves exactly the repaired store; its numbers are those of the rows looked at, the bad rows and the broken paths |
| Fsck.ScanAll | internal/cli/fsck.go:59-90 | one key for each bad row of the configured backends and no other, their hashes by backend, and how many rows there are |
| Fsck.KeyInjective | internal/store/fsck.go:31-37 | storage and hash can be told from their key, as hashes have no slash |
| Fsck.DB.PathsWithMissingChunks | internal/store/fsck.go:17-59 | exactly the paths that reference a listed or an absent row, each once |
| Fsck.DB.DeletePaths | internal/store/fsck.go:62-72 | exactly the listed paths go, over all batches |
| Fsck.DB.DeleteChunkRows | internal/store/fsck.go:78-89 | exactly the listed rows of that backend go, over all batches |
| Fsck.RepairIsLargestClean | internal/cli/fsck.go:105-123 | what a repair leaves is clean and contains every clean part of the store, so no good row and no intact path goes; a fact about the specification |
| Fsck.RepairIsIdempotent | internal/cli/fsck.go:59-123 | a second repair changes nothing, and a store is clean exactly when a repair changes nothing; a fact about the specification |

## Left out

- VerifiedPaths.GenuineExactlyWhenVerifying: says nothing of NarSize, because the cache key leaves it out (internal/server/verifycache.go:43) and so the code does not decide it after a hit; blobs are taken to be what the upload wrote, so damage on disk is not modelled here.
- VerifiedPaths.KeyInjective: the digest is taken without collisions although the server keeps only its first 16 bytes, and storage names are taken to have no NUL.
- PushPath.DumpPush: one operation is performed at a time; which upload fails first under concurrency is not told apart, since every such failure ends the dump the same way, and when an earlier failure is noticed is left open. That a path under concurrency ends well exactly when all it started succeeded is PushGates.EndsWellExactly.
- PushGates.Progress: what each path hands off is a plan fixed in advance, of which a run may do any part.
- StatementCache.StmtConn.DoAcquire: statements are known by number instead of by pointer, and the branch for a driver whose statements lack context execution is not modelled.
- StatementCache.StmtConn.DoRelease: a statement is released once for each time it is handed out. A second close of the same rows (internal/store/stmtcache.go:199-201) is not a step: database/sql closes a driver's rows once.
- BufferPools.Pools.GetBuf: buffers are known by their capacity here; who holds which buffer is the subject of BufferLoans, which in turn leaves capacities out.
- BufferLoans.UndisturbedReading: a consumer that keeps its slice after returning is not modelled; the callbacks of the server do not.
- Eviction.EvictToFit: sizes are unbounded numbers, where the source adds int64 values; ties in access time may fall either way, as in the source's unstable sort.
- BloomFilter.New: the number of probes is computed over real numbers; rounding of float64 at the boundary is not modelled.
- LoginLimiter.WindowBound: tokens are real numbers and the clock does not go back.
- NixBase32.Base32Encode: the mask with 0x1f is written as a remainder.
- NixBase32.NarHashCanonical: the hexadecimal and base64 decoders are parameters.
- Fsck.RunFsck: the store is quiescent, as the source demands, chunk hashes have no slash, and failing queries are not modelled.
- OrderedFetch.DeliversTheArchive: zstd is a pair of functions of which one undoes the other.
- The clock of the chunk lifecycle counts whole seconds and does not go back; put, has, get and delete of a blob are atomic.
- Chunk splitting, compression, signatures, password hashing and the mixing quality of FNV.
- HTTP requests and responses, JSON, retries and timeouts around the protocol steps, and the upload semaphore of the server.
- Caps over several backends at once: sizes are looked up by hash alone (internal/store/gc.go:278-294), so the property is stated of the planner only.
- Moving a cache between storage backends, token scopes, plans, sessions, configuration, dashboards and search.
- The filter loops `diff` (internal/store/models.go:673-683) and `present` (internal/server/api.go:206-219) are set differences inside the step system, and the loops of internal/server/gc.go:10-70 that pick what to evict are eviction steps of any set of paths.
- Bulk deletion of blobs by a backend (internal/store/gc.go:71-93): a blob is deleted at a time, in any order.
