# Verified model of the Oxia client library

Oxia is a sharded key-value store. This project models the parts of its Go client library where a mistake
would be hardest to see, and proves what they promise:

* **The wire codec** (`proto/client_vtproto.pb.go`): sizing, marshalling from the back of a buffer, parsing with
  inline varint loops and 64-bit length checks, zero-copy parsing and structural equality, for write requests
  with their puts, deletes and delete-ranges, put responses with their version, and notification batches with
  their map of notifications. `Varint`, `Wire`, `Messages` and `Parser` give the meaning of the format on byte
  sequences (the Protocol Buffers encoding: base 128 varints, length-delimited records, packed repeated fields,
  maps, last one wins); `Records` says field by field, in the schema's numbers, what each record does to a
  receiver; `Concat`, `Fields`, `RoundTrip` and `Reparse` prove the laws; `Marshal`, `Marshallers`, `Scan`,
  `Unmarshal` and `ZeroCopy` are the generated loops over arrays and indices, proved against it; and `EndToEnd`
  puts marshaller and parser back to back.
* **Queries across shards** (`oxia/async_client_impl.go`, `oxia/results_heap.go`): the order of keys (`KeyOrder`),
  the priority queue (`ResultHeap`), the k-way merge of a range scan (`RangeScan`), and the fan-out of floor,
  lower, ceiling and higher queries (`FloorCeiling`).
* **Waiting for all shards** (`common/wait_group.go`, `DeleteRange`): the error-carrying wait group (`WaitGroup`)
  and its use as a barrier by callbacks that interleave in any way (`Barrier`).
* **Splitting the hash space** (`common/shards.go`): `Sharding`, in wrapping 32-bit arithmetic.
* **The invalidating cache** (`oxia/cache.go`): a step system of a versioned server, undelivered notifications,
  cached entries and concurrent calls (`Cache`); the refinement to an atomic store (`Atomicity`), the counter
  that loses no increment (`Counter`), how stale an entry can be (`Coherence`), what that does to updates
  (`StaleUpdates`), what a client sees of its own writes (`OwnWrites`), and the calls themselves with their retry
  loop, run among those steps (`CacheLoop`).
* **Notification subscriptions** (`oxia/notifications.go`): a step system of one manager per shard, the closing
  and the creating goroutine and the user (`Subscription`); resuming from an offset exactly once (`Resume`),
  initialisation and shutdown (`Lifecycle`), creation that fails (`FailedCreation`), what the user reads
  (`Delivery`) and can always still read (`CatchUp`), and the manager's own loops (`ManagerLoop`).

`dafny verify dfyconfig.toml` checks the whole project.

## What the proofs found

* The hash ranges of `GenerateShards` cover the hash space without overlap exactly if the last bucket begins
  inside it. That holds for every count up to 65536; 65537 is the smallest count that fails. Above it tiling
  depends on the count: 65538 tiles, and so does every power of two (`TilesIffFits`, `SmallCountsTile`,
  `TooManyShards`, `DivisorsFit`, `SomeLargeCountsFit`).
* Resuming a subscription is exactly-once if and only if the shard's initial offset is not negative. On an empty
  shard the offset is -1, which the client reads as "no offset yet": a manager that loses its stream before its first
  batch asks for a new dummy batch and skips what was written in between (`ExactlyOnceIff`, `SkippingRun`). Run by
  run, receiving such a batch is the only way to lose anything (`ExactlyOnceIffNotSkipped`).
* When creating a subscription times out, its managers keep running and pushing: only a failure that one of them
  reports, or the parent context, stops them (`FailedCreationStopsOnlyIf`, `TimeOutRun`).
* Giving a receiver that `UnmarshalVTUnsafe` filled to `UnmarshalVT` can damage it: the value is copied over the
  buffer that the other fields still look at (`CopyIntoViewsIff`, `LongerValueOverwrites`).
* A cached entry can outlive its notifications: a load that read before a write and stores after that write's
  notification was delivered leaves an entry that no notification will remove; only eviction, expiry or a later
  write of the key does. This is the only way (`CoherentIffNoOvertaking`, `StaleEntryRun`).
* `ReadModifyUpdate` stays atomic even then, but it cannot succeed: a refused put keeps the entry, so every retry
  hits it and is refused again until the entry is gone (`StaleEntryRefusesUpdates`).
* A client sees its own writes unless a load of the key that read before the write stores what it read after the write
  has invalidated the entry; it is sure to see them exactly if no such load is still under way then (`OwnWriteIsSeen`,
  `FreshIffNoOldStore`, `FreshIffNoOldLoad`).
* A floor, lower, ceiling or higher query panics if and only if some shard reports an error: the callback goes on
  to look at the response that is missing then (`DoFloorCeilingGet`).

## Conventions

* Byte strings are `seq<byte>`. Go integers are mathematical integers with their width made explicit where it
  matters: casts between int64, int32 and uint64, the end index of a record, the shard bounds. Buffers are assumed
  to be no longer than the largest int, as Go slices are.
* `protohelpers.EncodeVarint` and `SizeOfVarint` are defined to match the inline loops. `protohelpers.Skip` is a
  parameter of every parser, with the contract that it fails or returns a length that covers at least the tag and
  is decided by the bytes it covers (`SkipContract`).
* Steps that would block in Go are not enabled, or lead to an explicit blocked phase where the point is that they
  never do. Sending on a closed channel, dropping a signal and reporting twice are representable, and proved
  not to happen.
* A run is a sequence of states joined by enabled steps from an initial state; the theorems about runs hold for every
  run, every position in it, and any number of shards, calls, keys and callers.
* Where the code stores an absent record as a negative cache entry, its type argument differs from the one it
  later asserts (`oxia/cache.go:270` and `oxia/cache.go:257`). The model has the intended entry, "absent".
* The server's side of a subscription follows `server/notifications_dispatcher.go`: without a start offset a dummy
  batch at the commit offset, then the log; with one, the log behind it. Versions are checked as in
  `server/kv/db.go:662-682`.

## Model

| member | source | states |
|---|---|---|
| `Varint.VarintRoundTrip` | proto/client_vtproto.pb.go:2208-2216 | for every 64-bit value and any bytes behind it, reading what the varint encoder wrote gives the value back and consumes exactly its bytes |
| `Varint.ReadVarintLocal` | proto/client_vtproto.pb.go:4976-4990 | a varint that is read depends only on the bytes it consumes: whatever follows, the result is the same |
| `Varint.Int64RoundTrip` | proto/client_vtproto.pb.go:2235-2244 | the casts between int64 and uint64 around a varint undo each other, negative values included |
| `Varint.Int32RoundTrip` | proto/client_vtproto.pb.go:5298-5316 | the casts between int32 and uint64 around an enum varint undo each other |
| `Varint.Fixed64RoundTrip` | proto/client_vtproto.pb.go:2811-2858 | eight little-endian bytes read back as the value that was written |
| `Scan.VarintMeans` | proto/client_vtproto.pb.go:4976-4990 | a varint is its seven-bit groups added up, least significant first, modulo 2^64; with no final group among the first ten bytes there is none |
| `Scan.EncodeVarintMeans` | proto/client_vtproto.pb.go:2208-2216 | the encoder writes the groups of the value, each but the last marked as continued, and no superfluous group |
| `Records.HeaderMeans` | proto/client_vtproto.pb.go:4974-4998 | a tag is refused exactly if its varint cannot be read, it is an end-group tag, or the low 32 bits of its field number are not positive |
| `Records.AnyHeader` | proto/client_vtproto.pb.go:4974-4998 | however many bytes the tag of a known field is spread over, its record does what it does with a one-byte tag |
| `Records.BadHeader` | proto/client_vtproto.pb.go:4974-4998 | a refused tag fails the parse of any message |
| `Records.PayloadMeans` | proto/client_vtproto.pb.go:5003-5030 | a payload is there exactly if its length is not negative as an int64 and fits in what is left, and then is the bytes behind the length |
| `Records.PutBytesRecords` | proto/client_vtproto.pb.go:4999-5170 | fields 1, 2, 5 and 6 of a put set key, value, client identity and partition key to the payload, present even if it is empty, whatever was there before |
| `Records.PutNumberRecords` | proto/client_vtproto.pb.go:5065-5187 | fields 3 and 4 of a put set the expected version and the session, as signed 64-bit numbers; field 7 as a plain varint appends exactly that delta |
| `Records.PackedNumbers` | proto/client_vtproto.pb.go:5189-5243 | packed deltas are read until the announced bytes are used up; the last one may run past them |
| `Records.MixedDeltas` | proto/client_vtproto.pb.go:5171-5243 | however the deltas are split into packed and plain records, they are appended in order |
| `Records.DeleteBytesRecords` | proto/client_vtproto.pb.go:5408-5510 | field 1 of a delete sets its key |
| `Records.DeleteNumberRecords` | proto/client_vtproto.pb.go:5408-5510 | field 2 of a delete sets the expected version |
| `Records.DeleteRangeBytesRecords` | proto/client_vtproto.pb.go:5876-5990 | fields 1 and 2 of a delete-range set its start and its end |
| `Records.VersionNumberRecords` | proto/client_vtproto.pb.go:6499-6660 | fields 1, 2 and 5 of a version set its id, its modification count and its session |
| `Records.VersionFixedRecords` | proto/client_vtproto.pb.go:6499-6660 | fields 3 and 4 of a version set the time of creation and of modification |
| `Records.VersionBytesRecords` | proto/client_vtproto.pb.go:6499-6660 | field 6 of a version sets the client identity |
| `Records.NotificationNumberRecords` | proto/client_vtproto.pb.go:7450-7539 | field 1 of a notification sets its type to the low 32 bits as a signed number, field 2 the version |
| `Records.WriteNumberRecords` | proto/client_vtproto.pb.go:4483-4502 | field 1 of a write request sets its shard |
| `Records.WriteRequestRecords` | proto/client_vtproto.pb.go:4503-4604 | fields 2, 3 and 4 of a write request append a put, a delete or a delete-range parsed afresh from the payload, and fail if that does |
| `Records.PutResponseNumberRecords` | proto/client_vtproto.pb.go:5298-5316 | field 1 of a put response sets its status to the low 32 bits as a signed number |
| `Records.PutResponseBytesRecords` | proto/client_vtproto.pb.go:5317-5385 | field 2 of a put response parses its payload into the version that is there, or into an empty one, and fails if that does; field 3 sets the key |
| `Records.BatchNumberRecords` | proto/client_vtproto.pb.go:7251-7288 | fields 1 and 2 of a batch set its shard and its offset |
| `Records.BatchFixedRecords` | proto/client_vtproto.pb.go:7289-7298 | field 3 of a batch sets its time |
| `Records.BatchEntryRecords` | proto/client_vtproto.pb.go:7299-7427 | field 4 of a batch stores its entry, replacing what its key held; parsing goes on at the declared end of the entry |
| `Records.EntryKeyRecord` | proto/client_vtproto.pb.go:7351-7379 | in an entry, each key record replaces the key |
| `Records.EntryValueRecord` | proto/client_vtproto.pb.go:7380-7410 | in an entry, each value record replaces the value by its payload parsed afresh, and fails if that does |
| `Records.EntrySkips` | proto/client_vtproto.pb.go:7411-7425 | in an entry, any other record is skipped if it ends inside the entry, and is an error otherwise |
| `Records.EntryEnds` | proto/client_vtproto.pb.go:7330-7427 | once the declared bytes are used up, also by a field that ran past them, the entry is what was found so far |
| `Records.WrongWireType` | proto/client_vtproto.pb.go:4999-5246 | in each of the eight messages, a known field with another wire type than the schema's is an error |
| `Records.Unreadable` | proto/client_vtproto.pb.go:4999-5246 | in each of the eight messages, a known field whose value cannot be read is an error |
| `Records.LargerFieldIsKept` | proto/client_vtproto.pb.go:5247-5261 | a field number above 7 in a put, 2 in a delete, a delete-range or a notification, 4 in a write request or a batch, 6 in a version and 3 in a put response is kept byte for byte behind what was unknown, and nothing else changes |
| `Records.LargerFieldFails` | proto/client_vtproto.pb.go:5247-5261 | such a record that cannot be skipped, or does not fit, is an error |
| `Concat.StepLocal` | proto/client_vtproto.pb.go:4970-5268 | one record of any modelled message parses the same whatever bytes follow it |
| `Concat.ConcatenationIsMerge` | proto/client_vtproto.pb.go:5269-5407 | for every message and receiver, if `a` parses then parsing `a + b` is parsing `a` and then `b` into the result: repeated fields append, sub-messages merge, the last scalar wins |
| `RoundTrip.ParseUnknownRecords` | proto/client_vtproto.pb.go:5247-5261 | unknown records are kept byte for byte, in order |
| `RoundTrip.EqualPutIsNormalEquality` | proto/client_vtproto.pb.go:1116-1150 | `EqualVT` on puts is equality of normal forms: nil and empty value are the same, nil and empty optional strings are not |
| `RoundTrip.EqualWriteIsNormalEquality` | proto/client_vtproto.pb.go:910-971 | `EqualVT` on write requests is equality of normal forms, element by element, nil elements standing for empty ones |
| `RoundTrip.EqualBatchIsNormalEquality` | proto/client_vtproto.pb.go:1603-1639 | `EqualVT` on batches is equality of normal forms: same keys and equal values, nil values standing for empty ones |
| `Messages.EqualPutResponseIsEquality` | proto/client_vtproto.pb.go:1159-1175 | put responses are `EqualVT` exactly if status, version, key and unknown bytes agree, nil and empty version or key told apart |
| `RoundTrip.ParsePut` | proto/client_vtproto.pb.go:4970-5268 | parsing an encoded put into any receiver merges it in: set fields replace, deltas and unknown bytes append |
| `RoundTrip.PutRoundTrip` | proto/client_vtproto.pb.go:2189-2260 | an encoded put parses to its normal form |
| `RoundTrip.DeleteRoundTrip` | proto/client_vtproto.pb.go:2335-2360 | an encoded delete parses to itself |
| `RoundTrip.DeleteRangeRoundTrip` | proto/client_vtproto.pb.go:2535-2562 | an encoded delete-range parses to itself |
| `RoundTrip.ParseVersion` | proto/client_vtproto.pb.go:6499-6660 | parsing an encoded version into any receiver merges it in |
| `RoundTrip.NotificationRoundTrip` | proto/client_vtproto.pb.go:3232-3255 | an encoded notification parses to itself |
| `RoundTrip.ParseWrite` | proto/client_vtproto.pb.go:4454-4626 | parsing an encoded write request into any receiver appends its puts, deletes and delete-ranges and replaces its shard if set |
| `RoundTrip.WriteRoundTrip` | proto/client_vtproto.pb.go:1951-2005 | for every write request, with puts, deletes, delete-ranges, optional int64s and strings and packed deltas of every length, parsing its encoding gives an `EqualVT` message |
| `RoundTrip.ParsePutResponse` | proto/client_vtproto.pb.go:5269-5407 | parsing an encoded put response into any receiver merges it in, its version into the receiver's version |
| `RoundTrip.PutResponseRoundTrip` | proto/client_vtproto.pb.go:2280-2315 | an encoded put response parses to itself |
| `RoundTrip.ParseBatch` | proto/client_vtproto.pb.go:7222-7449 | for every iteration order of the map, parsing an encoded batch into any receiver adds its entries, later keys replacing earlier ones |
| `RoundTrip.BatchRoundTrip` | proto/client_vtproto.pb.go:3161-3212 | for every batch and every iteration order of its map, parsing its encoding gives an `EqualVT` message, negative offsets and nil map values included |
| `RoundTrip.BatchEncodingIsInjective` | proto/client_vtproto.pb.go:3161-3212 | batches with the same encoding, in whatever orders, are `EqualVT` |
| `RoundTrip.WriteEncodingIsInjective` | proto/client_vtproto.pb.go:1951-2005 | write requests with the same encoding are `EqualVT` |
| `Reparse.ParseSound` | proto/client_vtproto.pb.go:5247-5261 | whatever a parser accepts leaves only unknown bytes that it would itself accept as unknown records, in the message and in all sub-messages |
| `Reparse.ParsedWriteSurvives` | proto/client_vtproto.pb.go:4454-4626 | every accepted byte string, however it was produced, gives a write request that survives marshalling and parsing |
| `Reparse.ParsedBatchSurvives` | proto/client_vtproto.pb.go:7222-7449 | the same for batches, in every iteration order |
| `Marshal.PutVarint` | proto/client_vtproto.pb.go:2208-2216 | writes exactly the varint's bytes, ending at the given offset, and touches nothing else |
| `Marshal.PutPacked` | proto/client_vtproto.pb.go:2201-2220 | sizes the deltas, writes them forward into the space below, and puts their total length and tag in front, touching nothing else |
| `Marshallers.MarshalPut` | proto/client_vtproto.pb.go:2189-2260 | fills exactly the last `SizeVT` bytes of the given space with the encoding, leaves the rest of the buffer unchanged and never indexes outside it |
| `Marshallers.MarshalDelete` | proto/client_vtproto.pb.go:2335-2360 | the same for a delete request |
| `Marshallers.MarshalDeleteRange` | proto/client_vtproto.pb.go:2535-2562 | the same for a delete-range request |
| `Marshallers.MarshalVersion` | proto/client_vtproto.pb.go:2811-2858 | the same for a version |
| `Marshallers.MarshalNotification` | proto/client_vtproto.pb.go:3232-3255 | the same for a notification, nil included |
| `Marshallers.MarshalWrite` | proto/client_vtproto.pb.go:1951-2005 | the same for a write request with its nested messages |
| `Marshallers.MarshalPutResponse` | proto/client_vtproto.pb.go:2280-2315 | the same for a put response with its version |
| `Marshallers.MarshalBatch` | proto/client_vtproto.pb.go:3161-3212 | the same for a batch, in some iteration order of its map |
| `Marshallers.PutEntries` | proto/client_vtproto.pb.go:3173-3193 | the loop over the map writes every entry exactly once, in the order in which it met them |
| `Marshallers.BatchSizeOfAnyOrder` | proto/client_vtproto.pb.go:3825-3855 | the encoding of a batch has the same length in every iteration order of its map |
| `Marshallers.SizePut` | proto/client_vtproto.pb.go:3455-3492 | `SizeVT` is the length of the encoding, deltas of every varint length included |
| `Marshallers.SizeDelete` | proto/client_vtproto.pb.go:3515-3530 | `SizeVT` is the length of the encoding |
| `Marshallers.SizeDeleteRange` | proto/client_vtproto.pb.go:3590-3606 | `SizeVT` is the length of the encoding |
| `Marshallers.SizeWrite` | proto/client_vtproto.pb.go:3361-3390 | `SizeVT` is the length of the encoding |
| `Marshallers.SizeVersion` | proto/client_vtproto.pb.go:3695-3722 | `SizeVT` is the length of the encoding |
| `Marshallers.SizePutResponse` | proto/client_vtproto.pb.go:3494-3513 | `SizeVT` is the length of the encoding |
| `Marshallers.SizeNotification` | proto/client_vtproto.pb.go:3857-3871 | `SizeVT` is the length of the encoding |
| `Marshallers.SizeBatch` | proto/client_vtproto.pb.go:3825-3855 | `SizeVT` is the length of the encoding in any iteration order |
| `Marshallers.MarshalWriteVT` | proto/client_vtproto.pb.go:1933-1944 | the buffer of `SizeVT` bytes is filled completely with the encoding |
| `Marshallers.MarshalPutResponseVT` | proto/client_vtproto.pb.go:2262-2273 | the buffer of `SizeVT` bytes is filled completely with the encoding |
| `Marshallers.MarshalBatchVT` | proto/client_vtproto.pb.go:3143-3154 | the buffer is sized before the map is iterated and is filled completely by whatever order comes |
| `Scan.VarintAt` | proto/client_vtproto.pb.go:4976-4990 | the inline loop reads the varint or fails; overflow if and only if ten continuation bytes come in a row, unexpected EOF if and only if the input ends inside the varint |
| `Scan.HeaderAt` | proto/client_vtproto.pb.go:4974-4998 | the tag, or an error for an end-group or non-positive field number |
| `Scan.PayloadAt` | proto/client_vtproto.pb.go:5003-5030 | the announced bytes, in bounds; invalid length if and only if the length is negative as an int64 or the end index wraps past the largest int |
| `Scan.SkipAt` | proto/client_vtproto.pb.go:5247-5261 | the length of an unknown record, refused if the end index wraps or lies outside |
| `Unmarshal.Receiver.PackedAt` | proto/client_vtproto.pb.go:5188-5243 | packed deltas are appended one by one; a last varint that runs past the announced end is still read, as in the loop |
| `Unmarshal.Receiver.PutFieldAt` | proto/client_vtproto.pb.go:4999-5246 | one field of a put: exactly the specified change of the receiver, or an error exactly when the specification has none |
| `Unmarshal.Receiver.WriteFieldAt` | proto/client_vtproto.pb.go:4483-4604 | one field of a write request, sub-messages parsed by recursion into fresh elements |
| `Unmarshal.Receiver.PutResponseFieldAt` | proto/client_vtproto.pb.go:5298-5385 | one field of a put response; a repeated version merges into the one already there |
| `Unmarshal.Receiver.EntryAt` | proto/client_vtproto.pb.go:7330-7425 | one map entry: fields in any order, repeated or missing; an entry that overruns its declared end still stays inside the buffer |
| `Unmarshal.Receiver.BatchFieldAt` | proto/client_vtproto.pb.go:7251-7427 | one field of a batch; after a map entry the index is set to the declared end, wherever the entry stopped |
| `Unmarshal.Receiver.StepAt` | proto/client_vtproto.pb.go:4973-5262 | each iteration of the outer loop strictly advances |
| `Unmarshal.Receiver.UnmarshalVT` | proto/client_vtproto.pb.go:4970-5268 | on every byte string, for each of the eight messages and every receiver: in bounds, terminating, failing exactly when the specification fails, and otherwise leaving the specified value |
| `ZeroCopy.ViewReceiver.UnmarshalVTUnsafe` | proto/client_vtproto.pb.go:8649-8956 | on every byte string and every receiver, also one with views into other buffers, fails exactly when `UnmarshalVT` fails and otherwise resolves, while the buffers are untouched, to the same message |
| `ZeroCopy.StableUnderReuse` | proto/client_vtproto.pb.go:8649-8956 | after buffers are overwritten the zero-copy message reads the same if and only if no byte under one of its views changed |
| `ZeroCopy.CopyIntoViewsIff` | proto/client_vtproto.pb.go:5031-5064 | setting the value by copying, in a receiver that the zero-copy parser filled, gives the message it gives in any other receiver if and only if it does not write over a byte that another field looks at |
| `ZeroCopy.LongerValueOverwrites` | proto/client_vtproto.pb.go:5060-5063 | a longer value can do that: it runs over the client identity behind the old value |
| `EndToEnd.SendWrite` | proto/client_vtproto.pb.go:4454-4626 | the real marshaller followed by the real parser: the message arrives `EqualVT`, without error |
| `EndToEnd.SendPutResponse` | proto/client_vtproto.pb.go:5269-5407 | the same for a put response |
| `EndToEnd.SendBatch` | proto/client_vtproto.pb.go:7222-7449 | the same for a batch, whatever order the map is iterated in |
| `KeyOrder.CompareWithSlash` | common/compare/compare_with_slash.go:21-51 | the loop is negative exactly if, at the first segment that decides, the first key has its last segment and the second goes on, or both or neither do and its bytes are a proper prefix of the other's or smaller at the first difference; it is zero exactly for equal keys |
| `KeyOrder.CompareBytesMeans` | common/compare/compare_with_slash.go:26-26 | bytes compare below exactly if they are a proper prefix or smaller at the first index where they differ |
| `KeyOrder.LessMeans` | common/compare/compare_with_slash.go:21-51 | the order in terms of the keys split at their slashes, without the loop |
| `KeyOrder.SlashFreeKeys` | common/compare/compare_with_slash.go:25-26 | keys without a slash compare by their bytes |
| `KeyOrder.StripSegment` | common/compare/compare_with_slash.go:33-40 | keys with the same first segment compare by what follows it |
| `KeyOrder.FirstSegmentsDiffer` | common/compare/compare_with_slash.go:33-38 | keys whose first segments differ and that both go on compare by the bytes of those segments |
| `KeyOrder.CompareAntisymmetric` | common/compare/compare_with_slash.go:21-51 | swapping the arguments negates the result, and only equal keys compare equal |
| `KeyOrder.CompareTransitive` | common/compare/compare_with_slash.go:21-51 | the comparison is transitive |
| `KeyOrder.TotalOrder` | common/compare/compare_with_slash.go:21-51 | it is a total order whose least key is the empty one |
| `KeyOrder.ChildrenBeforeGrandchildren` | common/compare/compare_with_slash.go:21-51 | for every directory `p`, all keys `p/x` sort before all keys `p/y/z`, where `x` and `y` are single segments |
| `ResultHeap.RootIsLeast` | oxia/results_heap.go:30-32 | the root of a heap is at or below every item |
| `ResultHeap.ResultHeap.Up` | oxia/results_heap.go:34-36 | sift-up restores the heap order after one item was appended, and keeps the items |
| `ResultHeap.ResultHeap.Down` | oxia/results_heap.go:34-36 | sift-down restores the heap order below the root, and keeps the items |
| `ResultHeap.ResultHeap.Push` | oxia/results_heap.go:38-40 | adds exactly the item and keeps the heap order |
| `ResultHeap.ResultHeap.Pop` | oxia/results_heap.go:42-48 | removes exactly the returned item, which is at or below all others, and keeps the heap order |
| `RangeScan.FlatAdvance` | oxia/async_client_impl.go:448-482 | reading one result moves exactly that result out of the streams |
| `RangeScan.FlatCount` | oxia/async_client_impl.go:448-482 | what the streams hold counts every result once for each time its own channel has it |
| `RangeScan.HeadsRead` | oxia/async_client_impl.go:452-457 | the heap holds one head of every stream that is neither exhausted nor to be read next |
| `RangeScan.EmittedBelowRest` | oxia/async_client_impl.go:462-479 | everything emitted is at or below everything still unread |
| `RangeScan.Fill` | oxia/async_client_impl.go:448-457 | one result from each channel is in the heap and nothing was lost |
| `RangeScan.ReadAgain` | oxia/async_client_impl.go:475-478 | after a success its own channel is read, never one that has failed; order, heads and conservation are kept |
| `RangeScan.Merge` | oxia/async_client_impl.go:448-482 | for any number of shard streams: without errors the output is key-sorted and as a multiset exactly the union of the streams; with errors it is a sorted run of successes, none above any success left behind, then exactly one error; it terminates and never blocks on a failed stream |
| `FloorCeiling.AnswerIsUnique` | oxia/async_client_impl.go:293-320 | on one set of records each of the four queries has one answer |
| `FloorCeiling.AnswerOnUnion` | oxia/async_client_impl.go:259-291 | when no key is on two shards, an answer over all shards is an answer of the single store that holds their union, and conversely |
| `FloorCeiling.SortFunc` | oxia/async_client_impl.go:302-304 | the responses in key order, none lost or added |
| `FloorCeiling.Select` | oxia/async_client_impl.go:293-316 | a nearest of the found records, or not-found if there is none |
| `FloorCeiling.NearestOfAll` | oxia/async_client_impl.go:293-316 | a nearest of the shards' local answers is an answer over all shards |
| `FloorCeiling.AnswerIsReturned` | oxia/proto_utils.go:46-68 | the result made of an answer has its key, value and version, or the key-not-found error |
| `FloorCeiling.FanOut.Callback` | oxia/async_client_impl.go:269-288 | collects a found record; sends and closes at the last callback and only then, and what it sends is a found record with the greatest or the least key of all found, or key-not-found if none was; given an error it sends that, closes and panics on the missing response |
| `FloorCeiling.DoFloorCeilingGet` | oxia/async_client_impl.go:259-291 | for all records on any number of shards, all four comparisons and every order of callbacks: if no shard reports an error, exactly one result is sent, at the last callback. It carries no error exactly if some stored key satisfies the comparison; then its key does, no stored key lies in between, and value and version are those stored under it, also in the union of the shards; otherwise it is key-not-found. The run panics if and only if some shard reports an error, having sent the first one |
| `WaitGroup.WaitMeans` | common/wait_group.go:47-62 | `Wait` is still waiting if and only if fewer than `parties` events came, all of them `Done`; it returned nil if and only if the first `parties` were all `Done`; otherwise it returned the first failure |
| `WaitGroup.WaitGroup.Wait` | common/wait_group.go:47-62 | the loop drains the channel in order, whatever others send meanwhile: what was in it or sent is what it took followed by what is left, it returns what the meaning of those events says, and it is still waiting only if there is nothing to take |
| `WaitGroup.WaitGroup.Done` | common/wait_group.go:64-69 | never blocks; drops the signal if and only if the channel is full |
| `WaitGroup.WaitGroup.Fail` | common/wait_group.go:71-73 | completes only when there is room, and appends the error |
| `Barrier.NextKeepsInv` | oxia/async_client_impl.go:177-215 | every step keeps: what was sent is what `Wait` has taken followed by what is in the channel, one send per report |
| `Barrier.SendKeepsInv` | common/wait_group.go:64-73 | a party that has not reported always finds room |
| `Barrier.NoReportBlocks` | oxia/async_client_impl.go:177-215 | in every run, for every order of callbacks: no callback blocks and no `Done` is dropped |
| `Barrier.OutcomeIsTrue` | oxia/async_client_impl.go:177-215 | nil is reported only if every shard answered OK; a reported error is one some shard reported, or the cancellation |
| `Barrier.StepsRunOut` | oxia/async_client_impl.go:177-215 | every step decreases a rank, so no run goes on for ever |
| `Barrier.EndsWithOutcome` | oxia/async_client_impl.go:177-215 | once all callbacks ran and the channel is drained the caller has its outcome; without cancellation it is nil if and only if every shard answered OK |
| `Sharding.GenerateShards` | common/shards.go:27-43 | ids `baseId`, `baseId+1`, … in order and so distinct, and the loop's wrapped bounds; they tile the hash space if and only if the last bucket begins inside it |
| `Sharding.TilesIffFits` | common/shards.go:27-43 | the ranges are non-empty, contiguous, disjoint and cover all hashes if and only if `(n-1)*(MaxUint32/n+1) <= MaxUint32` |
| `Sharding.TilesOwnEveryHashOnce` | common/shards.go:21-25 | when the ranges tile, every hash belongs to exactly one shard |
| `Sharding.SmallCountsTile` | common/shards.go:27-43 | every count from 1 to 65536 tiles, the wrap to bucket size 0 at one shard included |
| `Sharding.TooManyShards` | common/shards.go:27-43 | 65537 shards do not tile: the last one wraps around and covers everything |
| `Sharding.DivisorsFit` | common/shards.go:27-43 | every count that divides 2^32, so every power of two, fits, which by `TilesIffFits` means that it tiles |
| `Sharding.SomeLargeCountsFit` | common/shards.go:27-43 | 65538, 131072 and 2^31 shards fit: tiling does not end at 65537 |
| `Sharding.LastIsSmallest` | common/shards.go:33-35 | when the ranges tile, the last shard is no larger than the others |
| `Cache.NextKeepsInv` | oxia/cache.go:228-326 | every step of every interleaving keeps: each record in the server, the cache or a call is exactly what the write with its version stored under that key |
| `Cache.PutMeans` | oxia/cache.go:235-247 | a put without an expected version is always taken, with one exactly if the server has that version, or -1 was expected and there is no record; taken, it stores the value under the next version; refused, it returns at once and server and cache are untouched |
| `Cache.DeleteMeans` | oxia/cache.go:249-253 | a delete is taken exactly if there is a record, of the expected version if one is given; taken or not it goes on to invalidate |
| `Cache.UpdateMeans` | oxia/cache.go:292-318 | an update puts the changed value exactly if the server still has the version it read, and otherwise starts over with server and cache untouched |
| `Cache.GetMeans` | oxia/cache.go:255-290 | a `Get` returns the entry it hits, or what it read from the server, which it also stores |
| `Cache.InvalidateMeans` | oxia/cache.go:242-252 | an invalidation removes the entry of its key and no other, and the call returns what the server answered |
| `Cache.RemovalMeans` | oxia/cache.go:228-233 | a notification removes the entry of its key and no other |
| `OwnWrites.RecordsWereCurrent` | oxia/cache.go:255-290 | in every run, every entry, every loaded record and every record that a call works on or returns is what the server held at some time before |
| `OwnWrites.OwnWriteIsSeen` | oxia/cache.go:235-265 | a call wrote a key and has invalidated the entry, in any run and with any steps of others in between: unless a load that had read the key before the write stores it after the invalidation, every later hit yields what the server held at some time since the write, never the record that was replaced or removed |
| `OwnWrites.FreshIffNoOldStore` | oxia/cache.go:235-290 | in a run in which an entry was removed, no later entry of the key is older than a given time if and only if no load stores an older record in between |
| `OwnWrites.FreshIffNoOldLoad` | oxia/cache.go:235-290 | after an entry was removed, all entries of the key in all continuations are from a given time on if and only if no load is under way that holds an older record |
| `OwnWrites.ReplacedForGood` | oxia/cache.go:235-253 | a record that was replaced or removed is never the server's again |
| `Atomicity.ReadIsCurrent` | oxia/cache.go:292-318 | when a conditional put is accepted, the record the update had read, from the cache or not, is the current one |
| `Atomicity.StepIsAtomic` | oxia/cache.go:228-326 | every step of the system is one atomic operation on a plain store, or none |
| `Atomicity.RunIsAtomic` | oxia/cache.go:228-326 | the server's values after any run are those of the atomic operations performed one after the other |
| `Atomicity.TakenIffApplied` | oxia/cache.go:292-326 | the server takes the write of a call at most once over all its retries |
| `Atomicity.UpdateIsAtomic` | oxia/cache.go:292-326 | for every update that returned nil, in every interleaving, there is exactly one step at which its function was applied to the value current at that step and the result stored |
| `Counter.CounterIsExact` | oxia/cache.go:292-326 | if only increments are made to a key, the counter is at every moment its initial value plus the increments the server took |
| `Counter.SuccessesAddUp` | oxia/cache.go:292-326 | once all calls returned and no answer was lost, N successful increments have raised the counter by exactly N |
| `StaleUpdates.AcceptedIffCurrent` | oxia/cache.go:292-318 | the put of an update is accepted if and only if the record it read is the current one |
| `StaleUpdates.StaleEntryRefusesUpdates` | oxia/cache.go:235-265 | while the entry of a key stays and differs from the server's record, no update that hits it is ever accepted, however often it retries: the refused put keeps the entry |
| `CacheLoop.World.constructor` | oxia/cache.go:209-226 | any server with an empty cache in front of it is the start of a run |
| `CacheLoop.World.ReadModifyUpdate` | oxia/cache.go:292-326 | the retry loop, others taking any steps at every point: nil means the function was applied to the current value at exactly one step; an error, unless an answer was lost, means nothing was changed |
| `CacheLoop.World.Get` | oxia/cache.go:255-290 | a hit returns the entry; a miss returns what the server held at some time since the call looked, and leaves it in the cache, with others acting in between; it fails exactly if it missed and the read or the decoding failed, and then ends the call |
| `CacheLoop.World.Put` | oxia/cache.go:235-247 | taken exactly if the server has the version that was read; refused, the call is ready to retry and server and cache are untouched; unless it is refused the entry is gone when it returns |
| `CacheLoop.World.Write` | oxia/cache.go:235-253 | the two steps that every write shares, with others acting in between: the server decides, and unless a put or an update is refused the entry is gone at the end |
| `CacheLoop.World.PlainPut` | oxia/cache.go:235-247 | taken exactly if no version is expected or the server has it, storing the value under the next version; refused, server and cache are untouched by that; unless refused the entry is gone at the end |
| `CacheLoop.World.Delete` | oxia/cache.go:249-253 | taken exactly if there is a record, of the expected version if one is given; it removes that record only, and the entry is gone at the end in any case |
| `Coherence.RunIsCoherent` | oxia/cache.go:228-290 | in every run without overtaking, an entry or a loaded record that differs from the server's has an undelivered notification, whatever is evicted |
| `Coherence.NotLoadingIsEnough` | oxia/cache.go:228-290 | runs that deliver nothing for a key between the read and the store of a load of it have no overtaking |
| `Coherence.HitIsCurrent` | oxia/cache.go:255-265 | once a key's notifications are delivered, a hit on it is the server's record |
| `Coherence.CoherentIffNoOvertaking` | oxia/cache.go:228-290 | entries and loads of a key stay coherent throughout a run if and only if no delivery of its last notification overtakes a load that is out of date |
| `Coherence.OvertakenLoadIsStale` | oxia/cache.go:267-290 | an overtaken load can store its stale record with no notification left to remove it |
| `Coherence.StaleEntryRun` | oxia/cache.go:267-290 | such a run, step by step, for every key and values: the replaced record is cached, the server holds the new one and no notification is left |
| `Resume.MoveKeepsManager` | oxia/notifications.go:149-258 | every step of a manager keeps its offset, its stream position and what it has pushed in agreement with the shard's log |
| `Resume.ResumeIsExactlyOnce` | oxia/notifications.go:171-258 | in every interleaving, for every manager whose initial offset is not negative: what it pushed is the log after that offset, in order, each batch once and complete, the last one partial only while it is being pushed or after a cut, which only the cancellation makes |
| `Resume.ExactlyOnceIff` | oxia/notifications.go:239-242 | all runs from initial offset `c` are exactly-once if and only if `c >= 0` |
| `Resume.SkippingRun` | oxia/notifications.go:239-242 | a run from offset -1 that reconnects before its first batch and goes on behind a batch it has not pushed |
| `Resume.ExactlyOnceIffNotSkipped` | oxia/notifications.go:171-258 | in every run, for every initial offset: a manager is exactly-once if and only if, after its initial batch, it has never received a dummy batch at an offset that is not negative |
| `Resume.NotBlindIsExactlyOnce` | oxia/notifications.go:231-258 | in particular a manager stays exactly-once, whatever its initial offset, unless it connects again without an offset after something was logged |
| `ManagerLoop.ShardManager.MultiplexNotificationBatch` | oxia/notifications.go:171-194 | the first batch only sets the offset and reports; a later one is sent completely: one notification for each key of the batch and no other, with the change of that key and its version, or -1 if it has none; when cut, only part of them is |
| `ManagerLoop.ShardManager.MultiplexNotificationBatchOnce` | oxia/notifications.go:196-220 | the first batch reports and sets the offset; a later one is sent, and its offset remembered only if all of it was |
| `ManagerLoop.ShardManager.MultiplexNotifications` | oxia/notifications.go:222-229 | a stream adds exactly the batches that arrived on it, up to the offset it says |
| `ManagerLoop.ShardManager.GetNotifications` | oxia/notifications.go:231-258 | reconnects behind the last offset, or asks for a dummy batch if there is none |
| `ManagerLoop.ShardManager.GetNotificationsWithRetries` | oxia/notifications.go:149-169 | over any attempts and a cancellation at any point: at most one report, success exactly if the initial batch came; the log after a non-negative initial offset is sent batch by batch without gap or repetition, as far as the attempts reach |
| `ManagerLoop.PushedInBlocks` | oxia/notifications.go:171-194 | what is sent of a log is one block for each batch, in order, and each block has one notification for each key of its batch, with its change and version |
| `Subscription.ConvertedDelivers` | oxia/notifications.go:273-283 | whatever the iteration order, a batch gives one notification for each of its keys and no other, with the change of that key and its version, or -1 if it has none |
| `Lifecycle.MoveKeepsClosed` | oxia/notifications.go:149-182 | every step of a manager keeps: it has reported exactly if it is initialised, and success exactly if it got its initial batch |
| `Lifecycle.OneShotInitialisation` | oxia/notifications.go:82-88 | in every run no manager reports twice, no report blocks or is dropped, and creation succeeds only if every manager received its initial batch |
| `Lifecycle.SafeShutdown` | oxia/notifications.go:65-80 | the user's channel never holds more than 100 notifications; nothing is ever sent on it closed; it is closed only after every manager is done; once `Close` has returned it is closed and empty |
| `Lifecycle.PushesWhileRoom` | oxia/notifications.go:47-49 | a manager with something to send waits only while the channel holds 100 notifications |
| `Lifecycle.ClosedOnceAndLast` | oxia/notifications.go:65-80 | the channel is closed at most once and every send comes before that |
| `Lifecycle.CloseCanProceed` | oxia/notifications.go:97-111 | `Close` never gets stuck: until it returns some step of the subscription is possible that lowers the rank of the shutdown |
| `Lifecycle.CloseCanFinish` | oxia/notifications.go:97-111 | every run in which `Close` has begun has a continuation, by steps of the subscription alone and no more than its rank, after which it has returned |
| `Lifecycle.CloserCanAct` | oxia/notifications.go:65-80 | once every manager is done the closing goroutine and `Close` can go on, each step lowering the rank |
| `FailedCreation.CancelledBecause` | oxia/notifications.go:82-88 | the managers' context is cancelled only by the parent context, by `Close`, or after a manager has reported a failure |
| `FailedCreation.FailedCreationStopsOnlyIf` | oxia/notifications.go:82-88 | if creation failed, a manager stops only if some manager has reported a failure or the parent context was cancelled; a time-out alone stops none |
| `FailedCreation.CreationErrorIsGenuine` | oxia/notifications.go:82-88 | the error that creation returns is one with which some shard failed to connect or lost its stream, or with which the context of the waiting ended |
| `CatchUp.FailureCancels` | oxia/notifications.go:160-164 | in every run, a shard that failed to start has cancelled the context of all managers or is about to, and a cancelled parent context has |
| `CatchUp.EverythingCanStop` | oxia/notifications.go:65-80 | once the context is cancelled or a shard has failed to start, every run has a continuation, by steps of the subscription alone and no more than its rank, after which every manager is done and the channel is closed |
| `CatchUp.UserCanCatchUp` | oxia/notifications.go:149-258 | nothing is lost for good: while nothing is cancelled, whatever broke before, every run has a continuation, by steps of the shard's manager and reads of the user alone, after which the user has read every batch logged after a non-negative initial offset, one notification for each key |
| `FailedCreation.TimeOutRun` | oxia/notifications.go:82-86 | a run in which creation times out and its manager then connects and pushes to a channel nobody has |
| `Delivery.UserSeesLog` | oxia/notifications.go:97-111 | what has been taken from the user's channel for a shard is a prefix of what its manager pushed, all of it when the channel is empty; the user has read all that was taken until `Close` drains the channel, and a subsequence of what was pushed in any case; and what was pushed is the shard's log exactly once |
| `Delivery.UserReadsTheLog` | oxia/notifications.go:171-194 | in every run, whatever the initial offset, each notification the user reads names a key of some batch of its shard's log and tells that key's change there, and its version or -1 |
| `Delivery.CompleteBatchIsRead` | oxia/notifications.go:171-194 | once the user has read all there is, and before `Close` drains the channel, every batch after a non-negative initial offset up to the manager's last one has been read in one piece, one notification for each of its keys and no other |

## Left out

- Other messages of the codec, `CloneVT` and the replication messages: generated code of the same shape, which would only add repetitive members.
- Zero-copy parsing of messages other than `PutRequest`: same shape.
- ZeroCopy.CopyIntoViewsIff: is about the value field, the one that is set by appending; the buffer being parsed is another one, and a buffer's capacity is its length.
- Sub-messages shared by reference: a receiver holds its sub-messages as values, so one sub-message reached from two places is not modelled.
- The content of a receiver after a failed parse: the contracts say only that it failed.
- Unmarshal.Receiver.UnmarshalVT: does not say which error is returned beyond the scanning methods, because the callers only test for nil.
- RoundTrip.WriteRoundTrip: assumes that the unknown bytes of the message are a run of unknown records (`Sound`); `Reparse.ParseSound` shows that every parsed message satisfies this.
- Wire.SkipContract: the real `protohelpers.Skip` is not part of this model; the parsers are proved for every function with this contract.
- ResultHeap.ResultHeap.Up: models the sift loops of `container/heap`, whose source is not part of this model; `heap.Init` is only ever called on an empty heap and is left out.
- FloorCeiling.SortFunc: an insertion sort stands for `slices.SortFunc`, whose source is not part of this model.
- FloorCeiling.DoFloorCeilingGet: a panic ends the run; what the program does after it is not modelled.
- Single-shard gets, puts, deletes and delete-ranges, and `List`: one request and one answer.
- Cache.NextKeepsInv: is about the calls of one cache as steps on values rather than methods of an object, because the interleavings are the point; `CacheLoop` has the loop as a method. Other clients and other caches are writers that may act at any step.
- Coherence.RunIsCoherent: does not model the admission policy, the write buffers or the time to live of the cache library; entries may vanish at any step.
- Resume.ResumeIsExactlyOnce: assumes that the server keeps its notification log; batches trimmed before a reconnect would be skipped.
- ManagerLoop.ShardManager.GetNotificationsWithRetries: is given the log as it is in the end, of which each attempt receives only as much as it says; the interleaving with other managers and with the growing log is in `Subscription`.
- Panics of `convertNotificationType` on unknown types, shard re-assignment and leader changes: not modelled.
- Lifecycle.CloseCanFinish: says that a short way to the end always exists, not that every schedule takes it; a cancelled manager may reconnect any number of times before it notices.
- CatchUp.UserCanCatchUp: says that a way exists on which the user reads everything, not that every schedule takes it.
- Sharding.GenerateShards: ids are mathematical integers; `baseId + i` past the largest int64 is not modelled.
- Sessions, batching, retries and timing of requests, gRPC connections, TLS, logging, metrics, the hash function, and the server, coordinator and write-ahead log: not modelled.
