# B-tree slice: version tokens and operation dispatch

This project models the slice façade of an on-disk B-tree key-value
store (`btree_slice_t`). A slice owns one CAS counter. From that counter
and a clock reading it builds 64-bit version tokens: the time goes in
the high 32 bits and the incremented counter in the low bits. It
normalises the tokens and timestamps that callers pass in, initialises
the superblock of a new store, and turns each store operation (get,
get_cas, rget, set, add, replace, cas, incr, decr, append, prepend,
delete_key) into one call on a delegated B-tree algorithm.

Modules:

- `Bits` (`bits.dfy`): uint32/uint64 as subset types of `int`, and the
  shift, mask and bitwise-or operations on naturals. `BitOr` is defined
  bit by bit, so the fact that `(t << 32) | c` equals `t * 2^32 + c` when
  `c` fits in 32 bits is proved, not assumed.
- `Tokens` (`tokens.dfy`): replication timestamps, castimes, the token
  layout (`ComposeCas`, `FreshCastime`), and the two `generate_if_necessary`
  overloads as pure functions (`NormalizeCastime`, `NormalizeTimestamp`).
- `Dispatcher` (`dispatch.dfy`): the operations a caller issues
  (`Operation`), the delegate calls they become (`Request`),
  the pure dispatch specification `Dispatch`, and its inverse `Undispatch`.
  `Run` runs a sequence of operations through one slice; the lemmas show
  that no two generated tokens are equal.
- `Slice` (`slice.dfy`): the class `BtreeSlice`. Its mutable field is the
  counter, which `GenCastime` updates in place. Its dispatch methods are
  proved against `Dispatch`. The static `Create` writes the superblock
  page (class `SuperblockPage`) in place.

External things become parameters:

- `current_time()` is the argument `now`.
- The dummy-castime test (`is_dummy`) and the invalid timestamp
  (`repli_timestamp::invalid`) are defined in headers that are not part
  of this model. They are a `Sentinels` value, and every result holds for
  any choice of them.
- The values of `expected_magic` and `NULL_BLOCK_ID` are also in headers
  that are not part of this model. They are the distinguished datatype
  constructors `ExpectedMagic` and `NullBlockId`.
- The width of `repli_timestamp`'s `time` field is also declared in a
  header that is not part of this model. It is taken as 32-bit, which is
  what `uint64_t(time) << 32` needs to keep every bit of the time.

## Model

| member | source | states |
|---|---|---|
| `Bits.BitOr` | src/btree/slice.cc:104 | the bitwise or that builds the token, defined bit by bit: the result is at least each operand and at most their sum |
| `Bits.ToUint64` | src/btree/slice.cc:104 | the widening of the counter to `uint64_t` keeps every value that fits in 64 bits |
| `Bits.ShiftLeft32` | src/btree/slice.cc:104 | `uint64_t(time) << 32` of a 32-bit time is `time * 2^32`, losing no bits |
| `Bits.BitOrDisjoint` | src/btree/slice.cc:104 | or-ing a value below 2^k onto one shifted left by k is the same as adding it |
| `Bits.BitOrBelow` | src/btree/slice.cc:104 | the or of two values below 2^k is below 2^k, so the token fits in a uint64 |
| `Bits.Or64` | src/btree/slice.cc:104 | the uint64 bitwise or is at least as large as each operand |
| `Tokens.ComposeCas` | src/btree/slice.cc:104 | the or of `uint64_t(time) << 32` with the counter equals `time * 2^32 + counter` whenever the counter fits in 32 bits |
| `Tokens.FreshCastime` | src/btree/slice.cc:102-105 | a generated castime carries the clock reading as its timestamp; its token's `>> 32` is that time and its `& 0xFFFFFFFF` is the counter, while the counter fits in 32 bits |
| `Tokens.NormalizeCastime` | src/btree/slice.cc:108-110 | a non-dummy castime passes through unchanged with the counter unchanged; a dummy becomes a fresh castime at the clock reading, and the counter goes up by exactly one and forms the token's low half |
| `Tokens.NormalizeTimestamp` | src/btree/slice.cc:112-114 | a timestamp whose time is not the invalid one passes through; one whose time is invalid becomes the clock reading |
| `Tokens.NormalizeTimestampIdempotent` | src/btree/slice.cc:112-114 | normalising a normalised timestamp again changes nothing |
| `Tokens.NormalizedTimestampIsValid` | src/btree/slice.cc:112-114 | if the clock reading is valid, the normalised timestamp is never the invalid one |
| `Tokens.FreshCasNonZero` | src/btree/slice.cc:104 | a generated token with a counter between 1 and 2^32 - 1 is never 0 |
| `Tokens.FreshCasIncreasing` | src/btree/slice.cc:104 | under one timestamp, a larger counter gives a strictly larger token |
| `Tokens.FreshCasDistinct` | src/btree/slice.cc:104 | tokens built with different 32-bit counters differ whatever their timestamps |
| `Dispatcher.Dispatch` | src/btree/slice.cc:54-100 | each operation becomes one delegate call. The counter goes up by one exactly when a dummy castime must be replaced. Every castime-carrying operation forwards its normalised castime, and delete forwards its normalised timestamp. `unique` is the caller's value for cas and 0 for every other set. The operation can be read back from the request (see `Undispatch`) up to the token |
| `Dispatcher.SetTypeTags` | src/btree/slice.cc:66-80 | set, add, replace and cas, and only they, reach the set delegate, with tags `set_type_set`, `set_type_add`, `set_type_replace` and `set_type_cas`; `unique` is 0 for the first three and the caller's value for cas |
| `Dispatcher.DirectionFlags` | src/btree/slice.cc:82-96 | incr passes `true` and decr `false` to the incr/decr delegate; append passes `true` and prepend `false` to the append/prepend delegate |
| `Dispatcher.ReadsLeaveCounter` | src/btree/slice.cc:54-64 | get and rget leave the counter unchanged and do not depend on the clock |
| `Dispatcher.SuppliedTokensPassThrough` | src/btree/slice.cc:58-114 | with a non-dummy castime, or a valid delete timestamp, the delegate receives exactly the issued operation and the counter does not move, so replayed operations keep their tokens |
| `Dispatcher.Run` | src/btree/slice.cc:54-110 | running n operations yields n requests, the i-th being the delegate call for the i-th operation up to its token, and advances the counter by exactly the number of operations that carried a dummy castime |
| `Dispatcher.RunDispatchesAt` | src/btree/slice.cc:54-110 | within a run, the i-th request, for every i, is exactly the delegate call `Dispatch` builds for the i-th operation at the i-th clock reading, from the starting counter plus the number of dummy-carrying operations before it |
| `Dispatcher.RunReplaysSupplied` | src/btree/slice.cc:58-114 | within a run, an operation with a non-dummy castime, or a delete with a valid timestamp, reaches the delegate exactly as issued, wherever it stands in the sequence |
| `Dispatcher.RunStampExact` | src/btree/slice.cc:102-110 | within a run, the token generated for the i-th operation has as its low half the starting counter plus the number of dummy-carrying operations up to and including the i-th, and as its high half that operation's clock reading |
| `Dispatcher.RunStampBounds` | src/btree/slice.cc:102-110 | over a run, each generated token's low half is above the starting counter and at most the final one, and its high half is the time read for that operation |
| `Dispatcher.GeneratedTokensIncrease` | src/btree/slice.cc:102-110 | over a run whose final counter stays below 2^32, later generated tokens have strictly larger counters, all generated tokens are pairwise distinct, and two made at the same clock reading are strictly ordered |
| `Slice.BtreeSlice.constructor` | src/btree/slice.cc:32-38 | a new slice's counter is 0 |
| `Slice.BtreeSlice.Create` | src/btree/slice.cc:15-30 | after initialisation the superblock has `magic == expected_magic` and `root_block == NULL_BLOCK_ID` |
| `Slice.BtreeSlice.GenCastime` | src/btree/slice.cc:102-106 | the counter goes up by exactly one, nothing else changes, and the result is the fresh castime for the clock reading and the new counter |
| `Slice.BtreeSlice.GenerateIfNecessary` | src/btree/slice.cc:108-110 | result and new counter are those of `NormalizeCastime` on the old counter |
| `Slice.BtreeSlice.Get` | src/btree/slice.cc:54-56 | returns the request `Dispatch` gives for get, whatever the clock reads; modifies nothing |
| `Slice.BtreeSlice.GetCas` | src/btree/slice.cc:58-60 | request and new counter are `Dispatch`'s for get_cas |
| `Slice.BtreeSlice.Rget` | src/btree/slice.cc:62-64 | returns the request `Dispatch` gives for rget, whatever the clock reads; modifies nothing |
| `Slice.BtreeSlice.Set` | src/btree/slice.cc:66-68 | request and new counter are `Dispatch`'s for set |
| `Slice.BtreeSlice.Add` | src/btree/slice.cc:70-72 | request and new counter are `Dispatch`'s for add |
| `Slice.BtreeSlice.Replace` | src/btree/slice.cc:74-76 | request and new counter are `Dispatch`'s for replace |
| `Slice.BtreeSlice.Cas` | src/btree/slice.cc:78-80 | request and new counter are `Dispatch`'s for cas |
| `Slice.BtreeSlice.Incr` | src/btree/slice.cc:82-84 | request and new counter are `Dispatch`'s for incr |
| `Slice.BtreeSlice.Decr` | src/btree/slice.cc:86-88 | request and new counter are `Dispatch`'s for decr |
| `Slice.BtreeSlice.Append` | src/btree/slice.cc:90-92 | request and new counter are `Dispatch`'s for append |
| `Slice.BtreeSlice.Prepend` | src/btree/slice.cc:94-96 | request and new counter are `Dispatch`'s for prepend |
| `Slice.BtreeSlice.DeleteKey` | src/btree/slice.cc:98-100 | returns `Dispatch`'s request for delete_key: the key with its normalised timestamp; modifies nothing, so the counter is untouched |
| `Slice.FirstToken` | src/btree/slice.cc:37 | the first token of a new slice (counter 0, pre-incremented to 1) has low half 1 and high half the clock reading |
| `Slice.TwoGenerations` | src/btree/slice.cc:102-106 | two successive generations under one clock reading advance the counter by two, give low halves old+1 and old+2, and give strictly increasing tokens |

## Left out

- Cache start-up and shutdown in the constructor and destructor. This is
  an asynchronous ready/shutdown rendezvous, which is concurrency with
  nothing to state sequentially.
- The temporary slice that `create` builds and then destroys. Only its
  effect on the superblock page is modelled.
- The transaction, the write lock on the superblock and
  `get_data_major_write`. These are calls into the cache; `Create` keeps
  only the two field writes they enable.
- The delegated B-tree algorithms (`btree_get`, `btree_get_cas`,
  `btree_rget_slice`, `btree_set`, `btree_incr_decr`,
  `btree_append_prepend`, `btree_delete`). Each operation is modelled up
  to the call it makes (`Request`). The results those calls return, which
  the slice passes back unchanged, are not part of this model.
- `current_time()`. It reads the wall clock and is a parameter instead.
  Clock rollback is not handled by the slice, so no ordering is claimed
  between tokens made at different clock readings.
- The replication masterstore pointer and the scoped-pointer allocation.
  They are ownership plumbing with no behaviour here.
- The data provider. It is modelled as the value bytes it would stream.
- The definitions of `is_dummy`, `repli_timestamp::invalid`,
  `expected_magic` and `NULL_BLOCK_ID`. Their headers are not part of
  this model, so they stay abstract.
- Atomicity of the counter under concurrent callers. The model is
  sequential.
- Tokens.FreshCastime: the layout holds only while the counter is below
  2^32. The counter's declared width is not part of this model, so no
  wrap-around behaviour is stated.
- Tokens.NormalizedTimestampIsValid: it needs the clock reading to be
  valid. The code does not guard against a clock that reads the invalid
  time.
- Dispatcher.GeneratedTokensIncrease: it holds only while the counter,
  after every generation in the run, stays below 2^32, and it claims
  ordering only for equal clock readings.
- Slice.TwoGenerations: it needs the counter to stay below 2^32.
- Tokens.NormalizeCastime: it does not claim that a generated castime is
  not itself a dummy, because `is_dummy` is abstract here.
  Tokens.FreshCasNonZero shows instead that a generated token is never 0.
