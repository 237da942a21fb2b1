# Simple key/value attention cache — Dafny model

This project models the `Simple` key/value cache of an autoregressive
model runner (`cache/cache.go`). During incremental inference, each
transformer layer needs the key and value projections of every token
processed so far. The cache keeps them in per-layer stores of fixed
capacity. On every layer call it hands back views over the whole valid
history, together with an attention mask.

The model is a class, `Cache.Simple`, with the Go struct's fields except `DType` and `cacheCtx`:

- `sequences`: the append-only occupancy list, one sequence id per slot, with `-1` marking a removed slot;
- `pos`: the write cursor;
- `curBatchSize`: the size of the current batch;
- `curLayer`: the selected layer;
- `mask`: the mask of the last successful pass;
- `keys` and `values`: the per-layer registries of lazily allocated stores (`null` means not yet allocated).

Each layer store is an `array<real>` of `width * Capacity` elements. Slot `s`
of a store is the `width` contiguous elements starting at `s * width`. Key
and value tensors are `Tensors.Tensor` values (sizes `ne0`, `ne1` per token,
`ne2` tokens, and the flat data). A view is a `Tensors.View` descriptor
(arena, offset, sizes and strides) into a store, never a copy. The mask is
a flat row-major `seq<bool>`: `true` stands for the additive bias 0
(attention allowed) and `false` for minus infinity.

Modules:

- `Results`: option and result wrappers.
- `Arith`: monotonicity of multiplication.
- `Occupancy`: the specification of removal. `Removed` visits the clamped slot range in order, as the cache's loop does, and `RemovedAt` characterises its result slot by slot.
- `Masks`: the specification of the mask (`Allowed`, `Rows`, `Flatten`, `MaskOf`) and its properties.
- `Tensors`: stores, views, the copy-in step and slot addressing.
- `Cache`: the class and the client methods `ScenarioPrefix` and `RemovalScenario`. Together they run two passes, a removal and a third pass, and every step they assert follows from the contracts.

The two fatal conditions are returned as `Failure` values of
`CacheError`; in the Go code they are panics. The first is
`ContextLengthExceeded(capacity)`. The second is
`InconsistentBatchSize(layer, batch, keyBatch)`. As in the code,
`StartForward` appends the batch and moves the cursor before it checks
capacity, so a failed call leaves those updated and keeps the old mask.

## Model

| member | source | states |
|---|---|---|
| `Cache.Simple.constructor` | cache/cache.go:38-45 | a new cache has the given capacity, empty occupancy, cursor and batch 0, empty registries and no mask |
| `Cache.Simple.StartForward` | cache/cache.go:51-64 | batch size becomes `len(seqs)` and pos becomes the old occupancy length, which is the old pos plus the old batch size; `seqs` is appended and earlier entries are unchanged; the call fails exactly when the new occupancy length reaches `Capacity`, and then the mask is unchanged; on success, mask cell (i, j) is allowed iff `j <= pos+i` and `sequences[j] == seqs[i]` |
| `Cache.Simple.BuildMask` | cache/cache.go:66-82 | the nested loop yields exactly `MaskOf(pos, sequences, seqs)`, the batch × (pos+batch) row-major mask |
| `Cache.Simple.FillRow` | cache/cache.go:74-78 | the inner loop sets cell `start+j` to whether row i may attend to slot j, and leaves every cell outside the row unchanged |
| `Cache.Simple.Sub` | cache/cache.go:84-93 | returns the same cache with `curLayer == i`; both registries have length greater than i, which is unchanged when i was already in range; existing entries are kept and the new ones are unallocated |
| `Cache.Simple.Put` | cache/cache.go:95-125 | fails exactly when the key's batch size differs from the current batch, and then changes nothing; otherwise the layer's stores are reused when both exist, or else freshly allocated and zero-filled with `width * Capacity` elements; the key block is written at element offset `pos * width` and the value block likewise; other layers' stores and registry entries are unchanged; the returned views start at offset 0 and span `pos + batch` slots, and each view ends with the block just written; the mask returned is the mask of the last successful `StartForward` |
| `Cache.Simple.AllocateLayer` | cache/cache.go:100-103 | the current layer gets fresh zero-filled key and value stores of the given lengths; no other registry entry changes |
| `Cache.Simple.Remove` | cache/cache.go:127-134 | the occupancy becomes `Removed(old occupancy, seq, begin, end)`; pos, batch size, layer, stores and mask are unchanged |
| `Occupancy.Removed` | cache/cache.go:127-134 | removal never changes the occupancy length (no compaction) |
| `Occupancy.RemovedAt` | cache/cache.go:128-132 | slot `i` becomes -1 exactly when `begin <= i < min(end, len)` and it held `seq`; otherwise it keeps its id |
| `Occupancy.RemoveMarks` | cache/cache.go:129-132 | every entry of `seq` in `[begin, min(end, len))` becomes -1 |
| `Occupancy.RemoveKeeps` | cache/cache.go:129-131 | entries outside the clamped range, or owned by another sequence, are unchanged |
| `Occupancy.RemoveClears` | cache/cache.go:129-133 | after removal, no slot of the clamped range still belongs to `seq` |
| `Occupancy.RemoveIdempotent` | cache/cache.go:127-134 | a second identical removal is a no-op |
| `Masks.MaskOf` | cache/cache.go:70-71 | the mask has `len(seqs)` rows and `pos + len(seqs)` columns, and holds `rows * cols` cells |
| `Masks.FlattenLength` | cache/cache.go:71 | the row-major layout of equal-width rows has `rows * width` cells |
| `Masks.FlattenAt` | cache/cache.go:73-76 | cell (i, j) of the matrix is at flat index `i * width + j` |
| `Masks.MaskEntry` | cache/cache.go:70-79 | mask cell (i, j) is allowed iff `j <= pos + i` and `occupancy[j] == seqs[i]` |
| `Masks.MaskCausal` | cache/cache.go:75 | no row may attend to a slot after its own slot `pos + i` |
| `Masks.MaskIsolation` | cache/cache.go:75 | no row may attend to a slot owned by another sequence |
| `Masks.MaskSelfVisible` | cache/cache.go:54-75 | once the batch is appended, every row may attend to its own slot `pos + i` |
| `Masks.RemovedSlotHidden` | cache/cache.go:127-134 | a slot removed for `seq` is forbidden, to every row whose id is not -1, in every later mask built over the removed history followed by any later appends |
| `Tensors.Zeros` | cache/cache.go:101-102 | a newly allocated store holds only zeros |
| `Tensors.Copy` | cache/cache.go:105-106 | copying a block into a store at an offset replaces exactly that range |
| `Tensors.CopyAndView` | cache/cache.go:105-120 | the block lands at element offset `pos * width`; the view starts at 0 with strides `ne0` and `width` and spans `n` slots, and when `n = pos + batch` it ends with the block |
| `Tensors.WrittenSlot` | cache/cache.go:105-106 | writing b slots at slot pos changes exactly slots `[pos, pos+b)`, slot s receiving the block's slot `s - pos`; all other slots keep their contents |
| `Tensors.ViewAfterWrite` | cache/cache.go:108-113 | a view from slot 0 over `pos + b` slots of a store that just received a b-slot block at slot pos keeps the old history and ends with the block |
| `Tensors.LaterWritePreserves` | cache/cache.go:105-106 | writes of two passes to one layer do not overlap: a later write at slot `p2 >= p1 + b1` leaves the earlier block intact |

## Left out

- The `Cache` interface: the model has a single implementation, so the interface is not a separate Dafny type; its operations are the methods of `Cache.Simple`.
- `Close`, the cache's allocation context and `backend.NewContext`: these only release or own runtime memory, and no behaviour of them can be stated.
- The tensor runtime. `Zeros` becomes a zero-filled `array<real>`. `Copy` becomes an immediate element-wise write. `View` becomes a descriptor. `ctx.Forward` (graph scheduling) is not modelled: copies take effect at once.
- `FromFloatSlice` and its error result: the mask is the boolean matrix itself, and building it cannot fail. The mask's float values `0` and `-Inf` are modelled as `true` and `false`.
- Element types and byte strides: `DType` and element sizes are not modelled. Offsets and strides are counted in elements, with `Stride(1) = ne0` and `Stride(2) = ne0 * ne1`.
- The unused `Options` parameter of `Put`.
- Context shifting and eviction: they are only future work in the code.
- Panics: they are modelled as `Failure` results and not as process aborts.
- `Capacity` is a `nat`. The Go field is a signed `int`, but a negative capacity makes every pass fail the same way as capacity 0.
- Cache.Simple.Put: requires `0 <= curLayer < |keys|`. Go indexes the registry without a check, so a `Put` without `Sub` would panic.
- Cache.Simple.Put: requires the key and value widths to match the widths the layer's stores were allocated with, and requires both copies to fit in the store (`pos + batch <= Capacity`). The code checks neither; the runtime's view bounds check would. The code does not compare widths, so the model makes it a caller obligation and adds no failure for it.
- Cache.Simple.Put: only the key's batch size is checked, and both views span `pos + key batch` slots, as in the code. The promise that the value view ends with the value block is therefore stated only when the value batch equals the key batch.
- Cache.Simple.Remove: requires `beginIndex >= 0` whenever the loop runs. Go would index a negative slot and panic; only the end index is clamped.
