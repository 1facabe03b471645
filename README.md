# exploding-head-game core, modelled in Dafny

This project models three parts of the game's code base and proves properties about them.

- **The arena** (`crates/utils/src/arena.rs`, `arena.dfy`, module `Arenas`). It is an append-only vector.
  - It hands out 1-based `Index` values, stored in a `NonZeroU16`.
  - `Arena` is a class whose `items` sequence the methods update in place.
  - `map`, `try_map` and `map_ref` build fresh arenas. They are specified by the recursive functions `MapItems` and `TryMapItems`.
  - The two iterators are classes with a cursor.
  - A `for` loop over each iterator is proved to visit every slot once, in order (`IterateAll`, `UpdateAll`).
- **The texture-atlas builder** (`AtlasBuilder` in `crates/build-tools/src/sprite_sheet.rs`, `atlas_builder.dfy`, module `AtlasBuilding`). The source keeps it in a block comment. It holds:
  - the decoded textures, keyed by a content hash;
  - an allocation per texture;
  - a rectangle allocator over a canvas that doubles whenever a request does not fit;
  - a `dirty` flag that gates a final rearrangement.

  The allocator is the foreign `guillotiere` crate. Its contract is stated in `packing.dfy` (module `Packing`).
  - `Rearranged` says what a change list reports.
  - `Allocate` says what an allocation returns: a new handle with exactly the requested extent, or `None` with nothing changed.
  - A small shelf packer stands in for guillotiere's algorithm. When `Allocate` fails is the shelf's rule, not guillotiere's (see "Left out").

  `build` copies each texture's pixels into a fresh atlas at the corner of its rectangle. This is proved pixel by pixel in `CopyInto` and `CopyTextures`.
- **Frame timing** (`Time` in `crates/game/src/game/resources.rs`, `resources.dfy`, module `Resources`).
  - `Time` is a class with the five timing fields.
  - `Update` is specified by the pure step function `Tick`, and the lemmas are about `Tick` and about runs of frames (`Run`).
  - The clock reading is a parameter in nanoseconds.
  - `ReportsFrames` proves what the fps figure means. After a refresh, it is the number of frames rendered strictly between that refresh and the next. The frame that triggers a refresh is counted in neither second.

The sprite-sheet output shape (`crates/assets/src/sprite_sheet.rs`) is mirrored as the datatypes `Assets.Sprite` and `Assets.SpriteSheet`. They have no behaviour.

## Model

| member | source | states |
|---|---|---|
| Arenas.NewIndex | crates/utils/src/arena.rs:20-24 | the index built for position `i` (for `i < 65535`) reports position `i` back |
| Arenas.Index.Position | crates/utils/src/arena.rs:26-28 | every index's position is below 65535, so it fits a `u16` after the `+ 1` |
| Arenas.PositionRoundTrip | crates/utils/src/arena.rs:20-28 | `new(index())` is the identity on indices |
| Arenas.IndexOrderIsPositionOrder | crates/utils/src/arena.rs:13-24 | the derived `Ord` on the stored `u16` agrees with the order of positions, in both directions |
| Arenas.NewIndexAsWritten | crates/utils/src/arena.rs:20-24 | the `u16` handed to `new_unchecked` as written; below 65535 it is the corrected index's value |
| Arenas.NewIndexAcceptsZero | crates/utils/src/arena.rs:21-22 | position 65535 passes the conversion and, in a release build, reaches `new_unchecked` with 0 |
| Arenas.MapItems | crates/utils/src/arena.rs:70-74 | mapping keeps the length, and element `i` of the result is `f(items[i])` |
| Arenas.TryMapItems | crates/utils/src/arena.rs:76-84 | `Ok` exactly when `f` succeeds on every item, then with the element-wise results; otherwise the `Err` of the first failing item in order |
| Arenas.Arena.constructor | crates/utils/src/arena.rs:49-53 | a default arena is empty |
| Arenas.Arena.Len | crates/utils/src/arena.rs:100-102 | `len()` is the number of items stored |
| Arenas.Arena.IsEmpty | crates/utils/src/arena.rs:116-118 | `is_empty()` holds exactly when `len() == 0` |
| Arenas.Arena.Get | crates/utils/src/arena.rs:62-64 | `Some(items[idx.index()])` exactly when the position is below the length, otherwise `None` |
| Arenas.Arena.At | crates/utils/src/arena.rs:121-127 | `arena[idx]` is the item `get` returns, and is defined on the same positions |
| Arenas.Arena.Insert | crates/utils/src/arena.rs:56-60 | the item is appended with earlier items unchanged, the result is `Index::new(old len)`, and `get` of it returns the item |
| Arenas.Arena.GetMut | crates/utils/src/arena.rs:66-68 | same domain as `get`; a write through the borrow changes exactly that slot |
| Arenas.Arena.Map | crates/utils/src/arena.rs:70-74 | a fresh arena holding `f` of every item, slot for slot |
| Arenas.Arena.TryMap | crates/utils/src/arena.rs:76-84 | a fresh arena with the element-wise results, or the first error, as `TryMapItems` |
| Arenas.Arena.MapRef | crates/utils/src/arena.rs:86-90 | like `map`, and the source arena is left as it was |
| Arenas.Arena.ShrinkToFit | crates/utils/src/arena.rs:112-114 | capacity drops to the length; items and length are unchanged |
| Arenas.Arena.Iter | crates/utils/src/arena.rs:92-94 | an iterator over this arena's items, starting at the first slot |
| Arenas.Arena.IterMut | crates/utils/src/arena.rs:96-98 | a mutable iterator over this arena, starting at the first slot |
| Arenas.Iter.constructor | crates/utils/src/arena.rs:129-138 | enumeration starts at position 0 over the borrowed items |
| Arenas.Iter.Next | crates/utils/src/arena.rs:147-151 | yields `(Index::new(i), items[i])` for the next position `i`, then `None` once all are yielded |
| Arenas.IterateAll | crates/utils/src/arena.rs:129-151 | iterating yields exactly `len` pairs `(Index::new(i), items[i])`, in increasing `i` |
| Arenas.IterMut.constructor | crates/utils/src/arena.rs:154-163 | enumeration starts at position 0 over the borrowed arena |
| Arenas.IterMut.Next | crates/utils/src/arena.rs:172-176 | hands out the next slot with its index; a write through the borrow changes exactly that slot |
| Arenas.UpdateAll | crates/utils/src/arena.rs:154-177 | writing `f` through every borrow `iter_mut` yields leaves the arena holding `f` of every original item |
| Packing.Deficit | crates/build-tools/src/sprite_sheet.rs:117-124 | the measure is zero exactly when the request fits the canvas |
| Packing.DoublingShrinksDeficit | crates/build-tools/src/sprite_sheet.rs:117-124 | doubling the canvas (`size * 2`) brings a request that does not fit strictly closer to fitting, so the grow-and-retry loop ends |
| Packing.AtlasAllocator.constructor | crates/build-tools/src/sprite_sheet.rs:78 | a new allocator has the given canvas and no allocations |
| Packing.AtlasAllocator.Allocate | crates/build-tools/src/sprite_sheet.rs:118 | `Some` exactly when the stand-in shelf has room for the request; then a fresh handle with exactly the requested extent joins the live set; `None` changes nothing |
| Packing.AtlasAllocator.ResizeAndRearrange | crates/build-tools/src/sprite_sheet.rs:132-135 | the canvas takes the new size and the change list accounts for every old allocation as moved (same extent, a new handle distinct among the moves) or failed |
| Packing.AtlasAllocator.Rearrange | crates/build-tools/src/sprite_sheet.rs:143 | a rearrangement that keeps the canvas size |
| AtlasBuilding.ContentId | crates/build-tools/src/sprite_sheet.rs:98-101 | a texture's id is the hash of its bytes under the fixed seed 1312 |
| AtlasBuilding.ChangeMap | crates/build-tools/src/sprite_sheet.rs:156-160 | the collected map has every old handle of the change list as a key, and no other key |
| AtlasBuilding.ChangeMapLast | crates/build-tools/src/sprite_sheet.rs:156-160 | a handle maps to the last change that moves it, as `collect` into a hash map keeps the last value |
| AtlasBuilding.ChangeMapAt | crates/build-tools/src/sprite_sheet.rs:156-160 | when no handle moves twice, every change is found under its old handle |
| AtlasBuilding.Remapped | crates/build-tools/src/sprite_sheet.rs:162-166 | applying a change list keeps the registry's keys |
| AtlasBuilding.RemappedRewritesMovedOnly | crates/build-tools/src/sprite_sheet.rs:156-166 | an entry is rewritten to a change's new allocation exactly when its handle is that change's old handle; every other entry is unchanged |
| AtlasBuilding.RemapKeepsRegistered | crates/build-tools/src/sprite_sheet.rs:151-168 | after a failure-free rearrangement the updated registry again names live handles with their rectangles, and every entry keeps its extent |
| AtlasBuilding.RegisterFresh | crates/build-tools/src/sprite_sheet.rs:126 | registering a fresh allocation under a new key keeps the registry in agreement with the allocator |
| AtlasBuilding.RegisteredPlaced | crates/build-tools/src/sprite_sheet.rs:178-190 | the rectangles `build` copies into lie inside the canvas and do not overlap |
| AtlasBuilding.RelocatedAsWritten | crates/build-tools/src/sprite_sheet.rs:162-166 | as written, an entry keeps its old rectangle whatever the change list says |
| AtlasBuilding.StaleRectangleAsWritten | crates/build-tools/src/sprite_sheet.rs:162-166 | one moved allocation leaves the as-written registry out of agreement with the allocator; the corrected one agrees |
| AtlasBuilding.CopyInto | crates/build-tools/src/sprite_sheet.rs:181-188 | the image's pixels lie in the atlas at the rectangle's corner; every pixel outside the block and every image already placed elsewhere is unchanged |
| AtlasBuilding.CopyTextures | crates/build-tools/src/sprite_sheet.rs:178-191 | every texture lies in the atlas at the corner of its allocation, the sheet maps each texture to that rectangle, and every pixel outside all the texture blocks keeps its old value |
| AtlasBuilding.AtlasBuilder.constructor | crates/build-tools/src/sprite_sheet.rs:76-87 | a 1024 x 1024 canvas, no textures, no allocations, not dirty |
| AtlasBuilding.AtlasBuilder.ApplyChangeList | crates/build-tools/src/sprite_sheet.rs:151-169 | fails exactly when there are failures, with those failures and the registry untouched; otherwise every entry is relocated by the change map |
| AtlasBuilding.AtlasBuilder.Grow | crates/build-tools/src/sprite_sheet.rs:131-139 | the canvas doubles; on success the registry agrees with the allocator and keeps every extent; on failure the registry is untouched |
| AtlasBuilding.AtlasBuilder.RearrangeIfDirty | crates/build-tools/src/sprite_sheet.rs:141-149 | a no-op when not dirty; when dirty, success clears the flag with the registry in agreement, and failure keeps the flag and the registry |
| AtlasBuilding.AtlasBuilder.PushImageFromSlice | crates/build-tools/src/sprite_sheet.rs:92-129 | known content returns its id and changes nothing; a decode error (an `Io` or `Image` error) changes nothing; new content adds one texture and, on success, one allocation under the same id of the explicit or decoded size, with the canvas doubled some number of times |
| AtlasBuilding.AtlasBuilder.AllocateAndRegister | crates/build-tools/src/sprite_sheet.rs:116-126 | the loop ends; on success the new entry has the requested extent and the others keep theirs; a failed growth returns its failures |
| AtlasBuilding.AtlasBuilder.Build | crates/build-tools/src/sprite_sheet.rs:171-196 | the atlas has the canvas size; every texture's pixels lie at the corner of its allocation, whose rectangles are inside the canvas and disjoint, and every other pixel is transparent; a clean builder always succeeds with its registry and allocator untouched, so the sheet maps each texture to the rectangle its push allocated; success leaves `dirty` clear; only a dirty rearrangement can fail, and then `dirty` stays set |
| Resources.Started | crates/game/src/game/resources.rs:34-46 | at start-up both instants are `now` and the duration, counter and fps are zero |
| Resources.Tick | crates/game/src/game/resources.rs:53-68 | one frame records `now` as the last render; the counter either resets or advances by one, fps either keeps its value or takes the counter, and the next refresh either stays or moves to a second after `now` |
| Resources.Elapsed | crates/game/src/game/resources.rs:55 | the duration from the last render to now, saturating at zero |
| Resources.TickRecordsFrame | crates/game/src/game/resources.rs:53-56 | every update records `now` as the last render and the time since the previous one |
| Resources.TickBranches | crates/game/src/game/resources.rs:58-67 | from the refresh instant on: fps takes the counter, the counter resets and the next refresh is a second away; before it: only the counter moves, by one |
| Resources.WindowKept | crates/game/src/game/resources.rs:34-68 | the next refresh is never more than a second after the last frame, from start-up and across updates on a forward-moving clock |
| Resources.CountsFrames | crates/game/src/game/resources.rs:64-67 | frames before the refresh instant raise the counter by their number and leave fps and the refresh instant alone |
| Resources.ReportsFrames | crates/game/src/game/resources.rs:58-67 | the fps figure after a refresh is the number of frames rendered strictly between it and the previous refresh |
| Resources.Time.constructor | crates/game/src/game/resources.rs:34-46 | fps, counter and duration are zero and both instants are `now` |
| Resources.Time.Fps | crates/game/src/game/resources.rs:49-51 | returns the stored fps figure |
| Resources.Time.Update | crates/game/src/game/resources.rs:53-68 | the new state is one `Tick` of the old at `now`, and the refresh window is kept on a forward-moving clock |

## Left out

- I/O: reading files, `Reader`'s format guess and the decoder are a `Decoder` parameter. Its `Err` stands for the `Io` and `Image` errors `?` passes on.
- MurmurHash3 x64_128 is a `Hasher` parameter applied with the seed 1312. Its internals are not part of this model.
- The `guillotiere` bin-packing algorithm is described by its contract. The shelf packer in `Packing` is only a stand-in that meets the contract, so the model does not predict where a rectangle lands.
- Packing.AtlasAllocator.Allocate fails exactly when the stand-in shelf has no room to the right of its cursor. That failure condition is the stand-in's, not guillotiere's. For example, after 32 pushes of 32 x 32 images into the default 1024 x 1024 canvas the shelf is full, so a 33rd push grows the canvas. guillotiere would place it below the first row without growing. So the model fixes when the canvas grows, and guillotiere's own growth points are not modelled. The builder's proofs use only that allocation succeeds when the shelf has room.
- The unused `Padding` parameter and the multi-atlas overflow are left out. Both are unimplemented in the source.
- `log::debug!` calls are left out.
- `Instant::now()` is a parameter, a tick count in nanoseconds.
- `TextureSizeMismatch` is declared but never produced, and it is never produced here either.
- Coordinates and sizes are natural numbers. The source's `i32`/`u32` casts, and negative sizes passed as `[i32; 2]`, are not modelled.
- AtlasBuilding.AtlasBuilder.PushImageFromSlice requires a non-empty requested size. guillotiere refuses empty requests, so the source's loop would keep doubling the canvas. The `i32` product `size() * 2` overflows on the 21st doubling from 1024 (2^31), a panic in a debug build. The model's sizes are unbounded and do not capture that overflow.
- AtlasBuilding.AtlasBuilder.PushImageFromSlice requires the decoder to produce images whose rows match their dimensions, and to fail only with `Io` or `Image`, the two errors reading and decoding can raise.
- AtlasBuilding.AtlasBuilder.PushImageFromSlice does not restore the builder invariant after a failed growth. As in the source, the texture stays stored without an allocation, the allocator may already be rearranged, and the builder is not usable afterwards.
- AtlasBuilding.AtlasBuilder.Build states the copy for every texture that fits its allocation (`ImagesFit`). `copy_from` with an image larger than its sub-image returns an error that `unwrap` turns into a panic, and that panic is not modelled.
- AtlasBuilding.AtlasBuilder.Build returns the atlas pixels and the map from texture to rectangle. The source builds both and then returns `self.textures` as the sprite sheet, a slip that does not type-check. `shrink_to_fit` on the consumed textures has no observable effect.
- The source's other slips are read as their evident intent:
  - `buf` for `data`;
  - `self.materials` for `self.allocations`;
  - `teture_id` and `hash` for `texture_id`;
  - keying `textures` by the raw hash instead of `TextureId(hash)`;
  - the return type `Result<MaterialId, Error>` for `Result<TextureId, Error>`;
  - `murmur3_x64_128(data, …)`, which takes a `&mut` reader and returns `io::Result<u128>`. It is read as an infallible hash of the bytes (the `Hasher` parameter), because reading from an in-memory slice cannot fail.
- Nothing ever sets `dirty`, so the rearrangement in `build` is modelled but never runs in practice.
- Arenas.Arena.Insert requires fewer than 65535 items. At 65535 the source's `Index::new` overflows (see Findings), and above it the conversion panics.
- Arenas.Arena.Map, TryMap and MapRef apply a pure function `f`. State kept by an `FnMut` between calls is not modelled.
- Arenas.Arena.Len, `as_slice`, `into_inner` and the `Debug` impls return the items or format them. `Len` is used throughout and the others are left out.
- The backing vector's capacity is modelled only so that `shrink_to_fit` has an effect. Reallocation policy is not modelled.
- Resources.Time.Update does not model `u32` wrap-around of `fps_counter`. It would need 2^32 frames within one second.
- The `instant` addition `now + 1s` is treated as never overflowing.

## Findings

| source | as written | input that shows it | evidently intended | confidence | as-written member | corrected member |
|---|---|---|---|---|---|---|
| crates/utils/src/arena.rs:20-24 | `u16::try_from` accepts 65535, then `index + 1` overflows: a panic in a debug build, a wrap to 0 passed to `NonZeroU16::new_unchecked` (undefined behaviour) in a release build | `Index::new(65535)`, e.g. the 65536th `insert` | refuse every position from 65535 up, as for larger ones | not executed | Arenas.NewIndexAcceptsZero | Arenas.PositionRoundTrip |
| crates/build-tools/src/sprite_sheet.rs:162-166 | only `allocation.id` is rewritten; the entry keeps its old rectangle although the change reports the new one | a 32 x 32 allocation at (0, 0) moved to (32, 0) by a rearrangement | replace the whole allocation with the change's new allocation | not executed | AtlasBuilding.StaleRectangleAsWritten | AtlasBuilding.RemapKeepsRegistered |
