/**
 * The texture-atlas builder of the `build-tools` crate (`AtlasBuilder`):
 * images pushed one at a time are deduplicated by a content hash, packed into
 * one growing canvas by the rectangle allocator, and finally copied into a
 * single atlas image together with the map from texture to rectangle.
 */
module AtlasBuilding {
  import opened Wrappers
  import opened Packing

  /** Rust's `u8`. */
  newtype u8 = x: int | 0 <= x < 0x100

  /** Rust's `u32`. */
  newtype u32 = x: int | 0 <= x < 0x1_0000_0000

  /** Rust's `u128`, the width of a murmur3 x64 128-bit hash. */
  newtype u128 = x: int | 0 <= x < 0x1_0000_0000_0000_0000_0000_0000_0000_0000

  /** One RGBA pixel. */
  datatype Rgba = Rgba(r: u8, g: u8, b: u8, a: u8)

  /** The pixel a fresh `RgbaImage` is filled with. */
  const TRANSPARENT: Rgba := Rgba(0, 0, 0, 0)

  /** A decoded image (`image::RgbaImage`), row by row. */
  datatype RgbaImage = RgbaImage(width: nat, height: nat, rows: seq<seq<Rgba>>)
  {
    /** The pixel rows match the stated dimensions. */
    ghost predicate WellFormed()
    {
      |rows| == height && forall i :: 0 <= i < |rows| ==> |rows[i]| == width
    }

    function Extent(): Size
    {
      Size(width, height)
    }
  }

  /** The key of a texture: the content hash of its encoded bytes. */
  datatype TextureId = TextureId(hash: u128)

  /** The seed every content hash is computed with; part of the id format. */
  const HASH_SEED: u32 := 1312

  /** `murmur3_x64_128`: hash of a byte string under a seed. */
  type Hasher = (seq<u8>, u32) -> u128

  /**
   * Guessing the format, decoding and converting to RGBA. Format guessing
   * fails with `Io`, decoding with `Image`.
   */
  type Decoder = seq<u8> -> Result<RgbaImage, Error>

  /** The builder's error kinds. */
  datatype Error =
    | Io
    | Image
    | AllocationsFailed(failures: seq<Allocation>)
    | TextureSizeMismatch

  /** The id a push of these bytes files its texture under. */
  function ContentId(data: seq<u8>, hash: Hasher): (id: TextureId)
    ensures id.hash == hash(data, HASH_SEED)
  {
    TextureId(hash(data, HASH_SEED))
  }

  /** `size * 2` applied `k` times. */
  function DoubledTimes(s: Size, k: nat): Size
  {
    if k == 0 then s else DoubledTimes(s, k - 1).Doubled()
  }

  /**
   * The change list collected into a hash map from old handle to new
   * allocation, as `collect` does: every old handle is a key, and each key
   * maps to the last change that moves it.
   */
  function ChangeMap(changes: seq<Change>): (moves: map<AllocId, Allocation>)
    ensures forall i :: 0 <= i < |changes| ==> changes[i].previous.id in moves
    ensures forall id :: id in moves ==> exists i :: 0 <= i < |changes| && changes[i].previous.id == id
  {
    if changes == [] then map[]
    else
      var n := |changes| - 1;
      assert forall i :: 0 <= i < n ==> changes[..n][i] == changes[i];
      ChangeMap(changes[..n])[changes[n].previous.id := changes[n].current]
  }

  /** Each old handle maps to the last change that moves it. */
  lemma {:induction false} ChangeMapLast(changes: seq<Change>, i: nat)
    requires i < |changes| && LastMove(changes, i)
    ensures ChangeMap(changes)[changes[i].previous.id] == changes[i].current
    decreases |changes|
  {
    var n := |changes| - 1;
    if i < n {
      assert changes[..n][i] == changes[i];
      assert LastMove(changes[..n], i) by {
        forall j | i < j < n ensures changes[..n][j].previous.id != changes[..n][i].previous.id {
          assert changes[..n][j] == changes[j];
        }
      }
      ChangeMapLast(changes[..n], i);
    }
  }

  /** No later change moves the handle that change `i` moves. */
  predicate LastMove(changes: seq<Change>, i: nat)
    requires i < |changes|
  {
    forall j :: i < j < |changes| ==> changes[j].previous.id != changes[i].previous.id
  }

  /** When no handle moves twice, each change is found under its old handle. */
  lemma ChangeMapAt(changes: seq<Change>, i: nat)
    requires i < |changes|
    requires forall a, b :: 0 <= a < b < |changes| ==> changes[a].previous.id != changes[b].previous.id
    ensures changes[i].previous.id in ChangeMap(changes)
    ensures ChangeMap(changes)[changes[i].previous.id] == changes[i].current
  {
    ChangeMapLast(changes, i);
  }

  /** One registry entry after a change list: the new allocation if its handle moved. */
  function Relocated(a: Allocation, moves: map<AllocId, Allocation>): Allocation
  {
    if a.id in moves then moves[a.id] else a
  }

  /** The registry after a change list, entry by entry. */
  function Remapped<K>(reg: map<K, Allocation>, moves: map<AllocId, Allocation>): (r: map<K, Allocation>)
    ensures r.Keys == reg.Keys
  {
    map k | k in reg :: Relocated(reg[k], moves)
  }

  /**
   * Applying a change list rewrites an entry exactly when its handle is the
   * old handle of some change, to that change's new allocation; every other
   * entry, and the set of keys, stays as it was.
   */
  lemma RemappedRewritesMovedOnly<K>(reg: map<K, Allocation>, changes: seq<Change>)
    requires forall a, b :: 0 <= a < b < |changes| ==> changes[a].previous.id != changes[b].previous.id
    ensures Remapped(reg, ChangeMap(changes)).Keys == reg.Keys
    ensures forall k, i :: k in reg && 0 <= i < |changes| && reg[k].id == changes[i].previous.id ==>
      Remapped(reg, ChangeMap(changes))[k] == changes[i].current
    ensures forall k :: k in reg && (forall i :: 0 <= i < |changes| ==> changes[i].previous.id != reg[k].id) ==>
      Remapped(reg, ChangeMap(changes))[k] == reg[k]
  {
    forall k, i | k in reg && 0 <= i < |changes| && reg[k].id == changes[i].previous.id
      ensures Remapped(reg, ChangeMap(changes))[k] == changes[i].current
    {
      ChangeMapAt(changes, i);
    }
  }

  /**
   * The registry agrees with the allocator: each entry's handle is live and
   * names the entry's rectangle, and no two entries share a handle.
   */
  ghost predicate Registered<K>(reg: map<K, Allocation>, live: map<AllocId, Rect>)
  {
    && (forall k :: k in reg ==> reg[k].id in live && live[reg[k].id] == reg[k].rect)
    && (forall k1, k2 :: k1 in reg && k2 in reg && k1 != k2 ==> reg[k1].id != reg[k2].id)
  }

  /**
   * Applying the change list of a rearrangement without failures keeps the
   * registry in agreement with the allocator, and keeps every entry's extent.
   */
  lemma RemapKeepsRegistered<K>(reg: map<K, Allocation>, before: map<AllocId, Rect>,
                                after: map<AllocId, Rect>, cl: ChangeList)
    requires Registered(reg, before)
    requires Rearranged(before, after, cl) && cl.failures == []
    ensures Registered(Remapped(reg, ChangeMap(cl.changes)), after)
    ensures forall k :: k in reg ==> Remapped(reg, ChangeMap(cl.changes))[k].rect.Extent() == reg[k].rect.Extent()
  {
    RemapKeepsEntries(reg, before, after, cl);
    RemapKeepsDistinct(reg, before, after, cl);
  }

  /** Each remapped entry names a live rectangle of the same extent as before. */
  lemma RemapKeepsEntries<K>(reg: map<K, Allocation>, before: map<AllocId, Rect>,
                             after: map<AllocId, Rect>, cl: ChangeList)
    requires Registered(reg, before)
    requires Rearranged(before, after, cl) && cl.failures == []
    ensures forall k :: k in reg ==>
      && Remapped(reg, ChangeMap(cl.changes))[k].id in after
      && after[Remapped(reg, ChangeMap(cl.changes))[k].id] == Remapped(reg, ChangeMap(cl.changes))[k].rect
      && Remapped(reg, ChangeMap(cl.changes))[k].rect.Extent() == reg[k].rect.Extent()
  {
    forall k | k in reg
      ensures && Remapped(reg, ChangeMap(cl.changes))[k].id in after
              && after[Remapped(reg, ChangeMap(cl.changes))[k].id] == Remapped(reg, ChangeMap(cl.changes))[k].rect
              && Remapped(reg, ChangeMap(cl.changes))[k].rect.Extent() == reg[k].rect.Extent()
    {
      var i := MoveOf(reg, before, cl.changes, k);
    }
  }

  /** Remapped entries under different keys still have different handles. */
  lemma RemapKeepsDistinct<K>(reg: map<K, Allocation>, before: map<AllocId, Rect>,
                              after: map<AllocId, Rect>, cl: ChangeList)
    requires Registered(reg, before)
    requires Rearranged(before, after, cl) && cl.failures == []
    ensures forall k1, k2 :: k1 in reg && k2 in reg && k1 != k2 ==>
      Remapped(reg, ChangeMap(cl.changes))[k1].id != Remapped(reg, ChangeMap(cl.changes))[k2].id
  {
    forall k1, k2 | k1 in reg && k2 in reg && k1 != k2
      ensures Remapped(reg, ChangeMap(cl.changes))[k1].id != Remapped(reg, ChangeMap(cl.changes))[k2].id
    {
      var i1 := MoveOf(reg, before, cl.changes, k1);
      var i2 := MoveOf(reg, before, cl.changes, k2);
      assert i1 != i2;
    }
  }

  /** The change that moves a registry entry, when every entry is moved exactly once. */
  lemma MoveOf<K>(reg: map<K, Allocation>, before: map<AllocId, Rect>, cs: seq<Change>, k: K)
    returns (i: nat)
    requires k in reg && reg[k].id in before && before[reg[k].id] == reg[k].rect
    requires Accounted(reg[k].id, cs, [])
    requires forall j :: 0 <= j < |cs| ==> cs[j].previous.id in before && before[cs[j].previous.id] == cs[j].previous.rect
    requires forall a, b :: 0 <= a < b < |cs| ==> cs[a].previous.id != cs[b].previous.id
    ensures i < |cs| && cs[i].previous == reg[k]
    ensures Remapped(reg, ChangeMap(cs))[k] == cs[i].current
  {
    i :| 0 <= i < |cs| && cs[i].previous.id == reg[k].id;
    ChangeMapAt(cs, i);
  }

  /** A fresh handle can be registered under a new key. */
  lemma RegisterFresh<K>(reg: map<K, Allocation>, live: map<AllocId, Rect>, k: K, a: Allocation)
    requires Registered(reg, live) && k !in reg && a.id !in live
    ensures Registered(reg[k := a], live[a.id := a.rect])
  {
  }

  /** Registered rectangles are disjoint and inside the canvas when the allocator's are. */
  lemma RegisteredPlaced<K>(reg: map<K, Allocation>, live: map<AllocId, Rect>, canvas: Size)
    requires Registered(reg, live)
    requires forall id :: id in live ==> Inside(live[id], canvas)
    requires forall a, b :: a in live && b in live && a != b ==> Disjoint(live[a], live[b])
    ensures Placed(reg, canvas)
  {
  }

  /** The registry's rectangles lie inside the canvas and do not overlap. */
  ghost predicate Placed<K>(reg: map<K, Allocation>, canvas: Size)
  {
    && (forall k :: k in reg ==> Inside(reg[k].rect, canvas))
    && (forall k1, k2 :: k1 in reg && k2 in reg && k1 != k2 ==> Disjoint(reg[k1].rect, reg[k2].rect))
  }

  /**
   * `apply_change_list` as written: only the handle of an entry is rewritten
   * (`allocation.id = *new_id`), and the entry keeps its old rectangle.
   */
  function RelocatedAsWritten(a: Allocation, moves: map<AllocId, Allocation>): (r: Allocation)
    ensures r.rect == a.rect
  {
    if a.id in moves then a.(id := moves[a.id].id) else a
  }

  /**
   * A rearrangement that moves the one allocation to a new place: the
   * registry updated as written names the new handle with the old rectangle,
   * which no longer agrees with the allocator; the corrected update does.
   */
  lemma StaleRectangleAsWritten()
    ensures var r0, r1 := Rect(0, 0, 32, 32), Rect(32, 0, 32, 32);
            var cl := ChangeList([Change(Allocation(0, r0), Allocation(1, r1))], []);
            var reg := map[0 := Allocation(0, r0)];
            && Registered(reg, map[0 := r0])
            && Rearranged(map[0 := r0], map[1 := r1], cl)
            && !Registered(map k | k in reg :: RelocatedAsWritten(reg[k], ChangeMap(cl.changes)), map[1 := r1])
            && Registered(Remapped(reg, ChangeMap(cl.changes)), map[1 := r1])
  {
    var r0, r1 := Rect(0, 0, 32, 32), Rect(32, 0, 32, 32);
    var cl := ChangeList([Change(Allocation(0, r0), Allocation(1, r1))], []);
    assert Accounted(0, cl.changes, cl.failures) by {
      assert cl.changes[0].previous.id == 0;
    }
    assert cl.changes[0].current.id == 1;
    var moves := ChangeMap(cl.changes);
    ChangeMapAt(cl.changes, 0);
    assert moves[0] == Allocation(1, r1);
  }

  /** The image lies in the atlas with its top-left pixel at (`x`, `y`). */
  ghost predicate HoldsAt(atlas: array2<Rgba>, image: RgbaImage, x: nat, y: nat)
    reads atlas
  {
    && image.WellFormed()
    && y + image.height <= atlas.Length0
    && x + image.width <= atlas.Length1
    && forall i, j :: 0 <= i < image.height && 0 <= j < image.width ==>
         atlas[y + i, x + j] == image.rows[i][j]
  }

  /** Pixel (`j`, `i`) lies in the `width` x `height` block at (`x`, `y`). */
  predicate InBlock(i: int, j: int, x: nat, y: nat, width: nat, height: nat)
  {
    y <= i < y + height && x <= j < x + width
  }

  /** Pixel (`j`, `i`) lies in none of the blocks the sheet's textures cover. */
  predicate Uncovered(i: int, j: int, textures: map<TextureId, RgbaImage>, sheet: map<TextureId, Rect>)
  {
    forall t :: t in textures && t in sheet ==>
      !InBlock(i, j, sheet[t].x, sheet[t].y, textures[t].width, textures[t].height)
  }

  /** Every texture of the sheet lies in the atlas at the corner of its rectangle. */
  ghost predicate SheetHeld(atlas: array2<Rgba>, textures: map<TextureId, RgbaImage>, sheet: map<TextureId, Rect>)
    reads atlas
  {
    forall t :: t in sheet ==> t in textures && HoldsAt(atlas, textures[t], sheet[t].x, sheet[t].y)
  }

  /** Adding a texture that lies at the corner of its rectangle keeps the sheet held. */
  lemma SheetHeldExtends(atlas: array2<Rgba>, textures: map<TextureId, RgbaImage>, sheet: map<TextureId, Rect>,
                         t: TextureId, rect: Rect)
    requires SheetHeld(atlas, textures, sheet)
    requires t in textures && HoldsAt(atlas, textures[t], rect.x, rect.y)
    ensures SheetHeld(atlas, textures, sheet[t := rect])
  {
  }

  /**
   * `atlas.sub_image(x, y, ..).copy_from(image, 0, 0)`: the image's pixels
   * are copied row by row to (`x`, `y`); nothing else in the atlas changes,
   * so the images already `placed` in rectangles disjoint from the block
   * stay where they are.
   */
  method CopyInto(atlas: array2<Rgba>, image: RgbaImage, x: nat, y: nat,
                  ghost target: Rect, ghost others: map<TextureId, RgbaImage>, ghost placed: map<TextureId, Rect>)
    requires image.WellFormed()
    requires y + image.height <= atlas.Length0 && x + image.width <= atlas.Length1
    requires target.x == x && target.y == y && image.width <= target.width && image.height <= target.height
    requires forall t :: t in placed ==>
      && t in others
      && others[t].width <= placed[t].width && others[t].height <= placed[t].height
      && Disjoint(placed[t], target)
    requires SheetHeld(atlas, others, placed)
    modifies atlas
    ensures HoldsAt(atlas, image, x, y)
    ensures forall i, j :: 0 <= i < atlas.Length0 && 0 <= j < atlas.Length1 ==>
      InBlock(i, j, x, y, image.width, image.height) || atlas[i, j] == old(atlas[i, j])
    ensures SheetHeld(atlas, others, placed)
  {
    var row := 0;
    while row < image.height
      invariant row <= image.height
      invariant forall i, j :: 0 <= i < row && 0 <= j < image.width ==> atlas[y + i, x + j] == image.rows[i][j]
      invariant forall i, j :: 0 <= i < atlas.Length0 && 0 <= j < atlas.Length1 ==>
        InBlock(i, j, x, y, image.width, row) || atlas[i, j] == old(atlas[i, j])
    {
      var col := 0;
      while col < image.width
        invariant col <= image.width
        invariant forall i, j :: 0 <= i < row && 0 <= j < image.width ==> atlas[y + i, x + j] == image.rows[i][j]
        invariant forall j :: 0 <= j < col ==> atlas[y + row, x + j] == image.rows[row][j]
        invariant forall i, j :: 0 <= i < atlas.Length0 && 0 <= j < atlas.Length1 ==>
          InBlock(i, j, x, y, image.width, row) || InBlock(i, j, x, y + row, col, 1) ||
          atlas[i, j] == old(atlas[i, j])
      {
        atlas[y + row, x + col] := image.rows[row][col];
        col := col + 1;
      }
      row := row + 1;
    }
    forall t, i, j | t in placed && 0 <= i < others[t].height && 0 <= j < others[t].width
      ensures atlas[placed[t].y + i, placed[t].x + j] == others[t].rows[i][j]
    {
      assert !InBlock(placed[t].y + i, placed[t].x + j, x, y, image.width, image.height);
    }
  }

  /**
   * The copy loop of `build`: each texture is copied to the corner of its
   * rectangle, and the sheet maps it to that rectangle. The rectangles lie in
   * the atlas and do not overlap, and each texture fits in its own.
   */
  method CopyTextures(atlas: array2<Rgba>, textures: map<TextureId, RgbaImage>,
                      allocations: map<TextureId, Allocation>)
    returns (sheet: map<TextureId, Rect>)
    requires textures.Keys <= allocations.Keys
    requires AllWellFormed(textures) && Fits(textures, allocations)
    requires Placed(allocations, Size(atlas.Length1, atlas.Length0))
    modifies atlas
    ensures sheet.Keys == textures.Keys
    ensures forall t :: t in sheet ==> sheet[t] == allocations[t].rect
    ensures SheetHeld(atlas, textures, sheet)
    ensures forall i, j :: 0 <= i < atlas.Length0 && 0 <= j < atlas.Length1 && Uncovered(i, j, textures, sheet) ==>
      atlas[i, j] == old(atlas[i, j])
  {
    sheet := map[];
    var todo := textures.Keys;
    while todo != {}
      invariant todo <= textures.Keys
      invariant sheet.Keys == textures.Keys - todo
      invariant forall t :: t in sheet ==> sheet[t] == allocations[t].rect
      invariant SheetHeld(atlas, textures, sheet)
      invariant forall i, j :: 0 <= i < atlas.Length0 && 0 <= j < atlas.Length1 && Uncovered(i, j, textures, sheet) ==>
        atlas[i, j] == old(atlas[i, j])
      decreases todo
    {
      var textureId :| textureId in todo;
      var image, rect := textures[textureId], allocations[textureId].rect;
      CopyInto(atlas, image, rect.x, rect.y, rect, textures, sheet);
      SheetHeldExtends(atlas, textures, sheet, textureId, rect);
      sheet := sheet[textureId := rect];
      todo := todo - {textureId};
    }
  }

  /** Two registries with the same keys whose allocations have the same extents, key by key. */
  ghost predicate SameExtents(a: map<TextureId, Allocation>, b: map<TextureId, Allocation>)
  {
    a.Keys == b.Keys && forall t :: t in a ==> a[t].rect.Extent() == b[t].rect.Extent()
  }

  /** Removing a key just inserted gives back the map it was inserted into. */
  lemma InsertedThenRemoved<K, V>(m: map<K, V>, k: K, v: V)
    requires k !in m
    ensures m[k := v] - {k} == m
  {
  }

  lemma SameExtentsTransitive(a: map<TextureId, Allocation>, b: map<TextureId, Allocation>,
                              c: map<TextureId, Allocation>)
    requires SameExtents(a, b) && SameExtents(b, c)
    ensures SameExtents(a, c)
  {
  }

  /** Every image's rows match its dimensions. */
  ghost predicate AllWellFormed(textures: map<TextureId, RgbaImage>)
  {
    forall t :: t in textures ==> textures[t].WellFormed()
  }

  /** Every texture fits inside its allocation. */
  ghost predicate Fits(textures: map<TextureId, RgbaImage>, allocations: map<TextureId, Allocation>)
  {
    forall t :: t in textures && t in allocations ==>
      textures[t].width <= allocations[t].rect.width && textures[t].height <= allocations[t].rect.height
  }

  /** Moving allocations without changing their extents keeps every texture fitting. */
  lemma FitsKept(textures: map<TextureId, RgbaImage>, before: map<TextureId, Allocation>,
                 after: map<TextureId, Allocation>)
    requires Fits(textures, before)
    requires after.Keys == before.Keys
    requires forall t :: t in after ==> after[t].rect.Extent() == before[t].rect.Extent()
    ensures Fits(textures, after)
  {
  }

  /** `AtlasBuilder`: the textures pushed so far and where they are packed. */
  class AtlasBuilder {
    /** The decoded textures, by content id. */
    var textures: map<TextureId, RgbaImage>
    /** Each texture's allocation in the atlas. */
    var allocations: map<TextureId, Allocation>
    /** The allocator that decides where textures go. */
    const allocator: AtlasAllocator
    /** Whether the builder was modified since the last rearrange. */
    var dirty: bool

    /** The registry agrees with a valid allocator. */
    ghost predicate Consistent()
      reads this, allocator
    {
      allocator.Valid() && Registered(allocations, allocator.live)
    }

    /** The builder invariant between pushes: every texture has exactly one allocation. */
    ghost predicate Valid()
      reads this, allocator
    {
      && Consistent()
      && textures.Keys == allocations.Keys
      && AllWellFormed(textures)
    }

    /** Every texture fits inside its allocation, so copying it in `build` succeeds. */
    ghost predicate ImagesFit()
      reads this
    {
      Fits(textures, allocations)
    }

    /** `AtlasBuilder::default`: nothing pushed, a 1024 x 1024 canvas, not dirty. */
    constructor ()
      ensures Valid() && ImagesFit() && fresh(allocator)
      ensures textures == map[] && allocations == map[] && !dirty
      ensures allocator.size == Size(1024, 1024) && allocator.live == map[]
    {
      allocator := new AtlasAllocator(Size(1024, 1024));
      textures := map[];
      allocations := map[];
      dirty := false;
    }

    /**
     * `apply_change_list`: with failures, nothing changes and the failures are
     * the error; otherwise every entry whose handle was moved takes the new
     * allocation.
     */
    method ApplyChangeList(cl: ChangeList) returns (r: Result<(), Error>)
      modifies this`allocations
      ensures r.Err? <==> cl.failures != []
      ensures r.Err? ==> r.error == AllocationsFailed(cl.failures) && allocations == old(allocations)
      ensures r.Ok? ==> allocations == Remapped(old(allocations), ChangeMap(cl.changes))
    {
      if cl.failures != [] {
        return Err(AllocationsFailed(cl.failures));
      }
      var moves := ChangeMap(cl.changes);
      var todo := allocations.Keys;
      while todo != {}
        invariant todo <= allocations.Keys == old(allocations).Keys
        invariant forall t :: t in allocations ==>
          allocations[t] == if t in todo then old(allocations)[t] else Relocated(old(allocations)[t], moves)
        decreases todo
      {
        var t :| t in todo;
        var allocation := allocations[t];
        if allocation.id in moves {
          allocations := allocations[t := moves[allocation.id]];
        }
        todo := todo - {t};
      }
      r := Ok(());
    }

    /**
     * `grow`: double the canvas, rearranging the allocator, and apply its
     * change list; an error leaves the registry as it was.
     */
    method Grow() returns (r: Result<(), Error>)
      requires Consistent()
      modifies this`allocations, allocator
      ensures allocator.Valid()
      ensures allocator.size == old(allocator.size).Doubled() && allocator.cursor == old(allocator.cursor)
      ensures r.Ok? ==> Consistent() && SameExtents(allocations, old(allocations))
      ensures r.Err? ==> r.error.AllocationsFailed? && r.error.failures != [] && allocations == old(allocations)
    {
      var changeList := allocator.ResizeAndRearrange(allocator.size.Doubled());
      r := ApplyChangeList(changeList);
      if r.Ok? {
        RemapKeepsRegistered(old(allocations), old(allocator.live), allocator.live, changeList);
      }
    }

    /**
     * `rearrange_if_dirty`: when dirty, rearrange without resizing and apply
     * the change list, clearing `dirty` only on success; when clean, nothing.
     */
    method RearrangeIfDirty() returns (r: Result<(), Error>)
      requires Consistent()
      modifies this`allocations, this`dirty, allocator
      ensures allocator.size == old(allocator.size)
      ensures !old(dirty) ==> r.Ok? && !dirty && allocations == old(allocations) && allocator.live == old(allocator.live)
      ensures r.Ok? ==> !dirty && Consistent() && SameExtents(allocations, old(allocations))
      ensures r.Err? ==> && old(dirty) && dirty
                         && r.error.AllocationsFailed? && r.error.failures != []
                         && allocations == old(allocations)
    {
      if !dirty {
        return Ok(());
      }
      var changeList := allocator.Rearrange();
      r := ApplyChangeList(changeList);
      if r.Ok? {
        RemapKeepsRegistered(old(allocations), old(allocator.live), allocator.live, changeList);
        dirty := false;
      }
    }

    /**
     * `push_image_from_slice`. Known content returns its id at once. New
     * content is decoded (a failure changes nothing and is passed on), stored, and allocated at
     * the explicit size or else the image's own, doubling the canvas until
     * the allocation succeeds.
     */
    method PushImageFromSlice(data: seq<u8>, size: Option<Size>, hash: Hasher, decode: Decoder)
      returns (r: Result<TextureId, Error>)
      requires Valid()
      requires size.Some? ==> !size.value.IsEmpty()
      requires decode(data).Ok? ==> decode(data).value.WellFormed()
      requires decode(data).Err? ==> decode(data).error.Io? || decode(data).error.Image?
      requires decode(data).Ok? && size.None? ==> !decode(data).value.Extent().IsEmpty()
      modifies this`textures, this`allocations, allocator
      ensures ContentId(data, hash) in old(textures) ==>
        && r == Ok(ContentId(data, hash))
        && textures == old(textures) && allocations == old(allocations) && unchanged(allocator)
      ensures ContentId(data, hash) !in old(textures) && decode(data).Err? ==>
        && r == Err(decode(data).error)
        && textures == old(textures) && allocations == old(allocations) && unchanged(allocator)
      ensures ContentId(data, hash) !in old(textures) && decode(data).Ok? ==>
        && textures == old(textures)[ContentId(data, hash) := decode(data).value]
        && (r.Ok? || (r.error.AllocationsFailed? && r.error.failures != [] && ContentId(data, hash) !in allocations))
      ensures r.Ok? ==> r.value == ContentId(data, hash) && Valid()
      ensures r.Ok? ==> allocations.Keys == old(allocations).Keys + {r.value}
      ensures r.Ok? ==> forall t :: t in old(allocations) ==>
        allocations[t].rect.Extent() == old(allocations)[t].rect.Extent()
      ensures r.Ok? ==> exists k: nat :: allocator.size == DoubledTimes(old(allocator.size), k)
      ensures r.Ok? && r.value !in old(textures) ==>
        allocations[r.value].rect.Extent() == (if size.Some? then size.value else decode(data).value.Extent())
      ensures r.Ok? && old(ImagesFit()) &&
        (size.Some? && decode(data).Ok? ==>
          decode(data).value.width <= size.value.width && decode(data).value.height <= size.value.height)
        ==> ImagesFit()
    {
      var id := ContentId(data, hash);
      if id in textures {
        assert allocator.size == DoubledTimes(allocator.size, 0);
        return Ok(id);
      }
      var decoded := decode(data);
      if decoded.Err? {
        return Err(decoded.error);
      }
      var image := decoded.value;
      var request := if size.Some? then size.value else image.Extent();
      textures := textures[id := image];

      var registered := AllocateAndRegister(id, request);
      if registered.Err? {
        return Err(registered.error);
      }
      r := Ok(id);
    }

    /**
     * The allocation loop of `push_image_from_slice` and the registration
     * after it: try allocating the request and, when it does not fit, grow
     * the canvas and try again; a failed growth ends the loop with its error.
     */
    method AllocateAndRegister(id: TextureId, request: Size) returns (r: Result<(), Error>)
      requires Consistent() && !request.IsEmpty() && id !in allocations
      modifies this`allocations, allocator
      ensures allocator.Valid()
      ensures exists k: nat :: allocator.size == DoubledTimes(old(allocator.size), k)
      ensures r.Ok? ==> && Consistent()
                        && id in allocations
                        && allocations[id].rect.Extent() == request
                        && SameExtents(allocations - {id}, old(allocations))
      ensures r.Err? ==> && r.error.AllocationsFailed? && r.error.failures != []
                         && SameExtents(allocations, old(allocations))
    {
      ghost var k: nat := 0;
      ghost var entry := allocations;
      while true
        invariant Consistent()
        invariant SameExtents(allocations, entry)
        invariant allocator.size == DoubledTimes(old(allocator.size), k)
        decreases Deficit(allocator.cursor, allocator.size, request)
      {
        ghost var live := allocator.live;
        var allocation := allocator.Allocate(request);
        if allocation.Some? {
          RegisterFresh(allocations, live, id, allocation.value);
          ghost var registered := allocations;
          allocations := allocations[id := allocation.value];
          InsertedThenRemoved(registered, id, allocation.value);
          return Ok(());
        }
        ghost var cursor, canvas, current := allocator.cursor, allocator.size, allocations;
        var grown := Grow();
        if grown.Err? {
          assert allocator.size == DoubledTimes(old(allocator.size), k + 1);
          return Err(grown.error);
        }
        SameExtentsTransitive(allocations, current, entry);
        DoublingShrinksDeficit(cursor, allocator.cursor, canvas, request);
        k := k + 1;
      }
    }

    /**
     * `build`: rearrange if dirty, then copy every texture into a fresh atlas
     * of the canvas size at its allocation, and map each texture to its
     * rectangle. Only the rearrangement can fail.
     */
    method Build() returns (r: Result<(array2<Rgba>, map<TextureId, Rect>), Error>)
      requires Valid() && ImagesFit()
      modifies this`allocations, this`dirty, allocator
      ensures textures == old(textures) && allocator.size == old(allocator.size)
      ensures !old(dirty) ==> r.Ok? && allocations == old(allocations) && allocator.live == old(allocator.live)
      ensures r.Ok? ==> !dirty
      ensures r.Err? ==> old(dirty) && dirty && r.error.AllocationsFailed?
      ensures r.Ok? ==>
        && fresh(r.value.0)
        && r.value.0.Length0 == allocator.size.height
        && r.value.0.Length1 == allocator.size.width
        && r.value.1.Keys == textures.Keys == allocations.Keys
        && (forall t :: t in r.value.1 ==>
              r.value.1[t] == allocations[t].rect &&
              r.value.1[t].Extent() == old(allocations)[t].rect.Extent())
        && Placed(allocations, allocator.size)
        && SheetHeld(r.value.0, textures, r.value.1)
        && (forall i, j ::
              0 <= i < r.value.0.Length0 && 0 <= j < r.value.0.Length1 && Uncovered(i, j, textures, r.value.1)
              ==> r.value.0[i, j] == TRANSPARENT)
    {
      ghost var images, before := textures, allocations;
      var rearranged := RearrangeIfDirty();
      if rearranged.Err? {
        return Err(rearranged.error);
      }
      assert textures == images;
      FitsKept(textures, before, allocations);
      RegisteredPlaced(allocations, allocator.live, allocator.size);
      var atlasTexture := new Rgba[allocator.size.height, allocator.size.width]((i, j) => TRANSPARENT);
      var atlas := CopyTextures(atlasTexture, textures, allocations);
      r := Ok((atlasTexture, atlas));
    }
  }
}
