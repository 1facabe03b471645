/**
 * The rectangle allocator the texture-atlas builder packs into (the
 * `guillotiere` crate's `AtlasAllocator`), described by the contract the
 * builder relies on. The class body is a minimal shelf packer that meets that
 * contract (every rectangle is placed in one row, left to right); it stands in
 * for the foreign bin-packing algorithm and is not a model of it.
 */
module Packing {
  import opened Wrappers

  /** A width and height, as euclid's `Size2D`. */
  datatype Size = Size(width: nat, height: nat)
  {
    /** An empty size, which no allocator can place. */
    predicate IsEmpty()
    {
      width == 0 || height == 0
    }

    /** `size * 2`: both dimensions doubled. */
    function Doubled(): Size
    {
      Size(2 * width, 2 * height)
    }
  }

  /** A rectangle given by its top-left corner and its extent. */
  datatype Rect = Rect(x: nat, y: nat, width: nat, height: nat)
  {
    function Extent(): Size
    {
      Size(width, height)
    }
  }

  /** The rectangle lies fully inside a canvas of the given size. */
  predicate Inside(r: Rect, canvas: Size)
  {
    r.x + r.width <= canvas.width && r.y + r.height <= canvas.height
  }

  /** The two rectangles share no point. */
  predicate Disjoint(a: Rect, b: Rect)
  {
    a.x + a.width <= b.x || b.x + b.width <= a.x || a.y + a.height <= b.y || b.y + b.height <= a.y
  }

  /** An allocator-internal handle (`AllocId`); not stable across rearranging. */
  type AllocId = nat

  /** A placed rectangle with its handle (`guillotiere::Allocation`). */
  datatype Allocation = Allocation(id: AllocId, rect: Rect)

  /** One relocation reported by a rearrangement (`guillotiere::Change`). */
  datatype Change = Change(previous: Allocation, current: Allocation)

  /** What a rearrangement reports (`guillotiere::ChangeList`). */
  datatype ChangeList = ChangeList(changes: seq<Change>, failures: seq<Allocation>)

  /**
   * The contract of `rearrange` and `resize_and_rearrange`: every allocation
   * that existed is either moved, with its extent kept and a new handle
   * distinct among the moves (it may equal an old handle), or
   * reported as a failure; afterwards the allocations are exactly the moved
   * ones.
   */
  ghost predicate Rearranged(before: map<AllocId, Rect>, after: map<AllocId, Rect>, cl: ChangeList)
  {
    var cs := cl.changes;
    && (forall i :: 0 <= i < |cs| ==>
          && cs[i].previous.id in before
          && before[cs[i].previous.id] == cs[i].previous.rect
          && cs[i].current.rect.Extent() == cs[i].previous.rect.Extent()
          && cs[i].current.id in after
          && after[cs[i].current.id] == cs[i].current.rect)
    && (forall i, j :: 0 <= i < j < |cs| ==>
          cs[i].previous.id != cs[j].previous.id && cs[i].current.id != cs[j].current.id)
    && (forall id :: id in before ==> Accounted(id, cs, cl.failures))
    && (forall id :: id in after ==> exists i :: 0 <= i < |cs| && cs[i].current.id == id)
  }

  /**
   * How far a canvas is from holding a request to the right of the shelf
   * cursor: zero exactly when the request fits.
   */
  function Deficit(cursor: nat, canvas: Size, req: Size): (d: nat)
    ensures d == 0 <==> cursor + req.width <= canvas.width && req.height <= canvas.height
  {
    (if cursor + req.width > canvas.width then cursor + req.width - canvas.width else 0) +
    (if req.height > canvas.height then req.height - canvas.height else 0)
  }

  /**
   * Doubling a non-empty canvas, with the cursor not moved to the right,
   * brings a request that does not fit strictly closer to fitting; so the
   * grow-and-retry loop ends.
   */
  lemma DoublingShrinksDeficit(cursor: nat, cursor': nat, canvas: Size, req: Size)
    requires !canvas.IsEmpty() && cursor' <= cursor
    requires Deficit(cursor, canvas, req) > 0
    ensures Deficit(cursor', canvas.Doubled(), req) < Deficit(cursor, canvas, req)
  {
  }

  /** The allocation with handle `id` is among the moves or the failures. */
  ghost predicate Accounted(id: AllocId, changes: seq<Change>, failures: seq<Allocation>)
  {
    (exists i :: 0 <= i < |changes| && changes[i].previous.id == id) ||
    (exists k :: 0 <= k < |failures| && failures[k].id == id)
  }

  /** Reporting more moves or failures keeps every allocation accounted for. */
  lemma AccountedExtends(id: AllocId, changes: seq<Change>, failures: seq<Allocation>,
                         changes': seq<Change>, failures': seq<Allocation>)
    requires Accounted(id, changes, failures)
    requires changes <= changes' && failures <= failures'
    ensures Accounted(id, changes', failures')
  {
    if i :| 0 <= i < |changes| && changes[i].previous.id == id {
      assert changes'[i] == changes[i];
    } else {
      var k :| 0 <= k < |failures| && failures[k].id == id;
      assert failures'[k] == failures[k];
    }
  }

  /**
   * What a placement pass reports: the moves keep the rectangle, take handles
   * `base`, `base + 1`, ..., and each move a different allocation that fits
   * the canvas; the failures are allocations that do not fit; every
   * allocation is one or the other; `moved` holds the moved allocations.
   */
  ghost predicate Relocation(before: map<AllocId, Rect>, canvas: Size, base: AllocId,
                             changes: seq<Change>, failures: seq<Allocation>, moved: map<AllocId, Rect>)
  {
    && (forall i :: 0 <= i < |changes| ==>
          && changes[i].previous.id in before
          && changes[i].previous.rect == before[changes[i].previous.id]
          && changes[i].current == Allocation(base + i, changes[i].previous.rect)
          && Inside(changes[i].previous.rect, canvas)
          && base + i in moved
          && moved[base + i] == changes[i].previous.rect)
    && (forall i, j :: 0 <= i < j < |changes| ==> changes[i].previous.id != changes[j].previous.id)
    && (forall k :: 0 <= k < |failures| ==>
          failures[k].id in before && !Inside(before[failures[k].id], canvas))
    && (forall id :: id in before ==> Accounted(id, changes, failures))
    && (forall id :: id in moved ==> base <= id < base + |changes|)
  }

  /** A placement pass is a rearrangement. */
  lemma RelocationRearranges(before: map<AllocId, Rect>, canvas: Size, base: AllocId,
                             changes: seq<Change>, failures: seq<Allocation>, moved: map<AllocId, Rect>)
    requires Relocation(before, canvas, base, changes, failures, moved)
    ensures Rearranged(before, moved, ChangeList(changes, failures))
  {
    RelocationRecordsMoves(before, canvas, base, changes, failures, moved);
    RelocationCoversMoved(before, canvas, base, changes, failures, moved);
    RearrangedIntro(before, moved, changes, failures);
  }

  /** `Rearranged`, assembled from its four parts. */
  lemma RearrangedIntro(before: map<AllocId, Rect>, after: map<AllocId, Rect>,
                        changes: seq<Change>, failures: seq<Allocation>)
    requires forall i :: 0 <= i < |changes| ==>
      && changes[i].previous.id in before
      && before[changes[i].previous.id] == changes[i].previous.rect
      && changes[i].current.rect.Extent() == changes[i].previous.rect.Extent()
      && changes[i].current.id in after
      && after[changes[i].current.id] == changes[i].current.rect
    requires forall i, j :: 0 <= i < j < |changes| ==>
      changes[i].previous.id != changes[j].previous.id && changes[i].current.id != changes[j].current.id
    requires forall id :: id in before ==> Accounted(id, changes, failures)
    requires forall id :: id in after ==> exists i :: 0 <= i < |changes| && changes[i].current.id == id
    ensures Rearranged(before, after, ChangeList(changes, failures))
  {
  }

  /** Each move of a placement pass keeps its extent and names a moved allocation; no two share a handle. */
  lemma RelocationRecordsMoves(before: map<AllocId, Rect>, canvas: Size, base: AllocId,
                               changes: seq<Change>, failures: seq<Allocation>, moved: map<AllocId, Rect>)
    requires Relocation(before, canvas, base, changes, failures, moved)
    ensures forall i :: 0 <= i < |changes| ==>
      && changes[i].previous.id in before
      && before[changes[i].previous.id] == changes[i].previous.rect
      && changes[i].current.rect.Extent() == changes[i].previous.rect.Extent()
      && changes[i].current.id in moved
      && moved[changes[i].current.id] == changes[i].current.rect
    ensures forall i, j :: 0 <= i < j < |changes| ==>
      changes[i].previous.id != changes[j].previous.id && changes[i].current.id != changes[j].current.id
  {
  }

  /** Every allocation a placement pass leaves comes from one of its moves. */
  lemma RelocationCoversMoved(before: map<AllocId, Rect>, canvas: Size, base: AllocId,
                              changes: seq<Change>, failures: seq<Allocation>, moved: map<AllocId, Rect>)
    requires Relocation(before, canvas, base, changes, failures, moved)
    ensures forall id :: id in moved ==> exists i :: 0 <= i < |changes| && changes[i].current.id == id
  {
    forall id | id in moved
      ensures exists i :: 0 <= i < |changes| && changes[i].current.id == id
    {
      assert changes[id - base].current.id == id;
    }
  }

  /**
   * The allocations a placement pass leaves lie inside the new canvas, left
   * of the cursor and pairwise disjoint when the ones before lay left of the
   * cursor and were pairwise disjoint.
   */
  lemma RelocationPlaces(before: map<AllocId, Rect>, canvas: Size, base: AllocId, cursor: nat,
                         changes: seq<Change>, failures: seq<Allocation>, moved: map<AllocId, Rect>)
    requires Relocation(before, canvas, base, changes, failures, moved)
    requires forall id :: id in before ==> before[id].x + before[id].width <= cursor
    requires forall a, b :: a in before && b in before && a != b ==> Disjoint(before[a], before[b])
    ensures forall id :: id in moved ==>
      id < base + |changes| && Inside(moved[id], canvas) && moved[id].x + moved[id].width <= cursor
    ensures forall a, b :: a in moved && b in moved && a != b ==> Disjoint(moved[a], moved[b])
  {
    forall id | id in moved
      ensures Inside(moved[id], canvas) && moved[id].x + moved[id].width <= cursor
    {
      assert changes[id - base].current.id == id;
    }
    forall a, b | a in moved && b in moved && a != b
      ensures Disjoint(moved[a], moved[b])
    {
      assert changes[a - base].previous.id != changes[b - base].previous.id;
    }
  }

  /**
   * The placement pass of a rearrangement, one allocation at a time: each
   * allocation that fits the new canvas keeps its place under the next fresh
   * handle (counting from `base`), each other one is a failure.
   */
  method Relocate(before: map<AllocId, Rect>, canvas: Size, base: AllocId)
    returns (changes: seq<Change>, failures: seq<Allocation>, moved: map<AllocId, Rect>)
    ensures Relocation(before, canvas, base, changes, failures, moved)
  {
    var todo := before.Keys;
    changes, failures, moved := [], [], map[];
    while todo != {}
      invariant todo <= before.Keys
      invariant forall i :: 0 <= i < |changes| ==>
        && changes[i].previous.id in before
        && changes[i].previous.id !in todo
        && changes[i].previous.rect == before[changes[i].previous.id]
        && changes[i].current == Allocation(base + i, changes[i].previous.rect)
        && Inside(changes[i].previous.rect, canvas)
        && base + i in moved
        && moved[base + i] == changes[i].previous.rect
      invariant forall i, j :: 0 <= i < j < |changes| ==> changes[i].previous.id != changes[j].previous.id
      invariant forall k :: 0 <= k < |failures| ==>
        failures[k].id in before && !Inside(before[failures[k].id], canvas)
      invariant forall id :: id in before && id !in todo ==> Accounted(id, changes, failures)
      invariant forall id :: id in moved ==> base <= id < base + |changes|
      decreases todo
    {
      var id :| id in todo;
      var rect := before[id];
      ghost var changes0, failures0 := changes, failures;
      if Inside(rect, canvas) {
        moved := moved[base + |changes| := rect];
        changes := changes + [Change(Allocation(id, rect), Allocation(base + |changes|, rect))];
        assert changes[|changes| - 1].previous.id == id;
      } else {
        failures := failures + [Allocation(id, rect)];
        assert failures[|failures| - 1].id == id;
      }
      forall id' | id' in before && id' !in todo && id' != id
        ensures Accounted(id', changes, failures)
      {
        AccountedExtends(id', changes0, failures0, changes, failures);
      }
      todo := todo - {id};
    }
  }

  /** `AtlasAllocator`: the canvas and the rectangles placed on it. */
  class AtlasAllocator {
    /** The canvas size (`size()`). */
    var size: Size
    /** The live allocations, by handle. */
    var live: map<AllocId, Rect>
    /** The next handle to give out. */
    var nextId: AllocId
    /** Where the shelf's next rectangle goes. */
    var cursor: nat

    /**
     * The allocator invariant: the canvas is not empty, every allocation lies
     * inside it, and no two allocations overlap.
     */
    ghost predicate Valid()
      reads this
    {
      && !size.IsEmpty()
      && (forall id :: id in live ==>
            id < nextId && Inside(live[id], size) && live[id].x + live[id].width <= cursor)
      && (forall a, b :: a in live && b in live && a != b ==> Disjoint(live[a], live[b]))
    }

    /** `AtlasAllocator::new`: an empty canvas of the given size. */
    constructor (size: Size)
      requires !size.IsEmpty()
      ensures Valid() && this.size == size && live == map[] && cursor == 0
    {
      this.size := size;
      live := map[];
      nextId := 0;
      cursor := 0;
    }

    /** The request can be placed on the canvas as it is. */
    predicate CanFit(req: Size)
      reads this
    {
      !req.IsEmpty() && Deficit(cursor, size, req) == 0
    }

    /**
     * `allocate`: a new rectangle of exactly the requested extent under a
     * fresh handle, or `None` (the signal to grow) when the canvas has no room.
     */
    method Allocate(req: Size) returns (r: Option<Allocation>)
      requires Valid()
      modifies this
      ensures Valid() && size == old(size)
      ensures r.Some? <==> old(CanFit(req))
      ensures r.Some? ==> && r.value.id !in old(live)
                          && r.value.rect.Extent() == req
                          && live == old(live)[r.value.id := r.value.rect]
      ensures r.None? ==> unchanged(this)
    {
      if !CanFit(req) {
        return None;
      }
      var rect := Rect(cursor, 0, req.width, req.height);
      r := Some(Allocation(nextId, rect));
      live := live[nextId := rect];
      nextId := nextId + 1;
      cursor := cursor + req.width;
    }

    /**
     * `resize_and_rearrange`: the canvas takes the new size and every
     * allocation is placed again under a new handle; those that no longer
     * fit are reported as failures.
     */
    method ResizeAndRearrange(newSize: Size) returns (cl: ChangeList)
      requires Valid() && !newSize.IsEmpty()
      modifies this
      ensures Valid() && size == newSize && cursor == old(cursor)
      ensures Rearranged(old(live), live, cl)
    {
      var changes, failures, moved := Relocate(live, newSize, nextId);
      RelocationRearranges(live, newSize, nextId, changes, failures, moved);
      RelocationPlaces(live, newSize, nextId, cursor, changes, failures, moved);
      live, nextId, size := moved, nextId + |changes|, newSize;
      cl := ChangeList(changes, failures);
    }

    /** `rearrange`: `resize_and_rearrange` to the current size. */
    method Rearrange() returns (cl: ChangeList)
      requires Valid()
      modifies this
      ensures Valid() && size == old(size) && cursor == old(cursor)
      ensures Rearranged(old(live), live, cl)
    {
      cl := ResizeAndRearrange(size);
    }
  }
}
