/**
 * The append-only arena of the `utils` crate: a growable vector of items that
 * hands out compact 1-based indices (`Index`) for the slots it fills.
 */
module Arenas {
  import opened Wrappers

  /** Rust's `u16`. */
  newtype u16 = x: int | 0 <= x < 0x1_0000

  /** Rust's `NonZeroU16`. */
  type NonZeroU16 = x: u16 | x != 0 witness 1

  const U16_MAX: nat := 0xFFFF

  /**
   * A position in an arena. Position `i` is stored as `i + 1` in a
   * `NonZeroU16`, so that the niche value 0 is free for `Option<Index>`.
   */
  datatype Index = Index(raw: NonZeroU16)
  {
    /** `Index::index`: the position this index stands for. */
    function Position(): (p: nat)
      ensures p < U16_MAX
    {
      (raw - 1) as nat
    }

    /** The derived `Ord` of `Index`, which compares the stored `u16`. */
    predicate Less(other: Index)
    {
      raw < other.raw
    }
  }

  /**
   * `Index::new`. The conversion to `u16` panics above 65535 and the `+ 1`
   * overflows at 65535 (see `NewIndexAsWritten`), so only positions below
   * 65535 have an index.
   */
  function NewIndex(i: nat): (r: Index)
    requires i < U16_MAX
    ensures r.Position() == i
  {
    Index((i + 1) as NonZeroU16)
  }

  /** Every index is the index of its own position. */
  lemma PositionRoundTrip(idx: Index)
    ensures NewIndex(idx.Position()) == idx
  {
  }

  /** The derived order on indices is the order on positions, both ways. */
  lemma IndexOrderIsPositionOrder(i: nat, j: nat)
    requires i < U16_MAX && j < U16_MAX
    ensures i < j <==> NewIndex(i).Less(NewIndex(j))
  {
  }

  /**
   * The value `Index::new` hands to `NonZeroU16::new_unchecked`, as written:
   * `u16::try_from` accepts every `i <= 65535`, and the `u16` addition `+ 1`
   * wraps around in a release build.
   */
  function NewIndexAsWritten(i: nat): (raw: u16)
    requires i <= U16_MAX
    ensures i < U16_MAX ==> raw as int == NewIndex(i).raw as int
  {
    ((i + 1) % 0x1_0000) as u16
  }

  /**
   * Position 65535 passes the overflow check and, in a release build,
   * reaches `new_unchecked` with 0, the one value a `NonZeroU16` must never
   * hold (a debug build panics at the `+ 1` instead).
   */
  lemma NewIndexAcceptsZero()
    ensures 65535 <= U16_MAX && NewIndexAsWritten(65535) == 0
  {
  }

  /** `into_iter().map(f).collect()`: `f` applied to every item, in order. */
  function MapItems<T, U>(s: seq<T>, f: T -> U): (r: seq<U>)
    ensures |r| == |s|
    ensures forall i :: 0 <= i < |s| ==> r[i] == f(s[i])
  {
    if s == [] then [] else [f(s[0])] + MapItems(s[1..], f)
  }

  /**
   * `into_iter().map(f).collect::<Result<Vec<_>, _>>()`: every result if all
   * of them are `Ok`, otherwise the first `Err` in order.
   */
  function TryMapItems<T, U, E>(s: seq<T>, f: T -> Result<U, E>): (r: Result<seq<U>, E>)
    ensures r.Ok? <==> forall i :: 0 <= i < |s| ==> f(s[i]).Ok?
    ensures r.Ok? ==> |r.value| == |s| && forall i :: 0 <= i < |s| ==> f(s[i]) == Ok(r.value[i])
    ensures r.Err? ==> exists k :: 0 <= k < |s| && f(s[k]) == Err(r.error) &&
                                   forall j :: 0 <= j < k ==> f(s[j]).Ok?
  {
    if s == [] then Ok([])
    else match f(s[0])
      case Err(e) => Err(e)
      case Ok(u) =>
        var rest := TryMapItems(s[1..], f);
        match rest
        case Err(e) =>
          assert forall k :: 0 <= k < |s| - 1 ==> s[1..][k] == s[k + 1];
          Err(e)
        case Ok(us) => Ok([u] + us)
  }

  /** `Arena<T>`: an append-only vector of items addressed by `Index`. */
  class Arena<T> {
    /** The items, in insertion order. */
    var items: seq<T>
    /** The capacity of the backing `Vec`. */
    var capacity: nat

    /** Every slot has an index, and the backing vector holds every item. */
    ghost predicate Valid()
      reads this
    {
      |items| <= capacity && |items| <= U16_MAX
    }

    /** `Arena::default`: an empty arena. */
    constructor ()
      ensures Valid() && items == [] && capacity == 0
    {
      items := [];
      capacity := 0;
    }

    /** `len`. */
    function Len(): (n: nat)
      reads this
      ensures n == |items|
    {
      |items|
    }

    /** `is_empty`. */
    function IsEmpty(): (e: bool)
      reads this
      ensures e <==> Len() == 0
    {
      items == []
    }

    /** `get`: the item at the index's position, if the arena has that slot. */
    function Get(idx: Index): (r: Option<T>)
      reads this
      ensures r.Some? <==> idx.Position() < Len()
      ensures r.Some? ==> r.value == items[idx.Position()]
    {
      if idx.Position() < |items| then Some(items[idx.Position()]) else None
    }

    /** `arena[idx]` (`std::ops::Index`), which panics where `get` gives `None`. */
    function At(idx: Index): (x: T)
      reads this
      requires idx.Position() < Len()
      ensures Get(idx) == Some(x)
    {
      items[idx.Position()]
    }

    /** `insert`: push the item and return the index of its new slot. */
    method Insert(item: T) returns (idx: Index)
      requires Valid() && |items| < U16_MAX
      modifies this
      ensures Valid()
      ensures items == old(items) + [item]
      ensures idx == NewIndex(|old(items)|)
      ensures Get(idx) == Some(item)
    {
      var index := |items|;
      if index == capacity {
        // the vector is full and reallocates with doubled capacity
        capacity := if capacity == 0 then 4 else 2 * capacity;
      }
      items := items + [item];
      idx := NewIndex(index);
    }

    /**
     * `get_mut`: a mutable borrow of the slot at `idx`, if there is one. The
     * caller's write through the borrow is `write`, applied to that slot.
     */
    method GetMut(idx: Index, write: T -> T) returns (found: bool)
      requires Valid()
      modifies this`items
      ensures Valid()
      ensures found <==> old(Get(idx)).Some?
      ensures found ==> items == old(items)[idx.Position() := write(old(items)[idx.Position()])]
      ensures !found ==> items == old(items)
    {
      found := idx.Position() < |items|;
      if found {
        items := items[idx.Position() := write(items[idx.Position()])];
      }
    }

    /** `map`: a new arena holding `f` of every item, slot for slot. */
    method Map<U>(f: T -> U) returns (m: Arena<U>)
      requires Valid()
      ensures fresh(m) && m.Valid()
      ensures m.items == MapItems(items, f)
    {
      m := new Arena();
      m.items, m.capacity := MapItems(items, f), |items|;
    }

    /** `try_map`: like `map`, or the first error `f` reports. */
    method TryMap<U, E>(f: T -> Result<U, E>) returns (r: Result<Arena<U>, E>)
      requires Valid()
      ensures r.Ok? ==> fresh(r.value) && r.value.Valid()
      ensures TryMapItems(items, f).Ok? == r.Ok?
      ensures r.Ok? ==> r.value.items == TryMapItems(items, f).value
      ensures r.Err? ==> r.error == TryMapItems(items, f).error
    {
      var mapped := TryMapItems(items, f);
      if mapped.Err? {
        return Err(mapped.error);
      }
      var m := new Arena();
      m.items, m.capacity := mapped.value, |mapped.value|;
      r := Ok(m);
    }

    /** `map_ref`: like `map`, without consuming the arena. */
    method MapRef<U>(f: T -> U) returns (m: Arena<U>)
      requires Valid()
      ensures fresh(m) && m.Valid()
      ensures m.items == MapItems(items, f)
      ensures items == old(items)
    {
      m := new Arena();
      m.items, m.capacity := MapItems(items, f), |items|;
    }

    /** `shrink_to_fit`: drop spare capacity; the items stay as they are. */
    method ShrinkToFit()
      requires Valid()
      modifies this`capacity
      ensures Valid()
      ensures capacity == |items| <= old(capacity)
    {
      capacity := |items|;
    }

    /** `iter` (`IntoIterator for &Arena`): an iterator over the items. */
    method Iter() returns (it: Iter<T>)
      requires Valid()
      ensures fresh(it) && it.Valid()
      ensures it.items == items && it.pos == 0
    {
      it := new Iter(items);
    }

    /** `iter_mut` (`IntoIterator for &mut Arena`): an iterator over mutable slots. */
    method IterMut() returns (it: IterMut<T>)
      requires Valid()
      ensures fresh(it) && it.Valid()
      ensures it.arena == this && it.pos == 0
    {
      it := new IterMut(this);
    }
  }

  /** `Iter`: the slots of an arena with their indices, front to back. */
  class Iter<T> {
    /** The items of the borrowed arena. */
    const items: seq<T>
    /** How many items the enumeration has yielded. */
    var pos: nat

    ghost predicate Valid()
      reads this
    {
      pos <= |items| <= U16_MAX
    }

    constructor (items: seq<T>)
      requires |items| <= U16_MAX
      ensures Valid() && this.items == items && pos == 0
    {
      this.items := items;
      pos := 0;
    }

    /** `next`: the next item with its index, or `None` once all are yielded. */
    method Next() returns (r: Option<(Index, T)>)
      requires Valid()
      modifies this
      ensures Valid()
      ensures old(pos) < |items| ==> pos == old(pos) + 1 && r == Some((NewIndex(old(pos)), items[old(pos)]))
      ensures old(pos) == |items| ==> pos == old(pos) && r == None
    {
      if pos < |items| {
        r := Some((NewIndex(pos), items[pos]));
        pos := pos + 1;
      } else {
        r := None;
      }
    }
  }

  /**
   * A `for` loop over `&arena`: it yields exactly one pair per slot, the
   * slot's index with its item, in increasing order.
   */
  method IterateAll<T>(arena: Arena<T>) returns (pairs: seq<(Index, T)>)
    requires arena.Valid()
    ensures |pairs| == |arena.items|
    ensures forall i :: 0 <= i < |pairs| ==> pairs[i] == (NewIndex(i), arena.items[i])
  {
    var it := arena.Iter();
    pairs := [];
    var next := it.Next();
    while next.Some?
      invariant it.Valid() && it.items == arena.items
      invariant next.Some? ==> it.pos == |pairs| + 1 && next.value == (NewIndex(|pairs|), arena.items[|pairs|])
      invariant next.None? ==> it.pos == |pairs| == |arena.items|
      invariant forall i :: 0 <= i < |pairs| ==> pairs[i] == (NewIndex(i), arena.items[i])
      decreases |arena.items| - |pairs|
    {
      pairs := pairs + [next.value];
      next := it.Next();
    }
  }

  /** `IterMut`: the slots of an arena, each handed out once for writing. */
  class IterMut<T> {
    /** The mutably borrowed arena. */
    const arena: Arena<T>
    /** How many slots the enumeration has yielded. */
    var pos: nat

    ghost predicate Valid()
      reads this, arena
    {
      arena.Valid() && pos <= |arena.items|
    }

    constructor (arena: Arena<T>)
      requires arena.Valid()
      ensures Valid() && this.arena == arena && pos == 0
    {
      this.arena := arena;
      pos := 0;
    }

    /**
     * `next`: the next slot's index and a mutable borrow of its item; the
     * caller's write through the borrow is `write`. Returns the index with
     * the value the slot holds afterwards.
     */
    method Next(write: T -> T) returns (r: Option<(Index, T)>)
      requires Valid()
      modifies this, arena`items
      ensures Valid()
      ensures old(pos) < |old(arena.items)| ==>
        pos == old(pos) + 1 &&
        arena.items == old(arena.items)[old(pos) := write(old(arena.items)[old(pos)])] &&
        r == Some((NewIndex(old(pos)), arena.items[old(pos)]))
      ensures old(pos) == |old(arena.items)| ==>
        pos == old(pos) && arena.items == old(arena.items) && r == None
    {
      if pos < |arena.items| {
        arena.items := arena.items[pos := write(arena.items[pos])];
        r := Some((NewIndex(pos), arena.items[pos]));
        pos := pos + 1;
      } else {
        r := None;
      }
    }
  }

  /**
   * A `for` loop over `&mut arena` that writes `f` of each item back: every
   * slot is visited once, so afterwards the arena holds `f` of each item.
   */
  method UpdateAll<T>(arena: Arena<T>, f: T -> T)
    requires arena.Valid()
    modifies arena`items
    ensures arena.Valid()
    ensures arena.items == MapItems(old(arena.items), f)
  {
    var it := arena.IterMut();
    var next := it.Next(f);
    while next.Some?
      invariant it.Valid() && it.arena == arena
      invariant |arena.items| == |old(arena.items)|
      invariant it.pos <= |arena.items|
      invariant forall i :: 0 <= i < it.pos ==> arena.items[i] == f(old(arena.items)[i])
      invariant forall i :: it.pos <= i < |arena.items| ==> arena.items[i] == old(arena.items)[i]
      invariant next.None? ==> it.pos == |arena.items|
      decreases |arena.items| - it.pos, next.Some?
    {
      next := it.Next(f);
    }
  }
}
