/**
 * A scope's slot allocator and the storages of its activations, as the scope keeps them: a dense
 * storage is a list copied from a growing template, a sparse one a dictionary filled lazily.
 *
 * Every method is tied to the abstract machine of `SlotAllocation` through `World`, so both kinds
 * of storage refine one map from slots to cells.
 */
module SlotStorage {
  import opened Options
  import opened SlotAllocation

  datatype Entry = Unset | Bookkeeping | Filled(cell: Cell)

  datatype Slots = Dense(list: seq<Entry>) | Sparse(table: map<Index, Entry>)

  /** An emptied storage is an ended activation. */
  predicate IsFull(slots: Slots) {
    match slots
    case Dense(list) => list != []
    case Sparse(table) => table != map[]
  }

  /** The abstract map a storage stands for. */
  function Cells(slots: Slots): map<Index, Cell> {
    match slots
    case Dense(list) => map i: Index | i < |list| && list[i].Filled? :: list[i].cell
    case Sparse(table) => map i | i in table && table[i].Filled? :: table[i].cell
  }

  /** A full storage of a scope whose template has `top` slots. */
  ghost predicate WellFormed(dense: bool, top: nat, slots: Slots) {
    && slots.Dense? == dense
    && (IsFull(slots) ==>
          match slots
          case Dense(list) =>
            RESERVED <= |list| <= top && forall i :: 0 <= i < |list| ==> (list[i].Bookkeeping? <==> i < RESERVED)
          case Sparse(table) =>
            (forall i :: i in table ==> i < top && (table[i].Bookkeeping? <==> i < RESERVED) && !table[i].Unset?)
            && forall i: Index :: i < RESERVED ==> i in table)
  }

  function Live(storages: map<Act, Slots>): map<Act, map<Index, Cell>> {
    map a | a in storages && IsFull(storages[a]) :: Cells(storages[a])
  }

  function Emptied(storages: map<Act, Slots>): set<Act> {
    set a | a in storages && !IsFull(storages[a])
  }

  /** Changing one storage without emptying it changes that activation's cells only. */
  lemma UpdateStorage(storages: map<Act, Slots>, a: Act, slots: Slots)
    requires IsFull(slots) && (a in storages ==> IsFull(storages[a]))
    ensures Live(storages[a := slots]) == Live(storages)[a := Cells(slots)]
    ensures Emptied(storages[a := slots]) == Emptied(storages)
  {
  }

  lemma EmptyStorage(storages: map<Act, Slots>, a: Act, slots: Slots)
    requires !IsFull(slots) && a in storages
    ensures Live(storages[a := slots]) == Live(storages) - {a}
    ensures Emptied(storages[a := slots]) == Emptied(storages) + {a}
  {
  }

  /** A storage with one slot unset: in a list by assignment, in a dictionary by removal. */
  function Cleared(slots: Slots, i: Index): Slots {
    match slots
    case Dense(list) => if i < |list| then Dense(list[i := Unset]) else slots
    case Sparse(table) => Sparse(table - {i})
  }

  lemma ClearedMeans(dense: bool, top: nat, slots: Slots, i: Index)
    requires WellFormed(dense, top, slots) && i >= RESERVED
    ensures WellFormed(dense, top, Cleared(slots, i))
    ensures Cells(Cleared(slots, i)) == Cells(slots) - {i}
    ensures IsFull(Cleared(slots, i)) == IsFull(slots)
    ensures !IsFull(slots) ==> Cleared(slots, i) == slots
  {
    if slots.Sparse? && IsFull(slots) {
      assert 0 in Cleared(slots, i).table;
    }
  }

  lemma ClearOne(storages: map<Act, Slots>, a: Act, slots: Slots, i: Index)
    requires a in storages && IsFull(slots) == IsFull(storages[a]) && Cells(slots) == Cells(storages[a]) - {i}
    requires !IsFull(slots) ==> slots == storages[a]
    ensures Live(storages[a := slots])
         == if a in Live(storages) then Live(storages)[a := Live(storages)[a] - {i}] else Live(storages)
    ensures Emptied(storages[a := slots]) == Emptied(storages)
  {
  }

  /** A storage with one slot filled, unless it is an ended one, or a list that has no such slot. */
  function Stored(slots: Slots, i: Index, cell: Cell): Slots {
    match slots
    case Dense(list) => if i < |list| then Dense(list[i := Filled(cell)]) else slots
    case Sparse(table) => if table != map[] then Sparse(table[i := Filled(cell)]) else slots
  }

  lemma StoredMeans(dense: bool, top: nat, slots: Slots, i: Index, cell: Cell)
    requires WellFormed(dense, top, slots) && RESERVED <= i < top
    requires dense && IsFull(slots) ==> i < |slots.list|
    ensures WellFormed(dense, top, Stored(slots, i, cell))
    ensures IsFull(Stored(slots, i, cell)) == IsFull(slots)
    ensures IsFull(slots) ==> Cells(Stored(slots, i, cell)) == Cells(slots)[i := cell]
    ensures !IsFull(slots) ==> Stored(slots, i, cell) == slots
  {
    if slots.Sparse? && IsFull(slots) {
      assert i in Stored(slots, i, cell).table;
    }
  }

  /** The storage of a new activation: a copy of the template, or the bookkeeping slots alone. */
  function NewSlots(dense: bool, top: nat): Slots {
    if dense then Dense(seq(top, i => if i < RESERVED then Bookkeeping else Unset))
    else Sparse(map[0 := Bookkeeping, 1 := Bookkeeping, 2 := Bookkeeping, 3 := Bookkeeping])
  }

  lemma NewSlotsMeans(dense: bool, top: nat)
    requires top >= RESERVED
    ensures WellFormed(dense, top, NewSlots(dense, top)) && IsFull(NewSlots(dense, top))
    ensures Cells(NewSlots(dense, top)) == map[]
  {
    assert !dense ==> 0 in NewSlots(dense, top).table;
  }

  /** Slots in use and free ones are above the reserved ones, and allocated. */
  predicate InRange(top: nat, free: seq<Index>, wrappers: map<Wrapper, SlotCode>) {
    && top >= RESERVED
    && (forall w :: w in wrappers ==> RESERVED <= wrappers[w].index < top)
    && (forall k :: 0 <= k < |free| ==> RESERVED <= free[k] < top)
  }

  /** Every activation that is current, or was before another, is one that was activated. */
  predicate Linked(current: map<Context, Act>, previous: map<Act, Option<Act>>) {
    && (forall s :: s in current ==> current[s] in previous)
    && (forall a :: a in previous && previous[a].Some? ==> previous[a].value in previous)
  }

  class BaseScope {
    const shared: bool
    const dense: bool
    var top: nat
    var free: seq<Index>
    var wrappers: map<Wrapper, SlotCode>
    var dead: set<Wrapper>
    var storages: map<Act, Slots>
    var current: map<Context, Act>
    var previous: map<Act, Option<Act>>

    /** The abstract machine's state. */
    function World(): World
      reads this
    {
      SlotAllocation.World(top, free, wrappers, dead, Live(storages), Emptied(storages), current, previous)
    }

    /**
     * Storages are well formed and slots are in range. What else every run keeps is kept of `World`,
     * which each method steps as the machine does.
     */
    ghost predicate Valid()
      reads this
    {
      && InRange(top, free, wrappers)
      && Linked(current, previous)
      && (forall a :: a in storages ==> WellFormed(dense, top, storages[a]))
    }

    constructor (shared: bool, dense: bool)
      ensures Valid() && World() == Initial && this.shared == shared && this.dense == dense
    {
      this.shared, this.dense := shared, dense;
      top, free, wrappers, dead := RESERVED, [], map[], {};
      storages, current, previous := map[], map[], map[];
      new;
      assert Live(storages) == map[] && Emptied(storages) == {};
    }

    /** Return the storage in the scope's variable, emptied or not. */
    function Held(c: Context): Option<Act>
      reads this
    {
      if Seat(shared, c) in current then Some(current[Seat(shared, c)]) else None
    }

    /** Pad a dense storage with the slots allocated since it was copied. */
    method Extend(a: Act)
      requires Valid() && a in storages && IsFull(storages[a])
      modifies this`storages
      ensures Valid() && World() == old(World()) && storages.Keys == old(storages).Keys
      ensures dense ==> |storages[a].list| == top
      ensures IsFull(storages[a])
    {
      var slots := storages[a];
      if slots.Dense? && |slots.list| < top {
        var padded := Dense(slots.list + seq(top - |slots.list|, _ => Unset));
        assert Cells(padded) == Cells(slots);
        UpdateStorage(storages, a, padded);
        assert Live(storages)[a := Cells(padded)] == Live(storages);
        storages := storages[a := padded];
      }
    }

    /** Find the live storage of a context, with every allocated slot; `None` if nothing is active. */
    method GetSlots(c: Context) returns (a: Option<Act>)
      requires Valid()
      modifies this`storages
      ensures Valid() && World() == old(World()) && storages.Keys == old(storages).Keys
      ensures a.Some? <==> Current(shared, World(), c).Some? && Current(shared, World(), c).value in World().live
      ensures a.Some? ==>
        a == Current(shared, World(), c) && a.value in storages && IsFull(storages[a.value])
        && (dense ==> |storages[a.value].list| == top)
    {
      a := Held(c);
      if a.None? || a.value !in storages || !IsFull(storages[a.value]) {
        return None;
      }
      Extend(a.value);
    }

    /** Take a free slot, or the next one; a live dense storage of this context grows with it. */
    method AllocateSlot(c: Context) returns (index: Index, reused: bool)
      requires Valid()
      modifies this`top, this`free, this`storages
      ensures (index, reused) == old(NextSlot(World()))
      ensures World() == old(World()).(
        top := if reused then old(top) else old(top) + 1,
        free := if reused then old(free)[..|old(free)| - 1] else old(free))
      ensures forall a :: a in storages ==> WellFormed(dense, top, storages[a])
    {
      if free != [] {
        index, reused := free[|free| - 1], true;
        free := free[..|free| - 1];
        return;
      }
      index, reused := top, false;
      top := top + 1;
      var active := Held(c);
      if dense && active.Some? && active.value in storages && IsFull(storages[active.value]) {
        var list := storages[active.value].list;
        var padded := Dense(list + seq(top - |list|, _ => Unset));
        assert Cells(padded) == Cells(storages[active.value]);
        UpdateStorage(storages, active.value, padded);
        assert Live(storages)[active.value := Cells(padded)] == Live(storages);
        storages := storages[active.value := padded];
      }
    }

    /** Compile a wrapper: give it a slot, boxed if it was used before in a context scope. */
    method CreateWrapper(w: Wrapper, c: Context)
      requires Valid() && w !in wrappers && w !in dead
      modifies this
      ensures Valid() && World() == old(CreateStep(shared, World(), w))
    {
      ghost var before := World();
      var index, reused := AllocateSlot(c);
      wrappers := wrappers[w := SlotCode(index, reused && !shared)];
      assert World() == CreateStep(shared, before, w);
    }

    /** Return a slot to the free pool, clearing it in the storage this context sees. */
    method ReleaseSlot(slot: Index, c: Context)
      requires Valid() && RESERVED <= slot < top
      modifies this`free, this`storages
      ensures forall a :: a in storages ==> WellFormed(dense, top, storages[a])
      ensures World() == old(World()).(
        free := old(free) + [slot],
        live := var seen := old(Current(shared, World(), c));
                if seen.Some? && seen.value in old(World()).live
                then old(World()).live[seen.value := old(World()).live[seen.value] - {slot}] else old(World()).live)
    {
      var active := Held(c);
      if active.Some? && active.value in storages {
        ClearedMeans(dense, top, storages[active.value], slot);
        ClearOne(storages, active.value, Cleared(storages[active.value], slot), slot);
        storages := storages[active.value := Cleared(storages[active.value], slot)];
      }
      free := free + [slot];
    }

    /** A wrapper dies: its slot goes back to the pool. */
    method DropWrapper(w: Wrapper, c: Context)
      requires Valid() && w in wrappers
      modifies this
      ensures Valid() && World() == old(DropStep(shared, World(), w, c))
    {
      var index := wrappers[w].index;
      ReleaseSlot(index, c);
      wrappers, dead := wrappers - {w}, dead + {w};
    }

    /** Activate the scope with a new storage, copied from the template or built anew. */
    method Activate(a: Act, c: Context)
      requires Valid() && Enabled(shared, World(), SlotAllocation.Activate(a, c)) && a !in storages
      modifies this
      ensures Valid() && World() == old(ActivateStep(shared, World(), a, c))
    {
      NewSlotsMeans(dense, top);
      var slots := NewSlots(dense, top);
      UpdateStorage(storages, a, slots);
      previous := previous[a := Held(c)];
      storages := storages[a := slots];
      current := current[Seat(shared, c) := a];
    }

    /** End the current activation: reset the variable and empty the storage. */
    method End(c: Context)
      requires Valid() && Enabled(shared, World(), SlotAllocation.End(c))
      modifies this
      ensures Valid() && World() == old(EndStep(shared, World(), c))
    {
      var a := current[Seat(shared, c)];
      if previous[a].Some? {
        current := current[Seat(shared, c) := previous[a].value];
      } else {
        current := current - {Seat(shared, c)};
      }
      var emptied := if dense then Dense([]) else Sparse(map[]);
      EmptyStorage(storages, a, emptied);
      storages := storages[a := emptied];
    }

    /**
     * Read one slot of a storage. `None` is the lookup error of a slot past the end of a list, or
     * of any slot of an emptied storage; a missing slot of a live dictionary reads as unset.
     */
    method Subscript(a: Act, i: Index) returns (entry: Option<Entry>)
      requires Valid() && a in storages && RESERVED <= i < top
      ensures entry.Some? <==> HasSlot(a, i)
      ensures entry.Some? ==> !entry.value.Bookkeeping?
      ensures entry.Some? ==>
        CellAt(World(), a, i) == if entry.value.Filled? then Some(entry.value.cell) else None
    {
      match storages[a]
      case Dense(list) =>
        entry := if i < |list| then Some(list[i]) else None;
      case Sparse(table) =>
        entry := if i in table then Some(table[i]) else if table != map[] then Some(Unset) else None;
    }

    /** Whether a slot can be assigned: a list must reach it, and does once the slot has been read. */
    predicate HasSlot(a: Act, i: Index)
      requires a in storages
      reads this
    {
      IsFull(storages[a]) && (storages[a].Dense? ==> i < |storages[a].list|)
    }

    /**
     * A call's first read: subscript the variable's storage, and fall back to `GetSlots` when that
     * raises. The result is the abstract read, whatever slots were allocated since activation. The
     * slot has then been found, so a store to it after a miss is not lost.
     */
    method ReadSlot(w: Wrapper, c: Context) returns (r: Reading)
      requires Valid() && w in wrappers
      modifies this`storages
      ensures Valid() && World() == old(World())
      ensures r == Read(shared, World(), w, c)
      ensures !r.Inactive? ==> Held(c).Some? && Held(c).value in storages && HasSlot(Held(c).value, wrappers[w].index)
    {
      var code := wrappers[w];
      var held := Held(c);
      var entry: Option<Entry> := None;
      if held.Some? && held.value in storages {
        entry := Subscript(held.value, code.index);
      }
      if entry.None? {
        var a := GetSlots(c);
        if a.None? {
          return Inactive;
        }
        entry := Subscript(a.value, code.index);
      }
      if !entry.value.Filled? {
        return Miss;
      }
      var cell := entry.value.cell;
      if code.owned {
        return if cell.Boxed? && cell.box == w then Hit(cell.value) else Miss;
      }
      return if cell.Raw? then Hit(cell.value) else Leak;
    }

    /**
     * Store a computed value in the storage its call holds. An ended activation is not refilled: an
     * emptied list raises, and an emptied dictionary is checked first. Only in a list that does not
     * reach the slot is a store lost, which raises too.
     */
    method StoreSlot(w: Wrapper, a: Act, payload: int)
      requires Valid() && w in wrappers && a in storages
      modifies this`storages
      ensures Valid()
      ensures old(HasSlot(a, wrappers[w].index)) ==> World() == old(StoreStep(World(), w, a, payload))
      ensures old(!HasSlot(a, wrappers[w].index)) ==> storages == old(storages) && World() == old(World())
      ensures old(!IsFull(storages[a])) ==> old(StoreStep(World(), w, a, payload)) == old(World())
    {
      var i, v := wrappers[w].index, Value(w, a, payload);
      var cell := if wrappers[w].owned then Boxed(w, v) else Raw(v);
      var slots := storages[a];
      if HasSlot(a, i) {
        StoredMeans(dense, top, slots, i, cell);
        UpdateStorage(storages, a, Stored(slots, i, cell));
      }
      match slots
      case Dense(list) =>
        if i < |list| {
          storages := storages[a := Dense(list[i := Filled(cell)])];
        }
      case Sparse(table) =>
        if table != map[] {
          storages := storages[a := Sparse(table[i := Filled(cell)])];
        }
    }
  }
}
