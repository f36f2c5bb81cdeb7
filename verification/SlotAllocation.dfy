/**
 * Slots: how they are allocated to cache wrappers, reused after a wrapper dies, and read and
 * stored in the activations of one scope.
 *
 * This module is the abstract machine. A storage is a map from slot to cell in which unset
 * slots are absent; `SlotStorage` shows that dense and sparse storages refine it.
 */
module SlotAllocation {
  import opened Options

  type Wrapper = nat
  type Act = nat
  type Context = nat
  type Index = nat

  /** Slots 0 to 3 hold an activation's own bookkeeping. */
  const RESERVED := 4

  /**
   * A cached value, tagged with the wrapper that stored it and the activation it was stored in.
   * No step looks at the tags: they are what the results are about.
   */
  datatype Value = Value(writer: Wrapper, act: Act, payload: int)

  /** A slot holds a bare value, or one boxed in the private class of the wrapper that boxed it. */
  datatype Cell = Raw(value: Value) | Boxed(box: Wrapper, value: Value)

  /** The slot compiled into a wrapper, and whether it boxes what it stores there. */
  datatype SlotCode = SlotCode(index: Index, owned: bool)

  /** One scope: its wrappers and free slots, its live storages, and what each context sees. */
  datatype World = World(
    top: nat,
    free: seq<Index>,
    wrappers: map<Wrapper, SlotCode>,
    dead: set<Wrapper>,
    live: map<Act, map<Index, Cell>>,
    ended: set<Act>,
    current: map<Context, Act>,
    previous: map<Act, Option<Act>>
  )

  const Initial := World(RESERVED, [], map[], {}, map[], {}, map[], map[])

  datatype Label =
    | Create(w: Wrapper)
    | Drop(w: Wrapper, c: Context)
    | Activate(a: Act, c: Context)
    | End(c: Context)
    | Fork(from: Context, into: Context)
    | Store(w: Wrapper, a: Act, payload: int)

  /** A shared scope's variable is the same in every context. */
  function Seat(shared: bool, c: Context): Context {
    if shared then 0 else c
  }

  function Current(shared: bool, s: World, c: Context): Option<Act> {
    if Seat(shared, c) in s.current then Some(s.current[Seat(shared, c)]) else None
  }

  /** The slot a new wrapper gets, and whether it was used by an earlier one. */
  function NextSlot(s: World): (Index, bool) {
    if s.free != [] then (s.free[|s.free| - 1], true) else (s.top, false)
  }

  function CreateStep(shared: bool, s: World, w: Wrapper): World {
    var (index, reused) := NextSlot(s);
    s.(top := if reused then s.top else s.top + 1,
       free := if reused then s.free[..|s.free| - 1] else s.free,
       wrappers := s.wrappers[w := SlotCode(index, reused && !shared)])
  }

  /** A dead wrapper's slot becomes free; it is cleared only in the storage its context sees. */
  function DropStep(shared: bool, s: World, w: Wrapper, c: Context): World
    requires w in s.wrappers
  {
    var i := s.wrappers[w].index;
    var seen := Current(shared, s, c);
    s.(free := s.free + [i], wrappers := s.wrappers - {w}, dead := s.dead + {w},
       live := if seen.Some? && seen.value in s.live then s.live[seen.value := s.live[seen.value] - {i}] else s.live)
  }

  function ActivateStep(shared: bool, s: World, a: Act, c: Context): World {
    s.(live := s.live[a := map[]],
       previous := s.previous[a := Current(shared, s, c)],
       current := s.current[Seat(shared, c) := a])
  }

  function EndStep(shared: bool, s: World, c: Context): World
    requires Current(shared, s, c).Some?
  {
    var a := Current(shared, s, c).value;
    s.(live := s.live - {a}, ended := s.ended + {a},
       current := if a in s.previous && s.previous[a].Some? then s.current[Seat(shared, c) := s.previous[a].value]
                  else s.current - {Seat(shared, c)})
  }

  function StoreStep(s: World, w: Wrapper, a: Act, payload: int): World
    requires w in s.wrappers
  {
    var v := Value(w, a, payload);
    var cell := if s.wrappers[w].owned then Boxed(w, v) else Raw(v);
    if a in s.live then s.(live := s.live[a := s.live[a][s.wrappers[w].index := cell]]) else s
  }

  predicate Enabled(shared: bool, s: World, l: Label) {
    match l
    case Create(w) => w !in s.wrappers && w !in s.dead
    case Drop(w, _) => w in s.wrappers
    case Activate(a, c) => a !in s.live && a !in s.ended && (shared ==> Current(shared, s, c).None?)
    case End(c) => Current(shared, s, c).Some? && Current(shared, s, c).value in s.live
    case Fork(from, into) => !shared && from in s.current && into !in s.current
    case Store(w, a, _) => w in s.wrappers && (a in s.live || a in s.ended)
  }

  function Step(shared: bool, s: World, l: Label): World
    requires Enabled(shared, s, l)
  {
    match l
    case Create(w) => CreateStep(shared, s, w)
    case Drop(w, c) => DropStep(shared, s, w, c)
    case Activate(a, c) => ActivateStep(shared, s, a, c)
    case End(c) => EndStep(shared, s, c)
    case Fork(from, into) => s.(current := s.current[into := s.current[from]])
    case Store(w, a, payload) => StoreStep(s, w, a, payload)
  }

  predicate Runs(shared: bool, s: World, labels: seq<Label>)
    decreases |labels|
  {
    labels == [] || (Enabled(shared, s, labels[0]) && Runs(shared, Step(shared, s, labels[0]), labels[1..]))
  }

  function Run(shared: bool, s: World, labels: seq<Label>): World
    requires Runs(shared, s, labels)
    decreases |labels|
  {
    if labels == [] then s else Run(shared, Step(shared, s, labels[0]), labels[1..])
  }

  /**
   * What a call of a wrapper reads first: nothing active, a miss, or a hit. A bare read of a slot
   * that holds somebody's box would hand the box itself to the caller.
   */
  datatype Reading = Inactive | Miss | Hit(value: Value) | Leak

  /** How a wrapper takes a cell: an owned slot only trusts its own boxes, another takes anything. */
  function Interpret(w: Wrapper, code: SlotCode, cell: Option<Cell>): Reading {
    if cell.None? then Miss
    else if !code.owned then if cell.value.Raw? then Hit(cell.value.value) else Leak
    else if cell.value.Boxed? && cell.value.box == w then Hit(cell.value.value)
    else Miss
  }

  function CellAt(s: World, a: Act, i: Index): Option<Cell> {
    if a in s.live && i in s.live[a] then Some(s.live[a][i]) else None
  }

  function Read(shared: bool, s: World, w: Wrapper, c: Context): Reading
    requires w in s.wrappers
  {
    var seen := Current(shared, s, c);
    if seen.None? || seen.value !in s.live then Inactive
    else Interpret(w, s.wrappers[w], CellAt(s, seen.value, s.wrappers[w].index))
  }

  // ----- what every step keeps -----

  type Wrappers = map<Wrapper, SlotCode>

  predicate Allocated(wrappers: Wrappers, i: Index) {
    exists w :: w in wrappers && wrappers[w].index == i
  }

  /** Slots of live wrappers and free slots partition the allocated slots above the reserved ones. */
  ghost predicate AllocInv(top: nat, free: seq<Index>, wrappers: Wrappers) {
    && top >= RESERVED
    && (forall w :: w in wrappers ==> RESERVED <= wrappers[w].index < top && wrappers[w].index !in free)
    && (forall w, x :: w in wrappers && x in wrappers && wrappers[w].index == wrappers[x].index ==> w == x)
    && (forall k :: 0 <= k < |free| ==> RESERVED <= free[k] < top)
    && (forall j, k :: 0 <= j < k < |free| ==> free[j] != free[k])
    && (forall i: Index :: RESERVED <= i < top ==> i in free || Allocated(wrappers, i))
  }

  /** A cell is in the activation it was stored in, and in the form its writer uses. */
  ghost predicate Tagged(wrappers: Wrappers, a: Act, cell: Cell) {
    && cell.value.act == a
    && (cell.Boxed? ==> cell.box == cell.value.writer)
    && (cell.value.writer in wrappers ==> cell.Boxed? == wrappers[cell.value.writer].owned)
  }

  /** In a shared scope a cell's writer is alive and still has the slot. */
  ghost predicate Fresh(wrappers: Wrappers, i: Index, cell: Cell) {
    cell.value.writer in wrappers && wrappers[cell.value.writer].index == i
  }

  ghost predicate CellsInv(shared: bool, top: nat, wrappers: Wrappers, a: Act, cells: map<Index, Cell>) {
    forall i :: i in cells ==>
      RESERVED <= i < top && Tagged(wrappers, a, cells[i]) && (shared ==> Fresh(wrappers, i, cells[i]))
  }

  /** A bare slot of a context scope has only ever been its one wrapper's. */
  ghost predicate BareInv(wrappers: Wrappers, cells: map<Index, Cell>) {
    forall w :: w in wrappers && !wrappers[w].owned && wrappers[w].index in cells ==>
      cells[wrappers[w].index].value.writer == w
  }

  ghost predicate LiveInv(shared: bool, top: nat, wrappers: Wrappers, live: map<Act, map<Index, Cell>>) {
    forall a :: a in live ==> CellsInv(shared, top, wrappers, a, live[a]) && BareInv(wrappers, live[a])
  }

  /** What is stored was stored by a wrapper that is or was. */
  ghost predicate WritersInv(live: map<Act, map<Index, Cell>>, known: set<Wrapper>) {
    forall a, i :: a in live && i in live[a] ==> live[a][i].value.writer in known
  }

  predicate Known(s: World, a: Act) {
    a in s.live || a in s.ended
  }

  ghost predicate ViewInv(shared: bool, s: World) {
    && s.live.Keys !! s.ended
    && (forall k :: k in s.current ==> Known(s, s.current[k]))
    && (forall a :: Known(s, a) ==> a in s.previous && (s.previous[a].Some? ==> Known(s, s.previous[a].value)))
    && (shared ==> forall a :: a in s.live ==> Current(shared, s, 0) == Some(a) && s.previous[a].None?)
  }

  /** Slots are partitioned, no wrapper is both live and dead, and a shared scope boxes nothing. */
  ghost predicate SlotsInv(shared: bool, top: nat, free: seq<Index>, wrappers: Wrappers, dead: set<Wrapper>) {
    && AllocInv(top, free, wrappers)
    && wrappers.Keys !! dead
    && (shared ==> forall w :: w in wrappers ==> !wrappers[w].owned)
  }

  ghost predicate Inv(shared: bool, s: World) {
    && SlotsInv(shared, s.top, s.free, s.wrappers, s.dead)
    && LiveInv(shared, s.top, s.wrappers, s.live)
    && WritersInv(s.live, s.wrappers.Keys + s.dead)
    && ViewInv(shared, s)
  }

  lemma CreateKeepsAlloc(top: nat, free: seq<Index>, wrappers: Wrappers, w: Wrapper, owned: bool)
    requires AllocInv(top, free, wrappers) && w !in wrappers
    ensures free != [] ==>
      AllocInv(top, free[..|free| - 1], wrappers[w := SlotCode(free[|free| - 1], owned)])
    ensures free == [] ==> AllocInv(top + 1, free, wrappers[w := SlotCode(top, owned)])
  {
    var index := if free != [] then free[|free| - 1] else top;
    var after := wrappers[w := SlotCode(index, owned)];
    var left := if free != [] then free[..|free| - 1] else free;
    assert free != [] ==> free == left + [index];
    forall i: Index | RESERVED <= i <= top && (i < top || free == []) ensures i in left || Allocated(after, i) {
      if i == index {
        assert after[w].index == i;
      } else if i !in free {
        var x :| x in wrappers && wrappers[x].index == i;
        assert after[x].index == i;
      }
    }
  }

  lemma DropKeepsAlloc(top: nat, free: seq<Index>, wrappers: Wrappers, w: Wrapper)
    requires AllocInv(top, free, wrappers) && w in wrappers
    ensures AllocInv(top, free + [wrappers[w].index], wrappers - {w})
  {
    var after := wrappers - {w};
    forall i: Index | RESERVED <= i < top ensures i in free + [wrappers[w].index] || Allocated(after, i) {
      if i !in free && i != wrappers[w].index {
        var x :| x in wrappers && wrappers[x].index == i;
        assert x in after && after[x].index == i;
      }
    }
  }

  lemma CreateKeepsLive(shared: bool, s: World, w: Wrapper)
    requires AllocInv(s.top, s.free, s.wrappers) && LiveInv(shared, s.top, s.wrappers, s.live)
    requires w !in s.wrappers && forall a, i :: a in s.live && i in s.live[a] ==> s.live[a][i].value.writer != w
    ensures var t := CreateStep(shared, s, w); LiveInv(shared, t.top, t.wrappers, s.live)
  {
    var t := CreateStep(shared, s, w);
    forall a | a in s.live ensures CellsInv(shared, t.top, t.wrappers, a, s.live[a]) && BareInv(t.wrappers, s.live[a]) {
      assert CellsInv(shared, s.top, s.wrappers, a, s.live[a]) && BareInv(s.wrappers, s.live[a]);
    }
  }

  lemma CreateKeepsSlots(shared: bool, s: World, w: Wrapper)
    requires SlotsInv(shared, s.top, s.free, s.wrappers, s.dead) && w !in s.wrappers && w !in s.dead
    ensures var t := CreateStep(shared, s, w); SlotsInv(shared, t.top, t.free, t.wrappers, t.dead)
  {
    CreateKeepsAlloc(s.top, s.free, s.wrappers, w, NextSlot(s).1 && !shared);
  }

  lemma WritersGrow(live: map<Act, map<Index, Cell>>, known: set<Wrapper>, more: set<Wrapper>)
    requires WritersInv(live, known) && known <= more
    ensures WritersInv(live, more)
  {
  }

  /** What contexts see depends on the activations, not on what is stored in them. */
  lemma SameView(shared: bool, s: World, t: World)
    requires ViewInv(shared, s) && t.live.Keys == s.live.Keys
    requires t.ended == s.ended && t.current == s.current && t.previous == s.previous
    ensures ViewInv(shared, t)
  {
    forall a ensures Known(t, a) <==> Known(s, a) {
    }
    assert Current(shared, t, 0) == Current(shared, s, 0);
  }

  lemma CreateKeepsInv(shared: bool, s: World, w: Wrapper)
    requires Inv(shared, s) && w !in s.wrappers && w !in s.dead
    ensures Inv(shared, CreateStep(shared, s, w))
  {
    var t := CreateStep(shared, s, w);
    CreateKeepsSlots(shared, s, w);
    CreateKeepsLive(shared, s, w);
    WritersGrow(s.live, s.wrappers.Keys + s.dead, t.wrappers.Keys + t.dead);
    SameView(shared, s, t);
  }

  lemma DropKeepsCells(shared: bool, top: nat, wrappers: Wrappers, w: Wrapper, a: Act, cells: map<Index, Cell>,
                       left: map<Index, Cell>)
    requires w in wrappers && CellsInv(shared, top, wrappers, a, cells) && BareInv(wrappers, cells)
    requires left == cells - {wrappers[w].index} || (!shared && left == cells)
    ensures CellsInv(shared, top, wrappers - {w}, a, left) && BareInv(wrappers - {w}, left)
  {
  }

  lemma DropKeepsLive(shared: bool, s: World, w: Wrapper, c: Context)
    requires AllocInv(s.top, s.free, s.wrappers) && LiveInv(shared, s.top, s.wrappers, s.live) && w in s.wrappers
    requires shared ==> forall a :: a in s.live ==> Current(shared, s, c) == Some(a)
    ensures LiveInv(shared, s.top, s.wrappers - {w}, DropStep(shared, s, w, c).live)
  {
    var t := DropStep(shared, s, w, c);
    forall a | a in t.live ensures CellsInv(shared, t.top, t.wrappers, a, t.live[a]) && BareInv(t.wrappers, t.live[a]) {
      DropKeepsCells(shared, s.top, s.wrappers, w, a, s.live[a], t.live[a]);
    }
  }

  lemma DropKeepsInv(shared: bool, s: World, w: Wrapper, c: Context)
    requires Inv(shared, s) && w in s.wrappers
    ensures Inv(shared, DropStep(shared, s, w, c))
  {
    DropKeepsSlots(shared, s, w, c);
    DropKeepsLive(shared, s, w, c);
    DropKeepsWriters(shared, s, w, c);
    SameView(shared, s, DropStep(shared, s, w, c));
  }

  lemma DropKeepsSlots(shared: bool, s: World, w: Wrapper, c: Context)
    requires SlotsInv(shared, s.top, s.free, s.wrappers, s.dead) && w in s.wrappers
    ensures var t := DropStep(shared, s, w, c); SlotsInv(shared, t.top, t.free, t.wrappers, t.dead)
  {
    DropKeepsAlloc(s.top, s.free, s.wrappers, w);
  }

  lemma DropKeepsWriters(shared: bool, s: World, w: Wrapper, c: Context)
    requires WritersInv(s.live, s.wrappers.Keys + s.dead) && w in s.wrappers
    ensures var t := DropStep(shared, s, w, c); WritersInv(t.live, t.wrappers.Keys + t.dead)
  {
    var t := DropStep(shared, s, w, c);
    forall a, i | a in t.live && i in t.live[a] ensures t.live[a][i].value.writer in t.wrappers.Keys + t.dead {
      assert i in s.live[a] && t.live[a][i] == s.live[a][i];
    }
  }

  lemma StoreKeepsLive(shared: bool, s: World, w: Wrapper, a: Act, payload: int)
    requires AllocInv(s.top, s.free, s.wrappers) && LiveInv(shared, s.top, s.wrappers, s.live) && w in s.wrappers
    ensures LiveInv(shared, s.top, s.wrappers, StoreStep(s, w, a, payload).live)
  {
    var t := StoreStep(s, w, a, payload);
    forall b | b in t.live ensures CellsInv(shared, t.top, t.wrappers, b, t.live[b]) && BareInv(t.wrappers, t.live[b]) {
      assert CellsInv(shared, s.top, s.wrappers, b, s.live[b]) && BareInv(s.wrappers, s.live[b]);
    }
  }

  lemma StoreKeepsWriters(s: World, w: Wrapper, a: Act, payload: int)
    requires WritersInv(s.live, s.wrappers.Keys + s.dead) && w in s.wrappers
    ensures var t := StoreStep(s, w, a, payload); WritersInv(t.live, t.wrappers.Keys + t.dead)
  {
  }

  lemma StoreKeepsInv(shared: bool, s: World, w: Wrapper, a: Act, payload: int)
    requires Inv(shared, s) && w in s.wrappers
    ensures Inv(shared, StoreStep(s, w, a, payload))
  {
    StoreKeepsLive(shared, s, w, a, payload);
    StoreKeepsWriters(s, w, a, payload);
    SameView(shared, s, StoreStep(s, w, a, payload));
  }

  lemma ActivateKeepsView(shared: bool, s: World, a: Act, c: Context)
    requires ViewInv(shared, s) && Enabled(shared, s, Activate(a, c))
    ensures ViewInv(shared, ActivateStep(shared, s, a, c))
  {
    var t := ActivateStep(shared, s, a, c);
    forall b ensures Known(t, b) <==> Known(s, b) || b == a {
    }
  }

  lemma ActivateKeepsInv(shared: bool, s: World, a: Act, c: Context)
    requires Inv(shared, s) && Enabled(shared, s, Activate(a, c))
    ensures Inv(shared, ActivateStep(shared, s, a, c))
  {
    assert LiveInv(shared, s.top, s.wrappers, s.live[a := map[]]);
    assert WritersInv(s.live[a := map[]], s.wrappers.Keys + s.dead);
    ActivateKeepsView(shared, s, a, c);
  }

  lemma EndKeepsView(shared: bool, s: World, c: Context)
    requires ViewInv(shared, s) && Enabled(shared, s, End(c))
    ensures ViewInv(shared, EndStep(shared, s, c))
  {
    var t := EndStep(shared, s, c);
    forall b ensures Known(t, b) <==> Known(s, b) {
    }
  }

  lemma EndKeepsInv(shared: bool, s: World, c: Context)
    requires Inv(shared, s) && Enabled(shared, s, End(c))
    ensures Inv(shared, EndStep(shared, s, c))
  {
    var left := s.live - {Current(shared, s, c).value};
    assert LiveInv(shared, s.top, s.wrappers, left);
    assert WritersInv(left, s.wrappers.Keys + s.dead);
    EndKeepsView(shared, s, c);
  }

  lemma StepKeepsInv(shared: bool, s: World, l: Label)
    requires Inv(shared, s) && Enabled(shared, s, l)
    ensures Inv(shared, Step(shared, s, l))
  {
    match l
    case Create(w) => CreateKeepsInv(shared, s, w);
    case Drop(w, c) => DropKeepsInv(shared, s, w, c);
    case Store(w, a, payload) => StoreKeepsInv(shared, s, w, a, payload);
    case Activate(a, c) => ActivateKeepsInv(shared, s, a, c);
    case End(c) => EndKeepsInv(shared, s, c);
    case Fork(from, into) =>
  }

  lemma {:induction false} RunKeepsInv(shared: bool, s: World, labels: seq<Label>)
    requires Inv(shared, s) && Runs(shared, s, labels)
    ensures Inv(shared, Run(shared, s, labels))
    decreases |labels|
  {
    if labels != [] {
      StepKeepsInv(shared, s, labels[0]);
      RunKeepsInv(shared, Step(shared, s, labels[0]), labels[1..]);
    }
  }

  // ----- main results, over every run -----

  /**
   * Every hit is the wrapper's own: it was stored by the same wrapper, in the activation the call
   * runs in, whatever wrappers died and whichever slots were reused. No box ever leaks.
   */
  lemma HitsAreOwn(shared: bool, labels: seq<Label>, w: Wrapper, c: Context)
    requires Runs(shared, Initial, labels) && w in Run(shared, Initial, labels).wrappers
    ensures var s := Run(shared, Initial, labels);
            match Read(shared, s, w, c)
            case Leak => false
            case Hit(v) => v.writer == w && Some(v.act) == Current(shared, s, c) && v.act in s.live
            case _ => true
  {
    var s := Run(shared, Initial, labels);
    RunKeepsInv(shared, Initial, labels);
    var seen := Current(shared, s, c);
    if seen.Some? && seen.value in s.live {
      var a, i := seen.value, s.wrappers[w].index;
      assert CellsInv(shared, s.top, s.wrappers, a, s.live[a]) && BareInv(s.wrappers, s.live[a]);
      if i in s.live[a] && shared {
        assert Fresh(s.wrappers, i, s.live[a][i]);
      }
    }
  }

  /** Live wrappers' slots and the free slots are the allocated slots, each exactly once. */
  lemma SlotsPartition(shared: bool, labels: seq<Label>, i: Index)
    requires Runs(shared, Initial, labels)
    ensures var s := Run(shared, Initial, labels);
            && (RESERVED <= i < s.top <==> i in s.free || Allocated(s.wrappers, i))
            && !(i in s.free && Allocated(s.wrappers, i))
            && multiset(s.free)[i] <= 1
            && forall w, x ::
                 w in s.wrappers && x in s.wrappers && s.wrappers[w].index == i == s.wrappers[x].index ==> w == x
  {
    var s := Run(shared, Initial, labels);
    RunKeepsInv(shared, Initial, labels);
    OnceEach(s.free, i);
  }

  lemma {:induction false} OnceEach(s: seq<Index>, i: Index)
    requires forall j, k :: 0 <= j < k < |s| ==> s[j] != s[k]
    ensures multiset(s)[i] <= 1
  {
    if s != [] {
      OnceEach(s[1..], i);
      assert s == [s[0]] + s[1..];
      assert s[0] !in s[1..];
    }
  }

  lemma {:induction false} EndedStays(shared: bool, s: World, labels: seq<Label>, a: Act)
    requires Inv(shared, s) && Runs(shared, s, labels) && a in s.ended
    ensures a in Run(shared, s, labels).ended && a !in Run(shared, s, labels).live
    decreases |labels|
  {
    if labels != [] {
      StepKeepsInv(shared, s, labels[0]);
      EndedStays(shared, Step(shared, s, labels[0]), labels[1..], a);
    }
  }

  predicate Replaces(l: Label, w: Wrapper, a: Act) {
    (l.Store? && l.w == w && l.a == a) || (l.Drop? && l.w == w)
  }

  lemma StepKeepsStored(shared: bool, s: World, l: Label, w: Wrapper, a: Act)
    requires AllocInv(s.top, s.free, s.wrappers) && s.live.Keys !! s.ended
    requires Enabled(shared, s, l) && w in s.wrappers && a in s.live && !Replaces(l, w, a)
    ensures var t := Step(shared, s, l);
            && w in t.wrappers && t.wrappers[w] == s.wrappers[w]
            && (a in t.live ==> CellAt(t, a, s.wrappers[w].index) == CellAt(s, a, s.wrappers[w].index))
            && (a !in t.live ==> a in t.ended)
  {
    match l
    case Drop(x, c) => assert s.wrappers[x].index != s.wrappers[w].index;
    case Store(x, b, _) => assert b == a ==> s.wrappers[x].index != s.wrappers[w].index;
    case _ =>
  }

  /**
   * Stores last. What a wrapper stored in an activation is what it reads there, whatever other
   * wrappers are created, die, or reuse slots, until it stores again, dies, or the activation ends.
   */
  lemma {:induction false} StoredStays(shared: bool, s: World, labels: seq<Label>, w: Wrapper, a: Act)
    requires Inv(shared, s) && Runs(shared, s, labels) && w in s.wrappers && a in s.live
    requires forall l :: l in labels ==> !Replaces(l, w, a)
    requires a in Run(shared, s, labels).live
    ensures var t := Run(shared, s, labels);
            && w in t.wrappers && t.wrappers[w] == s.wrappers[w]
            && CellAt(t, a, s.wrappers[w].index) == CellAt(s, a, s.wrappers[w].index)
    decreases |labels|
  {
    if labels != [] {
      var t := Step(shared, s, labels[0]);
      StepKeepsInv(shared, s, labels[0]);
      StepKeepsStored(shared, s, labels[0], w, a);
      if a !in t.live {
        EndedStays(shared, t, labels[1..], a);
      }
      StoredStays(shared, t, labels[1..], w, a);
    }
  }

  /** A store is read back, by every context that sees the activation, over any run in between. */
  lemma ReadAfterStore(shared: bool, labels: seq<Label>, w: Wrapper, a: Act, payload: int, more: seq<Label>,
                       s: World, t: World, c: Context)
    requires Runs(shared, Initial, labels) && s == Run(shared, Initial, labels)
    requires Enabled(shared, s, Store(w, a, payload)) && a in s.live
    requires Runs(shared, StoreStep(s, w, a, payload), more) && t == Run(shared, StoreStep(s, w, a, payload), more)
    requires forall l :: l in more ==> !Replaces(l, w, a)
    requires Current(shared, t, c) == Some(a) && a in t.live
    ensures w in t.wrappers && Read(shared, t, w, c) == Hit(Value(w, a, payload))
  {
    RunKeepsInv(shared, Initial, labels);
    StoreKeepsInv(shared, s, w, a, payload);
    StoredStays(shared, StoreStep(s, w, a, payload), more, w, a);
  }
}
