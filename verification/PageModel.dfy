/**
 The state behind `malloc_page` and `mfree_page`: two pools of frames, the bitmaps of virtual pages of
 the kernel and of the running process, and the page tables; and the agreement between them.
 */
module PageModel {
  import opened Common
  import opened Paging
  import opened Bitmap

  const K_HEAP_START := 0xc0100000
  const USER_VADDR_START := 0x8048000
  const USER_END := 0xc0000000

  datatype PoolFlag = PfKernel | PfUser

  /** `struct pool`: frame `j` starts at `start + 4096 * j`. */
  datatype Pool = Pool(start: int, bits: seq<bool>)

  /** `struct virtual_addr`: page `i` starts at `start + 4096 * i`.  The last bit is the guard bit
      behind the bitmap, which searches for several pages run over. */
  datatype Window = Window(start: int, bits: seq<bool>)

  datatype Pages = Pages(m: Mem, cr3: int, kpool: Pool, upool: Pool, kwin: Window, uwin: Window)

  function Frame(pool: Pool, j: int): int {
    pool.start + 4096 * j
  }

  function Page(w: Window, i: int): int {
    w.start + 4096 * i
  }

  function Win(p: Pages, pf: PoolFlag): Window {
    if pf.PfKernel? then p.kwin else p.uwin
  }

  function Other(pf: PoolFlag): PoolFlag {
    if pf.PfKernel? then PfUser else PfKernel
  }

  function PoolFor(p: Pages, pf: PoolFlag): Pool {
    if pf.PfKernel? then p.kpool else p.upool
  }

  function SetWin(p: Pages, pf: PoolFlag, w: Window): Pages {
    if pf.PfKernel? then p.(kwin := w) else p.(uwin := w)
  }

  function SetPool(p: Pages, pf: PoolFlag, pool: Pool): Pages {
    if pf.PfKernel? then p.(kpool := pool) else p.(upool := pool)
  }

  // ---------------------------------------------------------------------------------------
  // Steps
  // ---------------------------------------------------------------------------------------

  /** `palloc`: the lowest free frame; a full pool stops at the assertion of `bitmap_scan`. */
  function Palloc(pool: Pool): (r: Access<(Pool, int)>) {
    match LowestRun(pool.bits, 1, 0)
    case Some(j) => Done((pool.(bits := pool.bits[j := true]), Frame(pool, j)))
    case None => Panic
  }

  /** `pfree`: the pool is chosen by comparing with the start of the user pool. */
  function Pfree(p: Pages, addr: int): (r: Access<Pages>) {
    var pf := if addr >= p.upool.start then PfUser else PfKernel;
    var pool := PoolFor(p, pf);
    var j := (addr - pool.start) / 4096;
    if 0 <= j < |pool.bits| then Done(SetPool(p, pf, pool.(bits := pool.bits[j := false]))) else Fault
  }

  /** `page_table_add`, with the frame of a new table from the kernel pool. */
  function AddPage(p: Pages, v: int, frame: int): (r: Access<Pages>) {
    var pde := Load(p.m, p.cr3, PdePtr(v));
    if !pde.Done? then Fault
    else if Present(pde.value) then
      match PageTableAdd(p.m, p.cr3, v, frame, 0)
      case Done(m) => Done(p.(m := m))
      case Panic => Panic
      case Fault => Fault
    else
      match Palloc(p.kpool)
      case Done((pool, table)) =>
        (match PageTableAdd(p.m, p.cr3, v, frame, table)
         case Done(m) => Done(p.(m := m, kpool := pool))
         case Panic => Panic
         case Fault => Fault)
      case Panic => Panic
      case Fault => Fault
  }

  /** One turn of the loop of `malloc_page`. */
  function MapStep(p: Pages, pf: PoolFlag, v: int): (r: Access<Pages>) {
    match Palloc(PoolFor(p, pf))
    case Done((pool, frame)) => AddPage(SetPool(p, pf, pool), v, frame)
    case Panic => Panic
    case Fault => Fault
  }

  /** The assertion of `mfree_page` on the frames of a pool. */
  predicate FrameAssert(p: Pages, user: bool, addr: int) {
    addr % 4096 == 0 && (if user then addr >= p.upool.start else p.kpool.start <= addr < p.upool.start)
  }

  /** One turn of the loop of `mfree_page`. */
  function UnmapStep(p: Pages, user: bool, v: int): (r: Access<Pages>) {
    var addr := AddrV2P(p.m, p.cr3, v);
    if !addr.Done? then Fault
    else if !FrameAssert(p, user, addr.value) then Panic
    else
      var q := Pfree(p, addr.value);
      if !q.Done? then Fault
      else
        match PteRemove(q.value.m, p.cr3, v)
        case Done(m) => Done(q.value.(m := m))
        case Panic => Panic
        case Fault => Fault
  }

  // ---------------------------------------------------------------------------------------
  // Agreement
  // ---------------------------------------------------------------------------------------

  /** The mapped pages among the first `n` of a window, with their frames, as the hardware sees them. */
  ghost function View(m: Mem, cr3: int, w: Window, n: nat): (view: map<int, int>) {
    map i | 0 <= i < n && Walk(m, cr3, Page(w, i)).Some? :: Walk(m, cr3, Page(w, i)).value
  }

  /** What the agreement is relative to: how many bits of each bitmap stand for pages (with or without
      the guard bit), and the frames in use for tables and by other address spaces. */
  datatype Shape = Shape(kspan: nat, uspan: nat, reserved: set<int>)

  function Span(sh: Shape, pf: PoolFlag): nat {
    if pf.PfKernel? then sh.kspan else sh.uspan
  }

  ghost function ViewFor(p: Pages, sh: Shape, pf: PoolFlag): map<int, int> {
    View(p.m, p.cr3, Win(p, pf), Span(sh, pf))
  }

  /** Alignment and order of directory, pools and windows.  Without its guard bit the window of a process
      may reach up to 0xc0000000. */
  predicate Geometry(p: Pages) {
    && 0 <= p.cr3 && p.cr3 % 4096 == 0
    && 0x102000 <= p.kpool.start && p.kpool.start % 4096 == 0
    && Frame(p.kpool, |p.kpool.bits|) <= p.upool.start && p.upool.start % 4096 == 0
    && 0 <= p.uwin.start && p.uwin.start % 4096 == 0 && Page(p.uwin, |p.uwin.bits|) <= 0xc0001000
    && 0xc0001000 <= p.kwin.start && p.kwin.start % 4096 == 0 && Page(p.kwin, |p.kwin.bits|) <= 0xffc00000
  }

  /** `v` is a page of one of the windows. */
  ghost predicate WindowPage(p: Pages, v: int) {
    && v % 4096 == 0
    && (p.kwin.start <= v < Page(p.kwin, |p.kwin.bits|) || p.uwin.start <= v < Page(p.uwin, |p.uwin.bits|))
  }

  predicate InPool(pool: Pool, f: int) {
    pool.start <= f < Frame(pool, |pool.bits|) && (f - pool.start) % 4096 == 0
  }

  /** Pages of the windows under different directory entries have different tables. */
  ghost predicate TablesApart(p: Pages) {
    forall v, w ::
      WindowPage(p, v) && WindowPage(p, w) && Dir(v) != Dir(w)
      && Present(Pde(p.m, p.cr3, v)) && Present(Pde(p.m, p.cr3, w))
      ==> Base(Pde(p.m, p.cr3, v)) != Base(Pde(p.m, p.cr3, w))
  }

  /** Only the last entry points at the directory, and the frames of the tables are reserved or lie outside
      the pools. */
  ghost predicate TablesKept(p: Pages, reserved: set<int>) {
    && (forall k :: 0 <= k < 1023 && Present(Entry(p.m, p.cr3, k)) ==> Base(Entry(p.m, p.cr3, k)) != p.cr3)
    && (forall k :: 0 <= k < 1023 && Present(Entry(p.m, p.cr3, k)) ==>
          var f := Base(Entry(p.m, p.cr3, k)); InPool(p.kpool, f) || InPool(p.upool, f) ==> f in reserved)
  }

  /** `f` is the frame of a table that the directory points at. */
  ghost predicate IsTable(m: Mem, cr3: int, f: int) {
    exists k :: 0 <= k < 1023 && Present(Entry(m, cr3, k)) && Base(Entry(m, cr3, k)) == f
  }

  ghost predicate DirOk(p: Pages, reserved: set<int>) {
    SelfMapped(p.m, p.cr3) && TablesApart(p) && TablesKept(p, reserved)
  }

  /** The page behind the pages that the bitmap stands for is mapped. */
  ghost predicate Beyond(m: Mem, cr3: int, w: Window, span: nat) {
    Walk(m, cr3, Page(w, span)).Some?
  }

  /** A set bit stands for a mapped page, except for the pages `lo` to `hi`, which are claimed but not
      mapped.  A guard bit that does not stand for a page is set, or its page is mapped by someone else. */
  ghost predicate BitsOk(w: Window, span: nat, view: map<int, int>, beyond: bool, lo: int, hi: int) {
    && |w.bits| > 0 && (span == |w.bits| || (span == |w.bits| - 1 && (w.bits[span] || beyond)))
    && 0 <= lo <= hi <= span
    && (forall i :: lo <= i < hi ==> w.bits[i])
    && (forall i :: 0 <= i < span ==> (i in view <==> w.bits[i] && !(lo <= i < hi)))
  }

  ghost predicate Used(view: map<int, int>, f: int) {
    exists i :: i in view && view[i] == f
  }

  /** Different pages have different frames of the pool, and a bit of the pool is set iff its frame is
      mapped or reserved, never both. */
  ghost predicate PoolOk(pool: Pool, view: map<int, int>, reserved: set<int>) {
    && (forall i :: i in view ==> InPool(pool, view[i]) && view[i] !in reserved)
    && (forall i, j :: i in view && j in view && view[i] == view[j] ==> i == j)
    && (forall j :: 0 <= j < |pool.bits| ==>
          (pool.bits[j] <==> Used(view, Frame(pool, j)) || Frame(pool, j) in reserved))
  }

  /** The directory is not in the user pool; in the kernel pool it is in use, for other address spaces or as
      the page of the kernel window through which `create_page_dir` made it. */
  ghost predicate DirTaken(p: Pages, kview: map<int, int>, reserved: set<int>) {
    !InPool(p.upool, p.cr3) && (InPool(p.kpool, p.cr3) ==> p.cr3 in reserved || Used(kview, p.cr3))
  }

  /** The bits of window `pf` agree, with pages `lo` to `hi` claimed but not mapped. */
  ghost predicate WindowOk(p: Pages, sh: Shape, pf: PoolFlag, lo: int, hi: int) {
    var w, span := Win(p, pf), Span(sh, pf);
    BitsOk(w, span, ViewFor(p, sh, pf), Beyond(p.m, p.cr3, w, span), lo, hi)
  }

  /** The agreement while pages `lo` to `hi` of window `pf` are claimed but not mapped. */
  ghost predicate Agree(p: Pages, sh: Shape, pf: PoolFlag, lo: int, hi: int) {
    && Geometry(p)
    && DirOk(p, sh.reserved)
    && DirTaken(p, ViewFor(p, sh, PfKernel), sh.reserved)
    && WindowOk(p, sh, pf, lo, hi)
    && WindowOk(p, sh, Other(pf), 0, 0)
    && PoolOk(p.kpool, ViewFor(p, sh, PfKernel), sh.reserved)
    && PoolOk(p.upool, ViewFor(p, sh, PfUser), sh.reserved)
  }

  /** A virtual bit is set iff the hardware maps its page; different pages have different frames; a
      pool bit is set iff its frame is mapped or reserved. */
  ghost predicate Agreement(p: Pages, sh: Shape) {
    Agree(p, sh, PfKernel, 0, 0)
  }

  // ---------------------------------------------------------------------------------------
  // Pools
  // ---------------------------------------------------------------------------------------

  lemma FrameIndex(pool: Pool, f: int)
    ensures InPool(pool, f) <==> 0 <= (f - pool.start) / 4096 < |pool.bits| && f == Frame(pool, (f - pool.start) / 4096)
  {
  }

  lemma FrameInPool(pool: Pool, j: int)
    requires 0 <= j < |pool.bits|
    ensures InPool(pool, Frame(pool, j)) && (Frame(pool, j) - pool.start) / 4096 == j
  {
  }

  /** Taking a frame and mapping page `i` to it. */
  lemma PoolMap(pool: Pool, view: map<int, int>, reserved: set<int>, i: int, j: nat)
    requires PoolOk(pool, view, reserved) && i !in view && j < |pool.bits| && !pool.bits[j]
    ensures PoolOk(pool.(bits := pool.bits[j := true]), view[i := Frame(pool, j)], reserved)
  {
    var pool' := pool.(bits := pool.bits[j := true]);
    var view' := view[i := Frame(pool, j)];
    FrameInPool(pool, j);
    assert !Used(view, Frame(pool, j)) && Frame(pool, j) !in reserved;
    forall k | 0 <= k < |pool.bits|
      ensures Used(view', Frame(pool, k)) <==> Used(view, Frame(pool, k)) || k == j
    {
      if Used(view, Frame(pool, k)) {
        var x :| x in view && view[x] == Frame(pool, k);
        assert x in view' && view'[x] == Frame(pool, k);
      }
      if k == j { assert i in view' && view'[i] == Frame(pool, k); }
    }
    assert forall f :: InPool(pool', f) <==> InPool(pool, f);
    hide InPool, Used;
  }

  /** Taking a frame for a table. */
  lemma PoolReserve(pool: Pool, view: map<int, int>, reserved: set<int>, j: nat)
    requires PoolOk(pool, view, reserved) && j < |pool.bits| && !pool.bits[j]
    ensures PoolOk(pool.(bits := pool.bits[j := true]), view, reserved + {Frame(pool, j)})
  {
    var pool' := pool.(bits := pool.bits[j := true]);
    assert !Used(view, Frame(pool, j));
    assert forall f :: InPool(pool', f) <==> InPool(pool, f);
    hide InPool;
  }

  /** A frame of another pool does not matter. */
  lemma PoolForeign(pool: Pool, view: map<int, int>, reserved: set<int>, f: int)
    requires PoolOk(pool, view, reserved) && !InPool(pool, f)
    ensures PoolOk(pool, view, reserved + {f})
  {
    forall j | 0 <= j < |pool.bits| ensures Frame(pool, j) != f { FrameInPool(pool, j); }
    hide InPool, Used;
  }

  /** Giving back the frame of page `i`. */
  lemma PoolUnmap(pool: Pool, view: map<int, int>, reserved: set<int>, i: int)
    requires PoolOk(pool, view, reserved) && i in view
    ensures var j := (view[i] - pool.start) / 4096;
            0 <= j < |pool.bits| && PoolOk(pool.(bits := pool.bits[j := false]), view - {i}, reserved)
  {
    var j := (view[i] - pool.start) / 4096;
    FrameIndex(pool, view[i]);
    var pool' := pool.(bits := pool.bits[j := false]);
    var view' := view - {i};
    forall k | 0 <= k < |pool.bits|
      ensures Used(view', Frame(pool, k)) <==> Used(view, Frame(pool, k)) && k != j
    {
      if Used(view, Frame(pool, k)) && k != j {
        var x :| x in view && view[x] == Frame(pool, k);
        assert x in view' && view'[x] == Frame(pool, k);
      }
      if Used(view', Frame(pool, k)) {
        var x :| x in view' && view'[x] == Frame(pool, k);
        assert x in view && x != i;
      }
    }
    assert forall f :: InPool(pool', f) <==> InPool(pool, f);
    hide InPool, Used;
  }

  // ---------------------------------------------------------------------------------------
  // Translations of window pages
  // ---------------------------------------------------------------------------------------

  lemma WindowIndices(p: Pages, v: int)
    requires Geometry(p) && WindowPage(p, v)
    ensures Addr(v) && 0 <= Dir(v) < 1023 && 0 <= Tab(v) < 1024 && Off(v) == 0
    ensures v == 0x400000 * Dir(v) + 4096 * Tab(v)
  {
  }

  lemma PageIsWindowPage(p: Pages, pf: PoolFlag, i: int)
    requires Geometry(p) && 0 <= i < |Win(p, pf).bits|
    ensures WindowPage(p, Page(Win(p, pf), i))
  {
    PageAligned(Win(p, pf), i);
  }

  lemma PageAligned(w: Window, i: int)
    requires w.start % 4096 == 0
    ensures Page(w, i) % 4096 == 0
  {
    assert Page(w, i) == 4096 * (w.start / 4096 + i);
  }

  /** Two pages of the windows never share an entry, even where tables are shared elsewhere. */
  lemma SlotUnique(p: Pages, v: int, w: int)
    requires Geometry(p) && TablesApart(p) && WindowPage(p, v) && WindowPage(p, w)
    requires Present(Pde(p.m, p.cr3, v)) && SameSlot(p.m, p.cr3, v, w)
    ensures v == w
  {
    WindowIndices(p, v);
    WindowIndices(p, w);
    BaseAligned(Pde(p.m, p.cr3, v));
    BaseAligned(Pde(p.m, p.cr3, w));
    hide Dir, Tab, Off, Base, Present, Pde, WindowPage, Geometry;
    Apart(Base(Pde(p.m, p.cr3, v)), Tab(v), Base(Pde(p.m, p.cr3, w)), Tab(w));
  }

  /** Under the agreement the table of a window page is never the directory. */
  lemma WindowTable(p: Pages, reserved: set<int>, v: int)
    requires Geometry(p) && DirOk(p, reserved) && WindowPage(p, v)
    ensures Addr(v) && 0 <= Dir(v) < 1023
    ensures Present(Pde(p.m, p.cr3, v)) ==> Base(Pde(p.m, p.cr3, v)) != p.cr3
  {
    WindowIndices(p, v);
    hide Dir, Tab, Off, Base, Present, Geometry, WindowPage, TablesApart;
  }

  /** Mapping a window page to a frame: what changes in the directory and in the windows. */
  ghost predicate Mapped(p: Pages, m': Mem, v: int, to: Option<int>, table: Option<int>) {
    && (forall w :: WindowPage(p, w) ==> Walk(m', p.cr3, w) == if w == v then to else Walk(p.m, p.cr3, w))
    && (forall k :: 0 <= k < 1024 ==>
          Entry(m', p.cr3, k) == if table.Some? && k == Dir(v) then table.value + 7 else Entry(p.m, p.cr3, k))
  }

  /** The word at `a` is entry `k` of the directory or in the table behind it. */
  ghost predicate Touches(m: Mem, cr3: int, k: int, a: int) {
    a == cr3 + 4 * k || (Present(Entry(m, cr3, k)) && Base(Entry(m, cr3, k)) <= a < Base(Entry(m, cr3, k)) + 4096)
  }

  /** Nothing but directory entry `k` and the table behind it has been written. */
  ghost predicate Touched(m: Mem, m': Mem, cr3: int, k: int) {
    forall a :: Word(m', a) == Word(m, a) || Touches(m', cr3, k, a)
  }

  /** A store into the table of `v`. */
  lemma TouchedEntry(m: Mem, cr3: int, v: int, x: int)
    requires Addr(v) && Present(Pde(m, cr3, v))
    requires Entry(m[PteAddr(m, cr3, v) := x], cr3, Dir(v)) == Entry(m, cr3, Dir(v))
    ensures Touched(m, m[PteAddr(m, cr3, v) := x], cr3, Dir(v))
  {
    assert 0 <= Tab(v) < 1024;
    hide Dir, Tab, Base, Present;
  }

  /** A new table for `v`. */
  lemma TouchedTable(m: Mem, cr3: int, v: int, frame: int, table: int)
    requires SelfMapped(m, cr3) && Addr(v) && table % 4096 == 0 && table != cr3
    ensures Touched(m, WithTable(m, cr3, v, frame, table), cr3, Dir(v))
  {
    assert 0 <= Tab(v) < 1024 && 0 <= Dir(v) < 1024;
    FlagsOf(table);
    WithTableWords(m, cr3, v, frame, table);
    WithTableEntries(m, cr3, v, frame, table);
    hide Dir, Tab, Base, Present, WithTable, SelfMapped;
  }

  lemma MapTranslates(p: Pages, reserved: set<int>, v: int, frame: int, table: int)
    requires Geometry(p) && DirOk(p, reserved) && WindowPage(p, v)
    requires Present(Pde(p.m, p.cr3, v)) && Walk(p.m, p.cr3, v) == None && frame % 4096 == 0
    ensures PageTableAdd(p.m, p.cr3, v, frame, table).Done?
    ensures Mapped(p, PageTableAdd(p.m, p.cr3, v, frame, table).value, v, Some(frame), None)
    ensures Touched(p.m, PageTableAdd(p.m, p.cr3, v, frame, table).value, p.cr3, Dir(v))
  {
    hide Dir, Tab, Off, Base, Present, Geometry, WindowPage, PageTableAdd, TablesKept, TablesApart, SelfMapped, Touched;
    WindowTable(p, reserved, v);
    AddTranslates(p.m, p.cr3, v, frame, table);
    AddEffect(p.m, p.cr3, v, frame, table);
    StoreInTable(p.m, p.cr3, v, Flags(frame));
    TouchedEntry(p.m, p.cr3, v, Flags(frame));
    hide Walk;
    var m' := PageTableAdd(p.m, p.cr3, v, frame, table).value;
    forall w | WindowPage(p, w)
      ensures Walk(m', p.cr3, w) == if w == v then Some(frame) else Walk(p.m, p.cr3, w)
    {
      WindowIndices(p, w);
      if SameSlot(p.m, p.cr3, v, w) { SlotUnique(p, v, w); }
      if w == v { SlotSelf(p.m, p.cr3, v); }
    }
  }

  lemma MapTableWalk(p: Pages, reserved: set<int>, v: int, frame: int, table: int, w: int)
    requires Geometry(p) && DirOk(p, reserved) && WindowPage(p, v) && WindowPage(p, w)
    requires !Present(Pde(p.m, p.cr3, v)) && frame % 4096 == 0
    requires table % 4096 == 0 && table != p.cr3 && NotTable(p.m, p.cr3, table)
    ensures Walk(WithTable(p.m, p.cr3, v, frame, table), p.cr3, w) ==
              if w == v then Some(frame) else Walk(p.m, p.cr3, w)
  {
    WindowIndices(p, v);
    WindowIndices(p, w);
    WindowTable(p, reserved, w);
    hide Dir, Tab, Off, Base, Present, Geometry, WindowPage, TablesKept, TablesApart, NotTable, Walk, WithTable,
         Pde, SelfMapped;
    WithTableWalk(p.m, p.cr3, v, frame, table, w);
  }

  lemma MapTableTranslates(p: Pages, reserved: set<int>, v: int, frame: int, table: int)
    requires Geometry(p) && DirOk(p, reserved) && WindowPage(p, v)
    requires !Present(Pde(p.m, p.cr3, v)) && frame % 4096 == 0
    requires table % 4096 == 0 && table != p.cr3 && NotTable(p.m, p.cr3, table)
    ensures PageTableAdd(p.m, p.cr3, v, frame, table).Done?
    ensures Mapped(p, PageTableAdd(p.m, p.cr3, v, frame, table).value, v, Some(frame), Some(table))
    ensures Touched(p.m, PageTableAdd(p.m, p.cr3, v, frame, table).value, p.cr3, Dir(v))
  {
    WindowTable(p, reserved, v);
    assert SelfMapped(p.m, p.cr3);
    hide *;
    AddTableEffect(p.m, p.cr3, v, frame, table);
    WithTableEntries(p.m, p.cr3, v, frame, table);
    TouchedTable(p.m, p.cr3, v, frame, table);
    forall w | WindowPage(p, w)
      ensures Walk(WithTable(p.m, p.cr3, v, frame, table), p.cr3, w) ==
                if w == v then Some(frame) else Walk(p.m, p.cr3, w)
    {
      MapTableWalk(p, reserved, v, frame, table, w);
    }
    MappedBy(p, WithTable(p.m, p.cr3, v, frame, table), v, Some(frame), Some(table));
  }

  lemma MappedBy(p: Pages, m': Mem, v: int, to: Option<int>, table: Option<int>)
    requires forall w :: WindowPage(p, w) ==> Walk(m', p.cr3, w) == if w == v then to else Walk(p.m, p.cr3, w)
    requires forall k :: 0 <= k < 1024 ==>
      Entry(m', p.cr3, k) == if table.Some? && k == Dir(v) then table.value + 7 else Entry(p.m, p.cr3, k)
    ensures Mapped(p, m', v, to, table)
  {
    hide Walk, WindowPage, Entry, Dir;
  }

  lemma UnmapTranslates(p: Pages, reserved: set<int>, v: int)
    requires Geometry(p) && DirOk(p, reserved) && WindowPage(p, v) && Walk(p.m, p.cr3, v).Some?
    ensures PteRemove(p.m, p.cr3, v).Done?
    ensures Mapped(p, PteRemove(p.m, p.cr3, v).value, v, None, None)
    ensures Touched(p.m, PteRemove(p.m, p.cr3, v).value, p.cr3, Dir(v))
  {
    hide Dir, Tab, Off, Base, Present, Geometry, WindowPage, PteRemove, TablesKept, Touched;
    WindowTable(p, reserved, v);
    RemoveTranslates(p.m, p.cr3, v);
    RemoveEffect(p.m, p.cr3, v);
    StoreInTable(p.m, p.cr3, v, Pte(p.m, p.cr3, v) - Pte(p.m, p.cr3, v) % 2);
    assert Present(Pde(p.m, p.cr3, v));
    TouchedEntry(p.m, p.cr3, v, Pte(p.m, p.cr3, v) - Pte(p.m, p.cr3, v) % 2);
    hide Walk;
    var m' := PteRemove(p.m, p.cr3, v).value;
    forall w | WindowPage(p, w)
      ensures Walk(m', p.cr3, w) == if w == v then None else Walk(p.m, p.cr3, w)
    {
      WindowIndices(p, w);
      if SameSlot(p.m, p.cr3, v, w) { SlotUnique(p, v, w); }
      if w == v { SlotSelf(p.m, p.cr3, v); }
    }
  }

  /** The directory stays in order. */
  lemma DirAfter(p: Pages, reserved: set<int>, m': Mem, v: int, to: Option<int>, table: Option<int>)
    requires Geometry(p) && DirOk(p, reserved) && WindowPage(p, v) && Mapped(p, m', v, to, table)
    requires table.Some? ==> !Present(Pde(p.m, p.cr3, v)) && table.value % 4096 == 0
                             && table.value != p.cr3 && NotTable(p.m, p.cr3, table.value)
    ensures DirOk(p.(m := m'), if table.Some? then reserved + {table.value} else reserved)
  {
    WindowTable(p, reserved, v);
    if table.Some? { FlagsOf(table.value); }
    var p' := p.(m := m');
    var reserved' := if table.Some? then reserved + {table.value} else reserved;
    assert SelfMapped(m', p.cr3);
    hide Dir, Tab, Base, Present, Geometry, InPool, Walk;
    assert TablesKept(p', reserved');
    forall x, y | WindowPage(p, x) && WindowPage(p, y) && Dir(x) != Dir(y)
                  && Present(Pde(m', p.cr3, x)) && Present(Pde(m', p.cr3, y))
      ensures Base(Pde(m', p.cr3, x)) != Base(Pde(m', p.cr3, y))
    {
      WindowTable(p, reserved, x);
      WindowTable(p, reserved, y);
    }
    assert TablesApart(p') by {
      assert forall x :: WindowPage(p', x) <==> WindowPage(p, x);
      hide WindowPage;
    }
  }

  // ---------------------------------------------------------------------------------------
  // Views
  // ---------------------------------------------------------------------------------------

  /** A window other than the one of `v` keeps its view. */
  lemma ViewMiss(p: Pages, m': Mem, pf: PoolFlag, n: nat, v: int, to: Option<int>, table: Option<int>)
    requires Geometry(p) && Mapped(p, m', v, to, table) && n <= |Win(p, pf).bits|
    requires forall i :: 0 <= i < n ==> Page(Win(p, pf), i) != v
    ensures View(m', p.cr3, Win(p, pf), n) == View(p.m, p.cr3, Win(p, pf), n)
  {
    hide Walk, Geometry, WindowPage, Page;
    forall i | 0 <= i < n
      ensures Walk(m', p.cr3, Page(Win(p, pf), i)) == Walk(p.m, p.cr3, Page(Win(p, pf), i))
    {
      PageIsWindowPage(p, pf, i);
    }
  }

  lemma ViewHit(p: Pages, m': Mem, pf: PoolFlag, n: nat, i: nat, to: Option<int>, table: Option<int>)
    requires Geometry(p) && i < n <= |Win(p, pf).bits| && Mapped(p, m', Page(Win(p, pf), i), to, table)
    ensures var view := View(p.m, p.cr3, Win(p, pf), n);
            View(m', p.cr3, Win(p, pf), n) == if to.Some? then view[i := to.value] else view - {i}
  {
    hide Walk, Geometry, WindowPage;
    forall k | 0 <= k < n
      ensures Walk(m', p.cr3, Page(Win(p, pf), k)) == if k == i then to else Walk(p.m, p.cr3, Page(Win(p, pf), k))
    {
      PageIsWindowPage(p, pf, k);
    }
  }

  /** Mapping or unmapping a page of a window does not touch the page behind either window. */
  lemma BeyondKept(p: Pages, sh: Shape, m': Mem, pf: PoolFlag, v: int, to: Option<int>, table: Option<int>)
    requires Geometry(p) && Mapped(p, m', v, to, table)
    requires Span(sh, pf) < |Win(p, pf).bits| && Page(Win(p, pf), Span(sh, pf)) != v
    ensures Beyond(m', p.cr3, Win(p, pf), Span(sh, pf)) == Beyond(p.m, p.cr3, Win(p, pf), Span(sh, pf))
  {
    hide Walk, Geometry, WindowPage, Page;
    PageIsWindowPage(p, pf, Span(sh, pf));
  }

  /** The windows do not overlap. */
  lemma OtherWindow(p: Pages, pf: PoolFlag, i: nat)
    requires Geometry(p) && i < |Win(p, pf).bits|
    ensures forall k :: 0 <= k < |Win(p, Other(pf)).bits| ==> Page(Win(p, Other(pf)), k) != Page(Win(p, pf), i)
  {
  }
}
