/**
 Every step of `malloc_page` and `mfree_page` keeps the agreement of `PageModel`.
 */
module PageSteps {
  import opened Common
  import opened Paging
  import opened Bitmap
  import opened PageModel

  /** A frame that `palloc` delivers is aligned, in its pool, and in use for nothing. */
  lemma PallocFresh(pool: Pool, view: map<int, int>, reserved: set<int>)
    requires PoolOk(pool, view, reserved) && pool.start % 4096 == 0 && Palloc(pool).Done?
    ensures LowestRun(pool.bits, 1, 0).Some?
    ensures var j := LowestRun(pool.bits, 1, 0).value; var (pool', f) := Palloc(pool).value;
            && 0 <= j < |pool.bits| && !pool.bits[j] && f == Frame(pool, j)
            && pool' == pool.(bits := pool.bits[j := true])
            && f % 4096 == 0 && InPool(pool, f) && f !in reserved && !Used(view, f)
  {
    var j := LowestRun(pool.bits, 1, 0).value;
    assert AllClear(pool.bits, j, 1);
    hide LowestRun;
    assert !pool.bits[j];
    FrameInPool(pool, j);
  }

  /** Pools of the same place and size have the same frames. */
  predicate SamePlace(a: Pool, b: Pool) {
    a.start == b.start && |a.bits| == |b.bits|
  }

  /** Bits of pools and windows play no part in the directory. */
  lemma DirFrame(p: Pages, p': Pages, reserved: set<int>)
    requires Geometry(p) && DirOk(p, reserved) && p'.m == p.m && p'.cr3 == p.cr3
    requires SamePlace(p.kpool, p'.kpool) && SamePlace(p.upool, p'.upool)
    requires p'.kwin.start == p.kwin.start && |p'.kwin.bits| == |p.kwin.bits|
    requires p'.uwin.start == p.uwin.start && |p'.uwin.bits| == |p.uwin.bits|
    ensures Geometry(p') && DirOk(p', reserved)
  {
    assert forall f :: InPool(p'.kpool, f) <==> InPool(p.kpool, f);
    assert forall f :: InPool(p'.upool, f) <==> InPool(p.upool, f);
    assert forall v :: WindowPage(p', v) <==> WindowPage(p, v);
    hide InPool, WindowPage, Dir, Pde, Base, Present, Entry;
  }

  /** A frame of a pool that is neither reserved nor the directory is not a table. */
  lemma FreeNotTable(p: Pages, reserved: set<int>, f: int)
    requires DirOk(p, reserved) && (InPool(p.kpool, f) || InPool(p.upool, f)) && f !in reserved && f != p.cr3
    ensures NotTable(p.m, p.cr3, f)
  {
    hide InPool, TablesApart, Base, Present;
  }

  /** The directory is not a free frame. */
  lemma FreeNotDirectory(p: Pages, kview: map<int, int>, reserved: set<int>, f: int)
    requires DirTaken(p, kview, reserved) && InPool(p.kpool, f) && f !in reserved && !Used(kview, f)
    ensures f != p.cr3
  {
    hide InPool, Used;
  }

  /** The tables in the directory stay. */
  ghost predicate EntriesKept(p: Pages, m': Mem) {
    forall k :: 0 <= k < 1024 && Present(Entry(p.m, p.cr3, k)) ==> Entry(m', p.cr3, k) == Entry(p.m, p.cr3, k)
  }

  /** No entry of the directory changes but that of `v`. */
  ghost predicate EntriesBut(p: Pages, m': Mem, v: int) {
    forall k :: 0 <= k < 1024 && k != Dir(v) ==> Entry(m', p.cr3, k) == Entry(p.m, p.cr3, k)
  }

  lemma KeptEntries(p: Pages, m': Mem, v: int, to: Option<int>, table: Option<int>)
    requires Mapped(p, m', v, to, table) && (table.Some? ==> !Present(Pde(p.m, p.cr3, v)))
    ensures EntriesKept(p, m') && EntriesBut(p, m', v)
  {
    hide Present, Dir, Walk, WindowPage;
  }

  /** A table stays a table. */
  lemma TableStays(p: Pages, m': Mem, f: int)
    requires EntriesKept(p, m') && IsTable(p.m, p.cr3, f)
    ensures IsTable(m', p.cr3, f)
  {
    hide Present, Base;
    var k :| 0 <= k < 1023 && Present(Entry(p.m, p.cr3, k)) && Base(Entry(p.m, p.cr3, k)) == f;
    assert Present(Entry(m', p.cr3, k)) && Base(Entry(m', p.cr3, k)) == f;
  }

  lemma TableEntry(p: Pages, m': Mem, v: int, to: Option<int>, table: int)
    requires Mapped(p, m', v, to, Some(table)) && Addr(v) && table % 4096 == 0
    ensures Base(Entry(m', p.cr3, Dir(v))) == table
  {
    assert 0 <= Dir(v) < 1024;
    FlagsOf(table);
    hide Walk, WindowPage, Dir, Base;
  }

  /** A table is not the directory. */
  lemma TableNotDirectory(p: Pages, reserved: set<int>, f: int)
    requires DirOk(p, reserved) && IsTable(p.m, p.cr3, f)
    ensures f != p.cr3
  {
    hide TablesApart, InPool, Base, Present;
  }

  /** The frame that `page_table_add` took becomes a table. */
  lemma TableMade(p: Pages, reserved: set<int>, m': Mem, v: int, to: Option<int>, table: int)
    requires Geometry(p) && DirOk(p, reserved) && WindowPage(p, v) && Mapped(p, m', v, to, Some(table))
             && table % 4096 == 0
    ensures IsTable(m', p.cr3, table)
  {
    hide Walk, Geometry, WindowPage, DirOk, Dir;
    WindowTable(p, reserved, v);
    FlagsOf(table);
    hide Present, Base;
    assert Present(Entry(m', p.cr3, Dir(v))) && Base(Entry(m', p.cr3, Dir(v))) == table;
  }

  /** What a bit of a pool means: its frame is mapped, holds a table, or is in use by the `others`. */
  lemma BitMeans(p: Pages, sh: Shape, pf: PoolFlag, others: set<int>, j: nat)
    requires Agreement(p, sh) && j < |PoolFor(p, pf).bits| && others <= sh.reserved
    requires forall f :: f in sh.reserved ==> f in others || IsTable(p.m, p.cr3, f)
    ensures var pool := PoolFor(p, pf); var f := Frame(pool, j);
            pool.bits[j] <==> Used(ViewFor(p, sh, pf), f) || IsTable(p.m, p.cr3, f) || f in others
  {
    hide View, Geometry, BitsOk, Used, DirTaken, Beyond, TablesApart, InPool, Present, Base;
    FrameInPool(PoolFor(p, pf), j);
  }

  /** Page `lo` of the window has been mapped to frame `j` of its pool; `table` is the index in the
      kernel pool of the frame that became a table. */
  function AfterMap(p: Pages, pf: PoolFlag, j: nat, m': Mem, table: Option<nat>): Pages
    requires j < |PoolFor(p, pf).bits| && (table.Some? ==> table.value < |p.kpool.bits|)
  {
    var p1 := SetPool(p, pf, PoolFor(p, pf).(bits := PoolFor(p, pf).bits[j := true])).(m := m');
    if table.None? then p1 else p1.(kpool := p1.kpool.(bits := p1.kpool.bits[table.value := true]))
  }

  function AfterShape(p: Pages, sh: Shape, table: Option<nat>): Shape {
    if table.None? then sh else sh.(reserved := sh.reserved + {Frame(p.kpool, table.value)})
  }

  lemma BitsAfterMap(w: Window, span: nat, view: map<int, int>, beyond: bool, beyond': bool, lo: int, hi: int, f: int)
    requires BitsOk(w, span, view, beyond, lo, hi) && lo < hi && (span < |w.bits| ==> beyond' == beyond)
    ensures BitsOk(w, span, view[lo := f], beyond', lo + 1, hi)
  {
  }

  lemma BitsBeyond(w: Window, span: nat, view: map<int, int>, beyond: bool, beyond': bool, lo: int, hi: int)
    requires BitsOk(w, span, view, beyond, lo, hi) && (span < |w.bits| ==> beyond' == beyond)
    ensures BitsOk(w, span, view, beyond', lo, hi)
  {
  }

  /** Both windows after page `i` of window `pf` has been mapped or unmapped: nothing changes in the other
      window, and nothing behind either. */
  lemma OthersKept(p: Pages, sh: Shape, pf: PoolFlag, lo: nat, hi: nat, i: nat, m': Mem, to: Option<int>,
                   table: Option<int>)
    requires Agree(p, sh, pf, lo, hi) && i < Span(sh, pf) && Mapped(p, m', Page(Win(p, pf), i), to, table)
    ensures Span(sh, pf) <= |Win(p, pf).bits| && BeyondKeeps(p, sh, PfKernel, m') && BeyondKeeps(p, sh, PfUser, m')
    ensures WindowOk(p.(m := m'), sh, Other(pf), 0, 0)
    ensures ViewFor(p.(m := m'), sh, Other(pf)) == ViewFor(p, sh, Other(pf))
  {
    hide DirOk, PoolOk, Mapped, View, Geometry, DirTaken, Beyond;
    var v := Page(Win(p, pf), i);
    OtherWindow(p, pf, i);
    if Span(sh, pf) < |Win(p, pf).bits| { BeyondKept(p, sh, m', pf, v, to, table); }
    if Span(sh, Other(pf)) < |Win(p, Other(pf)).bits| { BeyondKept(p, sh, m', Other(pf), v, to, table); }
    ViewMiss(p, m', Other(pf), Span(sh, Other(pf)), v, to, table);
    var w, n := Win(p, Other(pf)), Span(sh, Other(pf));
    BitsBeyond(w, n, ViewFor(p, sh, Other(pf)), Beyond(p.m, p.cr3, w, n), Beyond(m', p.cr3, w, n), 0, 0);
  }

  /** The page behind the window is mapped if it was. */
  ghost predicate BeyondKeeps(p: Pages, sh: Shape, pf: PoolFlag, m': Mem) {
    var w, n := Win(p, pf), Span(sh, pf);
    n < |w.bits| ==> Beyond(m', p.cr3, w, n) == Beyond(p.m, p.cr3, w, n)
  }

  /** Windows of the same place and size. */
  predicate SameSpot(a: Window, b: Window) {
    a.start == b.start && |a.bits| == |b.bits|
  }

  /** Tables that the directory did not have before are frames that have been set aside meanwhile. */
  ghost predicate NewTables(p: Pages, sh: Shape, m': Mem, sh': Shape) {
    forall k :: 0 <= k < 1023 && Present(Entry(m', p.cr3, k)) && !Present(Entry(p.m, p.cr3, k)) ==>
      Base(Entry(m', p.cr3, k)) in sh'.reserved - sh.reserved
  }

  /** What every step leaves: places and sizes, the tables in the directory, what lies behind the windows; and
      every frame set aside meanwhile is one of the kernel pool and a table of the directory. */
  ghost predicate Steady(p: Pages, sh: Shape, p': Pages, sh': Shape) {
    && sh' == sh.(reserved := sh'.reserved) && sh.reserved <= sh'.reserved
    && (forall f :: f in sh'.reserved ==> f in sh.reserved || (IsTable(p'.m, p'.cr3, f) && InPool(p'.kpool, f)))
    && p'.cr3 == p.cr3 && SamePlace(p.kpool, p'.kpool) && SamePlace(p.upool, p'.upool)
    && SameSpot(p.kwin, p'.kwin) && SameSpot(p.uwin, p'.uwin) && NewTables(p, sh, p'.m, sh')
    && EntriesKept(p, p'.m) && BeyondKeeps(p, sh, PfKernel, p'.m) && BeyondKeeps(p, sh, PfUser, p'.m)
  }

  lemma SteadyTrans(p0: Pages, sh0: Shape, p: Pages, sh: Shape, p': Pages, sh': Shape)
    requires Steady(p0, sh0, p, sh) && Steady(p, sh, p', sh')
    ensures Steady(p0, sh0, p', sh')
  {
    hide Present, IsTable, Walk;
    forall f | f in sh'.reserved
      ensures f in sh0.reserved || (IsTable(p'.m, p'.cr3, f) && InPool(p'.kpool, f))
    {
      if IsTable(p.m, p.cr3, f) { TableStays(p, p'.m, f); }
    }
    NewTablesTrans(p0, sh0, p, sh, p'.m, sh');
    SpotBeyond(p.m, p.cr3, p0.kwin, p.kwin, sh.kspan);
    SpotBeyond(p.m, p.cr3, p0.uwin, p.uwin, sh.uspan);
    SpotBeyond(p'.m, p.cr3, p0.kwin, p.kwin, sh.kspan);
    SpotBeyond(p'.m, p.cr3, p0.uwin, p.uwin, sh.uspan);
    hide Beyond;
  }

  lemma NewTablesTrans(p0: Pages, sh0: Shape, p: Pages, sh: Shape, m': Mem, sh': Shape)
    requires NewTables(p0, sh0, p.m, sh) && NewTables(p, sh, m', sh') && EntriesKept(p, m') && p.cr3 == p0.cr3
    requires sh0.reserved <= sh.reserved <= sh'.reserved
    ensures NewTables(p0, sh0, m', sh')
  {
    hide Present, Base, Entry;
  }

  lemma SpotBeyond(m: Mem, cr3: int, w: Window, w': Window, n: nat)
    requires w.start == w'.start
    ensures Beyond(m, cr3, w, n) == Beyond(m, cr3, w', n)
  {
    hide Walk;
  }

  /** Bits do not matter to what is steady. */
  lemma SteadyBits(p: Pages, sh: Shape, p': Pages)
    requires p'.m == p.m && p'.cr3 == p.cr3 && SamePlace(p.kpool, p'.kpool) && SamePlace(p.upool, p'.upool)
    requires SameSpot(p.kwin, p'.kwin) && SameSpot(p.uwin, p'.uwin)
    ensures Steady(p, sh, p', sh)
  {
    hide IsTable, Beyond, Present;
  }

  /** Pools do not matter to a window. */
  lemma WindowFrame(p: Pages, sh: Shape, p': Pages, sh': Shape, pf: PoolFlag, lo: int, hi: int)
    requires WindowOk(p, sh, pf, lo, hi)
    requires p'.m == p.m && p'.cr3 == p.cr3 && Win(p', pf) == Win(p, pf) && Span(sh', pf) == Span(sh, pf)
    ensures WindowOk(p', sh', pf, lo, hi) && ViewFor(p', sh', pf) == ViewFor(p, sh, pf)
  {
    hide View, BitsOk, Beyond;
  }

  /** The directory stays in use while mapped pages and reserved frames stay. */
  lemma TakenFrame(p: Pages, kview: map<int, int>, reserved: set<int>, p': Pages, kview': map<int, int>,
                   reserved': set<int>)
    requires DirTaken(p, kview, reserved) && p'.cr3 == p.cr3 && SamePlace(p.kpool, p'.kpool)
             && SamePlace(p.upool, p'.upool)
    requires reserved <= reserved' && (Used(kview, p.cr3) ==> Used(kview', p.cr3))
    ensures DirTaken(p', kview', reserved')
  {
    hide Used;
  }

  lemma UsedMore(view: map<int, int>, i: int, f: int, g: int)
    requires i !in view && Used(view, g)
    ensures Used(view[i := f], g)
  {
    var x :| x in view && view[x] == g;
    assert x in view[i := f] && view[i := f][x] == g;
  }

  lemma UsedLess(view: map<int, int>, i: int, g: int)
    requires i in view && view[i] != g && Used(view, g)
    ensures Used(view - {i}, g)
  {
    var x :| x in view && view[x] == g;
    assert x in view - {i} && (view - {i})[x] == g;
  }

  lemma ViewsAfterMap(p: Pages, sh: Shape, pf: PoolFlag, lo: nat, hi: nat, m': Mem, f: int, table: Option<int>)
    requires Agree(p, sh, pf, lo, hi) && lo < hi && Mapped(p, m', Page(Win(p, pf), lo), Some(f), table)
    ensures lo !in ViewFor(p, sh, pf) && ViewFor(p.(m := m'), sh, pf) == ViewFor(p, sh, pf)[lo as int := f]
    ensures ViewFor(p.(m := m'), sh, Other(pf)) == ViewFor(p, sh, Other(pf))
    ensures WindowOk(p.(m := m'), sh, pf, lo + 1, hi) && WindowOk(p.(m := m'), sh, Other(pf), 0, 0)
  {
    hide DirOk, PoolOk, Mapped, View, Geometry, Page, DirTaken, Beyond;
    OthersKept(p, sh, pf, lo, hi, lo, m', Some(f), table);
    ViewHit(p, m', pf, Span(sh, pf), lo, Some(f), table);
    var w, n := Win(p, pf), Span(sh, pf);
    BitsAfterMap(w, n, ViewFor(p, sh, pf), Beyond(p.m, p.cr3, w, n), Beyond(m', p.cr3, w, n), lo, hi, f);
  }

  /** The directory is still in use after a page has been mapped. */
  lemma TakenAfterMap(p: Pages, sh: Shape, pf: PoolFlag, lo: nat, hi: nat, m': Mem, f: int, table: Option<int>,
                      p': Pages, sh': Shape)
    requires Agree(p, sh, pf, lo, hi) && lo < hi && Mapped(p, m', Page(Win(p, pf), lo), Some(f), table)
    requires p'.m == m' && p'.cr3 == p.cr3 && p'.kwin == p.kwin && p'.uwin == p.uwin
    requires SamePlace(p.kpool, p'.kpool) && SamePlace(p.upool, p'.upool)
    requires sh' == sh.(reserved := sh'.reserved) && sh.reserved <= sh'.reserved
    ensures ViewFor(p', sh', PfKernel) == ViewFor(p.(m := m'), sh, PfKernel)
    ensures ViewFor(p', sh', PfUser) == ViewFor(p.(m := m'), sh, PfUser)
    ensures DirTaken(p', ViewFor(p', sh', PfKernel), sh'.reserved)
    ensures WindowOk(p', sh', pf, lo + 1, hi) && WindowOk(p', sh', Other(pf), 0, 0)
  {
    hide DirOk, PoolOk, Mapped, View, Geometry, Page, BitsOk, DirTaken, Used, WindowOk;
    ViewsAfterMap(p, sh, pf, lo, hi, m', f, table);
    var q := p.(m := m');
    WindowFrame(q, sh, p', sh', pf, lo + 1, hi);
    WindowFrame(q, sh, p', sh', Other(pf), 0, 0);
    var kview, kview' := ViewFor(p, sh, PfKernel), ViewFor(p', sh', PfKernel);
    if Used(kview, p.cr3) && pf.PfKernel? { UsedMore(kview, lo, f, p.cr3); }
    TakenFrame(p, kview, sh.reserved, p', kview', sh'.reserved);
  }

  /** The pools after mapping a page without a new table. */
  lemma AgreeAfterMap(p: Pages, sh: Shape, pf: PoolFlag, lo: nat, hi: nat, j: nat, m': Mem)
    requires Agree(p, sh, pf, lo, hi) && lo < hi && j < |PoolFor(p, pf).bits| && !PoolFor(p, pf).bits[j]
    requires Mapped(p, m', Page(Win(p, pf), lo), Some(Frame(PoolFor(p, pf), j)), None)
    requires DirOk(p.(m := m'), sh.reserved)
    ensures var p' := AfterMap(p, pf, j, m', None);
            Agree(p', sh, pf, lo + 1, hi) && ViewFor(p', sh, Other(pf)) == ViewFor(p, sh, Other(pf))
            && ViewFor(p', sh, pf) == ViewFor(p, sh, pf)[lo as int := Frame(PoolFor(p, pf), j)]
  {
    var f := Frame(PoolFor(p, pf), j);
    var p' := AfterMap(p, pf, j, m', None);
    hide BitsOk, PoolOk, DirOk, Geometry, View, Mapped, ViewFor, DirTaken, WindowOk;
    ViewsAfterMap(p, sh, pf, lo, hi, m', f, None);
    TakenAfterMap(p, sh, pf, lo, hi, m', f, None, p', sh);
    PoolMap(PoolFor(p, pf), ViewFor(p, sh, pf), sh.reserved, lo, j);
    GeometryFree(p, p.(m := m'));
    DirFrame(p.(m := m'), p', sh.reserved);
  }

  lemma GeometryFree(p: Pages, p': Pages)
    requires Geometry(p) && p' == p.(m := p'.m)
    ensures Geometry(p')
  {
  }

  /** The pools after mapping a page with a new table. */
  lemma AgreeAfterTable(p: Pages, sh: Shape, pf: PoolFlag, lo: nat, hi: nat, j: nat, m': Mem, t: nat)
    requires Agree(p, sh, pf, lo, hi) && lo < hi && j < |PoolFor(p, pf).bits| && !PoolFor(p, pf).bits[j]
    requires t < |p.kpool.bits| && !p.kpool.bits[t] && (pf.PfKernel? ==> t != j)
    requires Mapped(p, m', Page(Win(p, pf), lo), Some(Frame(PoolFor(p, pf), j)), Some(Frame(p.kpool, t)))
    requires DirOk(p.(m := m'), AfterShape(p, sh, Some(t)).reserved)
    ensures var p' := AfterMap(p, pf, j, m', Some(t)); var sh' := AfterShape(p, sh, Some(t));
            Agree(p', sh', pf, lo + 1, hi) && ViewFor(p', sh', Other(pf)) == ViewFor(p, sh, Other(pf))
            && ViewFor(p', sh', pf) == ViewFor(p, sh, pf)[lo as int := Frame(PoolFor(p, pf), j)]
  {
    var f := Frame(PoolFor(p, pf), j);
    var sh' := AfterShape(p, sh, Some(t));
    var p' := AfterMap(p, pf, j, m', Some(t));
    hide BitsOk, PoolOk, DirOk, Geometry, View, Mapped, InPool, ViewFor, DirTaken, WindowOk;
    ViewsAfterMap(p, sh, pf, lo, hi, m', f, Some(Frame(p.kpool, t)));
    TakenAfterMap(p, sh, pf, lo, hi, m', f, Some(Frame(p.kpool, t)), p', sh');
    PoolMap(PoolFor(p, pf), ViewFor(p, sh, pf), sh.reserved, lo, j);
    GeometryFree(p, p.(m := m'));
    DirFrame(p.(m := m'), p', sh'.reserved);
    TableForeign(p, t);
    var p1 := AfterMap(p, pf, j, m', None);
    PoolReserve(p1.kpool, ViewFor(p.(m := m'), sh, PfKernel), sh.reserved, t);
    assert Frame(p1.kpool, t) == Frame(p.kpool, t);
    UserKeepsPlace(p, p1, t);
    PoolForeign(p1.upool, ViewFor(p.(m := m'), sh, PfUser), sh.reserved, Frame(p.kpool, t));
  }

  /** Frames of the kernel pool are not frames of the user pool. */
  lemma TableForeign(p: Pages, t: nat)
    requires Geometry(p) && t < |p.kpool.bits|
    ensures !InPool(p.upool, Frame(p.kpool, t))
  {
  }

  lemma UserKeepsPlace(p: Pages, p1: Pages, t: nat)
    requires SamePlace(p.upool, p1.upool) && !InPool(p.upool, Frame(p.kpool, t))
    ensures !InPool(p1.upool, Frame(p.kpool, t))
  {
  }

  // ---------------------------------------------------------------------------------------
  // Mapping and unmapping one page
  // ---------------------------------------------------------------------------------------

  /** The pools do not run out while page `v` is mapped. */
  predicate Enough(p: Pages, pf: PoolFlag, v: int) {
    var r := Palloc(PoolFor(p, pf));
    r.Done? && (Present(Pde(p.m, p.cr3, v)) || Palloc(SetPool(p, pf, r.value.0).kpool).Done?)
  }

  /** The index in the kernel pool of the frame that becomes a table, if one is needed. */
  function NewTable(p: Pages, pf: PoolFlag, v: int): Option<nat>
    requires Enough(p, pf, v)
  {
    if Present(Pde(p.m, p.cr3, v)) then None
    else LowestRun(SetPool(p, pf, Palloc(PoolFor(p, pf)).value.0).kpool.bits, 1, 0)
  }

  /** One turn of `malloc_page` stops exactly if a pool is exhausted, and otherwise maps the next
      claimed page to a fresh frame and keeps the agreement. */
  lemma MapStepKeeps(p: Pages, sh: Shape, pf: PoolFlag, lo: nat, hi: nat)
    requires Agree(p, sh, pf, lo, hi) && lo < hi
    ensures var v := Page(Win(p, pf), lo); var r := MapStep(p, pf, v);
            && !r.Fault? && (r.Done? <==> Enough(p, pf, v))
            && (r.Done? ==>
                  var t := NewTable(p, pf, v);
                  && (t.Some? ==> t.value < |p.kpool.bits|)
                  && var sh' := AfterShape(p, sh, t); var p' := r.value;
                     && Agree(p', sh', pf, lo + 1, hi)
                     && ViewFor(p', sh', Other(pf)) == ViewFor(p, sh, Other(pf))
                     && ViewFor(p', sh', pf) == ViewFor(p, sh, pf)[lo as int := Palloc(PoolFor(p, pf)).value.1]
                     && p'.kwin == p.kwin && p'.uwin == p.uwin && Steady(p, sh, p', sh') && EntriesBut(p, p'.m, v)
                     && Touched(p.m, p'.m, p.cr3, Dir(v))
                     && var p1 := SetPool(p, pf, Palloc(PoolFor(p, pf)).value.0);
                        p' == p1.(m := p'.m, kpool := if t.None? then p1.kpool else Palloc(p1.kpool).value.0))
  {
    hide Agree, ViewFor, Palloc, PageTableAdd, LowestRun, Present, EntriesKept, EntriesBut, Touched, IsTable,
         BeyondKeeps, Load, Page, Pde, PdePtr, InPool, NewTables, Addr, Base, Dir;
    var v := Page(Win(p, pf), lo);
    NextEntry(p, sh, pf, lo, hi);
    var r := Palloc(PoolFor(p, pf));
    PallocOutcome(PoolFor(p, pf));
    if r.Done? {
      if Present(Pde(p.m, p.cr3, v)) {
        MapPresent(p, sh, pf, lo, hi);
        NewFromBut(p, sh, MapStep(p, pf, v).value.m, sh, v);
      } else {
        var kpool := SetPool(p, pf, r.value.0).kpool;
        PallocOutcome(kpool);
        if Palloc(kpool).Done? {
          MapAbsent(p, sh, pf, lo, hi);
          NewFromBut(p, sh, MapStep(p, pf, v).value.m, AfterShape(p, sh, NewTable(p, pf, v)), v);
          FrameInPool(Palloc(kpool).value.0, NewTable(p, pf, v).value);
        }
      }
    }
  }

  lemma NewFromBut(p: Pages, sh: Shape, m': Mem, sh': Shape, v: int)
    requires EntriesBut(p, m', v) && EntriesKept(p, m') && Addr(v)
    requires !Present(Pde(p.m, p.cr3, v)) ==> Base(Entry(m', p.cr3, Dir(v))) in sh'.reserved - sh.reserved
    ensures NewTables(p, sh, m', sh')
  {
    assert 0 <= Dir(v) < 1024;
    hide Present, Base, Dir;
  }

  lemma NoneNew(p: Pages, sh: Shape, m': Mem, v: int, to: Option<int>)
    requires Mapped(p, m', v, to, None)
    ensures NewTables(p, sh, m', sh)
  {
    hide Walk, WindowPage, Present, Base, Dir;
  }

  /** At the guard page of a window, which belongs to someone else, `malloc_page` stops: at the pool or at
      the assertion of `page_table_add`. */
  lemma MapStopsBeyond(p: Pages, sh: Shape, pf: PoolFlag, lo: nat, hi: nat)
    requires Agree(p, sh, pf, lo, hi) && Span(sh, pf) < |Win(p, pf).bits|
    requires Beyond(p.m, p.cr3, Win(p, pf), Span(sh, pf))
    ensures MapStep(p, pf, Page(Win(p, pf), Span(sh, pf))) == Panic
  {
    hide PoolOk, BitsOk, View, Palloc, AddPage, DirTaken, TablesApart, TablesKept, Geometry, SelfMapped, Addr,
         WindowPage, Dir, Walk;
    var v := Page(Win(p, pf), Span(sh, pf));
    PageIsWindowPage(p, pf, Span(sh, pf));
    WindowIndices(p, v);
    PallocOutcome(PoolFor(p, pf));
    if Palloc(PoolFor(p, pf)).Done? {
      AddStops(SetPool(p, pf, Palloc(PoolFor(p, pf)).value.0), v, Palloc(PoolFor(p, pf)).value.1);
    }
  }

  lemma AddStops(p: Pages, v: int, frame: int)
    requires SelfMapped(p.m, p.cr3) && Addr(v) && Walk(p.m, p.cr3, v).Some?
    ensures AddPage(p, v, frame) == Panic
  {
    hide Palloc, PageTableAdd, Present, SelfMapped, Addr, Dir, Pde, Pte;
    WindowOntoTables(p.m, p.cr3, v);
    AddEffect(p.m, p.cr3, v, frame, 0);
    LoadEntry(p.m, p.cr3, v);
    hide Walk, Load;
  }

  lemma LoadEntry(m: Mem, cr3: int, v: int)
    requires Walk(m, cr3, PdePtr(v)) == Some(PdeAddr(cr3, v))
    ensures Load(m, cr3, PdePtr(v)) == Done(Pde(m, cr3, v))
  {
    hide Walk, Dir, PdePtr;
  }

  lemma PallocOutcome(pool: Pool)
    ensures !Palloc(pool).Fault?
    ensures Palloc(pool).Done? <==> LowestRun(pool.bits, 1, 0).Some?
    ensures Palloc(pool).Done? ==>
              LowestRun(pool.bits, 1, 0).value < |pool.bits| && SamePlace(pool, Palloc(pool).value.0)
  {
    hide LowestRun;
  }

  /** The next claimed page is a page of the window that is not mapped. */
  lemma NextPage(p: Pages, sh: Shape, pf: PoolFlag, lo: nat, hi: nat)
    requires Agree(p, sh, pf, lo, hi) && lo < hi
    ensures var v := Page(Win(p, pf), lo);
            && WindowPage(p, v) && Addr(v) && Walk(p.m, p.cr3, v) == None && SelfMapped(p.m, p.cr3)
            && lo < Span(sh, pf)
  {
    hide PoolOk, TablesApart, TablesKept, Walk, DirTaken;
    PageIsWindowPage(p, pf, lo);
    WindowIndices(p, Page(Win(p, pf), lo));
    hide Geometry, WindowPage, Page, Addr, SelfMapped;
    assert lo !in ViewFor(p, sh, pf);
  }

  /** The directory entry of the next claimed page, read through the window onto the tables. */
  lemma NextEntry(p: Pages, sh: Shape, pf: PoolFlag, lo: nat, hi: nat)
    requires Agree(p, sh, pf, lo, hi) && lo < hi
    ensures var v := Page(Win(p, pf), lo); Load(p.m, p.cr3, PdePtr(v)) == Done(Pde(p.m, p.cr3, v)) && Addr(v)
  {
    hide Agree, Page, Walk, Load, Pde, PdePtr, Addr, SelfMapped, WindowPage;
    var v := Page(Win(p, pf), lo);
    NextPage(p, sh, pf, lo, hi);
    WindowOntoTables(p.m, p.cr3, v);
    LoadEntry(p.m, p.cr3, v);
  }

  lemma MapPresent(p: Pages, sh: Shape, pf: PoolFlag, lo: nat, hi: nat)
    requires Agree(p, sh, pf, lo, hi) && lo < hi
    requires Palloc(PoolFor(p, pf)).Done? && Present(Pde(p.m, p.cr3, Page(Win(p, pf), lo)))
    ensures var v := Page(Win(p, pf), lo); var (pool, f) := Palloc(PoolFor(p, pf)).value;
            var r := PageTableAdd(p.m, p.cr3, v, f, 0);
            && r.Done?
            && var p' := SetPool(p, pf, pool).(m := r.value);
               && Agree(p', sh, pf, lo + 1, hi)
               && ViewFor(p', sh, Other(pf)) == ViewFor(p, sh, Other(pf))
               && ViewFor(p', sh, pf) == ViewFor(p, sh, pf)[lo as int := f]
               && EntriesKept(p, r.value) && EntriesBut(p, r.value, v) && Touched(p.m, r.value, p.cr3, Dir(v))
               && BeyondKeeps(p, sh, PfKernel, r.value)
               && BeyondKeeps(p, sh, PfUser, r.value)
  {
    hide BitsOk, View, Palloc, PageTableAdd, LowestRun, Present, TablesApart, TablesKept;
    var v := Page(Win(p, pf), lo);
    NextPage(p, sh, pf, lo, hi);
    PoolAligned(p, pf);
    PallocFresh(PoolFor(p, pf), ViewFor(p, sh, pf), sh.reserved);
    var j := LowestRun(PoolFor(p, pf).bits, 1, 0).value;
    var f := Palloc(PoolFor(p, pf)).value.1;
    hide PoolOk, DirOk, Walk, Geometry, WindowPage, Page, Mapped, ViewFor, EntriesKept, EntriesBut, Touched;
    MapTranslates(p, sh.reserved, v, f, 0);
    var m' := PageTableAdd(p.m, p.cr3, v, f, 0).value;
    DirAfter(p, sh.reserved, m', v, Some(f), None);
    KeptEntries(p, m', v, Some(f), None);
    OthersKept(p, sh, pf, lo, hi, lo, m', Some(f), None);
    hide Beyond;
    AgreeAfterMap(p, sh, pf, lo, hi, j, m');
  }

  lemma PoolAligned(p: Pages, pf: PoolFlag)
    requires Geometry(p)
    ensures PoolFor(p, pf).start % 4096 == 0
  {
  }

  lemma MapAbsent(p: Pages, sh: Shape, pf: PoolFlag, lo: nat, hi: nat)
    requires Agree(p, sh, pf, lo, hi) && lo < hi
    requires Palloc(PoolFor(p, pf)).Done? && !Present(Pde(p.m, p.cr3, Page(Win(p, pf), lo)))
    requires Palloc(SetPool(p, pf, Palloc(PoolFor(p, pf)).value.0).kpool).Done?
    ensures var v := Page(Win(p, pf), lo); var (pool, f) := Palloc(PoolFor(p, pf)).value;
            var p1 := SetPool(p, pf, pool);
            var t := LowestRun(p1.kpool.bits, 1, 0); var (kpool, table) := Palloc(p1.kpool).value;
            var r := PageTableAdd(p.m, p.cr3, v, f, table);
            && r.Done? && t.Some? && t.value < |p.kpool.bits|
            && var p' := p1.(m := r.value, kpool := kpool); var sh' := AfterShape(p, sh, t);
               && Agree(p', sh', pf, lo + 1, hi)
               && ViewFor(p', sh', Other(pf)) == ViewFor(p, sh, Other(pf))
               && ViewFor(p', sh', pf) == ViewFor(p, sh, pf)[lo as int := f]
               && EntriesKept(p, r.value) && EntriesBut(p, r.value, v) && Touched(p.m, r.value, p.cr3, Dir(v))
               && BeyondKeeps(p, sh, PfKernel, r.value)
               && BeyondKeeps(p, sh, PfUser, r.value)
               && IsTable(r.value, p.cr3, Frame(p.kpool, t.value)) && Frame(p.kpool, t.value) !in sh.reserved
               && Base(Entry(r.value, p.cr3, Dir(v))) == Frame(p.kpool, t.value)
  {
    hide BitsOk, View, Palloc, PageTableAdd, LowestRun, Present, TablesApart, TablesKept;
    var v := Page(Win(p, pf), lo);
    NextPage(p, sh, pf, lo, hi);
    PoolAligned(p, pf);
    PoolAligned(p, PfKernel);
    PallocFresh(PoolFor(p, pf), ViewFor(p, sh, pf), sh.reserved);
    var j := LowestRun(PoolFor(p, pf).bits, 1, 0).value;
    var (pool, f) := Palloc(PoolFor(p, pf)).value;
    var p1 := SetPool(p, pf, pool);
    TakenPool(p, sh, pf, lo, hi, j);
    var view1 := if pf.PfKernel? then ViewFor(p, sh, PfKernel)[lo as int := f] else ViewFor(p, sh, PfKernel);
    PallocFresh(p1.kpool, view1, sh.reserved);
    var t := LowestRun(p1.kpool.bits, 1, 0).value;
    var table := Palloc(p1.kpool).value.1;
    assert table == Frame(p.kpool, t) && InPool(p.kpool, table);
    hide PoolOk, DirOk, Walk, Geometry, WindowPage, Page, Mapped, InPool, EntriesKept, EntriesBut, Touched,
         Used, DirTaken;
    TableUnused(p, sh, pf, lo, hi, f, table);
    FreeNotDirectory(p, ViewFor(p, sh, PfKernel), sh.reserved, table);
    hide ViewFor;
    FreeNotTable(p, sh.reserved, table);
    MapTableTranslates(p, sh.reserved, v, f, table);
    var m' := PageTableAdd(p.m, p.cr3, v, f, table).value;
    DirAfter(p, sh.reserved, m', v, Some(f), Some(table));
    KeptEntries(p, m', v, Some(f), Some(table));
    TableMade(p, sh.reserved, m', v, Some(f), table);
    TableEntry(p, m', v, Some(f), table);
    OthersKept(p, sh, pf, lo, hi, lo, m', Some(f), Some(table));
    hide IsTable, Beyond;
    AgreeAfterTable(p, sh, pf, lo, hi, j, m', t);
  }

  lemma TableUnused(p: Pages, sh: Shape, pf: PoolFlag, lo: nat, hi: nat, f: int, table: int)
    requires Agree(p, sh, pf, lo, hi) && lo < hi
    requires !Used(if pf.PfKernel? then ViewFor(p, sh, PfKernel)[lo as int := f] else ViewFor(p, sh, PfKernel), table)
    ensures !Used(ViewFor(p, sh, PfKernel), table)
  {
    hide DirOk, Geometry, PoolOk, View, DirTaken, Used;
    if pf.PfKernel? && Used(ViewFor(p, sh, PfKernel), table) {
      UsedMore(ViewFor(p, sh, PfKernel), lo, f, table);
    }
  }

  /** The kernel pool after the frame of the page has been taken. */
  lemma TakenPool(p: Pages, sh: Shape, pf: PoolFlag, lo: nat, hi: nat, j: nat)
    requires Agree(p, sh, pf, lo, hi) && lo < hi && j < |PoolFor(p, pf).bits| && !PoolFor(p, pf).bits[j]
    ensures var pool := PoolFor(p, pf).(bits := PoolFor(p, pf).bits[j := true]);
            PoolOk(SetPool(p, pf, pool).kpool,
                   if pf.PfKernel? then ViewFor(p, sh, PfKernel)[lo as int := Frame(p.kpool, j)]
                   else ViewFor(p, sh, PfKernel),
                   sh.reserved)
  {
    if pf.PfKernel? {
      assert lo !in ViewFor(p, sh, PfKernel);
      hide DirOk, Geometry, BitsOk, PoolOk, View, DirTaken;
      PoolMap(p.kpool, ViewFor(p, sh, PfKernel), sh.reserved, lo, j);
    }
  }

  /** One turn of `mfree_page` passes its assertions, gives the frame of a mapped page, other than that of
      the directory, back to the pool it came from, and keeps the agreement. */
  lemma UnmapStepKeeps(p: Pages, sh: Shape, pf: PoolFlag, lo: nat, hi: nat)
    requires Agree(p, sh, pf, lo, hi) && hi < Span(sh, pf) && hi in ViewFor(p, sh, pf)
             && ViewFor(p, sh, pf)[hi] != p.cr3
    ensures var r := UnmapStep(p, pf.PfUser?, Page(Win(p, pf), hi));
            && r.Done?
            && var p' := r.value; var pool := PoolFor(p, pf); var j := (ViewFor(p, sh, pf)[hi] - pool.start) / 4096;
               && Agree(p', sh, pf, lo, hi + 1)
               && ViewFor(p', sh, Other(pf)) == ViewFor(p, sh, Other(pf))
               && ViewFor(p', sh, pf) == ViewFor(p, sh, pf) - {hi}
               && 0 <= j < |pool.bits|
               && p' == SetPool(p, pf, pool.(bits := pool.bits[j := false])).(m := p'.m)
               && Steady(p, sh, p', sh) && Touched(p.m, p'.m, p.cr3, Dir(Page(Win(p, pf), hi)))
  {
    hide View, PoolOk, Geometry, DirOk, Walk, WindowPage, AddrV2P, PteRemove, Mapped, EntriesKept, FrameAssert, Touched,
         Pfree, Page, SelfMapped, Addr, DirTaken, Beyond, Used;
    var v := Page(Win(p, pf), hi);
    var f := ViewFor(p, sh, pf)[hi];
    MappedPage(p, sh, pf, lo, hi);
    AddrV2PIsWalk(p.m, p.cr3, v);
    PfreeToOwner(p, sh, pf, lo, hi);
    var j := (f - PoolFor(p, pf).start) / 4096;
    PoolUnmap(PoolFor(p, pf), ViewFor(p, sh, pf), sh.reserved, hi);
    UnmapTranslates(p, sh.reserved, v);
    var m' := PteRemove(p.m, p.cr3, v).value;
    DirAfter(p, sh.reserved, m', v, None, None);
    KeptEntries(p, m', v, None, None);
    NoneNew(p, sh, m', v, None);
    OthersKept(p, sh, pf, lo, hi, hi, m', None, None);
    ViewHit(p, m', pf, Span(sh, pf), hi, None, None);
    var p' := SetPool(p, pf, PoolFor(p, pf).(bits := PoolFor(p, pf).bits[j := false])).(m := m');
    GeometryFree(p, p.(m := m'));
    DirFrame(p.(m := m'), p', sh.reserved);
    var w, n := Win(p, pf), Span(sh, pf);
    BitsAfterUnmap(w, n, ViewFor(p, sh, pf), Beyond(p.m, p.cr3, w, n), Beyond(m', p.cr3, w, n), lo, hi);
    TakenAfterUnmap(p, sh, pf, lo, hi, p');
    hide BitsOk;
  }

  lemma BitsAfterUnmap(w: Window, span: nat, view: map<int, int>, beyond: bool, beyond': bool, lo: int, hi: int)
    requires BitsOk(w, span, view, beyond, lo, hi) && hi < span && hi in view && (span < |w.bits| ==> beyond' == beyond)
    ensures BitsOk(w, span, view - {hi}, beyond', lo, hi + 1)
  {
  }

  lemma TakenAfterUnmap(p: Pages, sh: Shape, pf: PoolFlag, lo: nat, hi: nat, p': Pages)
    requires Agree(p, sh, pf, lo, hi) && hi in ViewFor(p, sh, pf) && ViewFor(p, sh, pf)[hi] != p.cr3
    requires p'.cr3 == p.cr3 && SamePlace(p.kpool, p'.kpool) && SamePlace(p.upool, p'.upool)
    requires ViewFor(p', sh, pf) == ViewFor(p, sh, pf) - {hi} && ViewFor(p', sh, Other(pf)) == ViewFor(p, sh, Other(pf))
    ensures DirTaken(p', ViewFor(p', sh, PfKernel), sh.reserved)
  {
    hide View, ViewFor, PoolOk, Geometry, DirOk, DirTaken, Used, BitsOk, Beyond;
    var kview := ViewFor(p, sh, PfKernel);
    if Used(kview, p.cr3) && pf.PfKernel? { UsedLess(kview, hi, p.cr3); }
    TakenFrame(p, kview, sh.reserved, p', ViewFor(p', sh, PfKernel), sh.reserved);
  }

  lemma MappedPage(p: Pages, sh: Shape, pf: PoolFlag, lo: nat, hi: nat)
    requires Agree(p, sh, pf, lo, hi) && hi < Span(sh, pf) && hi in ViewFor(p, sh, pf)
    ensures var v := Page(Win(p, pf), hi);
            && hi < |Win(p, pf).bits| && WindowPage(p, v) && Addr(v) && SelfMapped(p.m, p.cr3)
            && Walk(p.m, p.cr3, v) == Some(ViewFor(p, sh, pf)[hi])
  {
    hide PoolOk, TablesApart, TablesKept, Walk, DirTaken;
    PageIsWindowPage(p, pf, hi);
    WindowIndices(p, Page(Win(p, pf), hi));
  }

  /** The address comparison in `pfree` and the assertions of `mfree_page` pick the pool that the frame
      of a mapped page was taken from. */
  lemma PfreeToOwner(p: Pages, sh: Shape, pf: PoolFlag, lo: nat, hi: nat)
    requires Agree(p, sh, pf, lo, hi) && hi in ViewFor(p, sh, pf)
    ensures var pool := PoolFor(p, pf); var f := ViewFor(p, sh, pf)[hi]; var j := (f - pool.start) / 4096;
            && FrameAssert(p, pf.PfUser?, f) && f >= 0x102000
            && 0 <= j < |pool.bits| && pool.bits[j] && f == Frame(pool, j)
            && Pfree(p, f) == Done(SetPool(p, pf, pool.(bits := pool.bits[j := false])))
  {
    hide DirOk, BitsOk, View, PoolOk, Geometry, FrameAssert, Pfree, DirTaken, Beyond;
    FrameOfPage(PoolFor(p, pf), ViewFor(p, sh, pf), sh.reserved, hi);
    PfreeChooses(p, pf, (ViewFor(p, sh, pf)[hi] - PoolFor(p, pf).start) / 4096);
  }

  lemma FrameOfPage(pool: Pool, view: map<int, int>, reserved: set<int>, i: int)
    requires PoolOk(pool, view, reserved) && i in view
    ensures var j := (view[i] - pool.start) / 4096; 0 <= j < |pool.bits| && pool.bits[j] && view[i] == Frame(pool, j)
    ensures InPool(pool, view[i]) && view[i] !in reserved
  {
    FrameIndex(pool, view[i]);
    assert Used(view, view[i]);
    hide InPool, Used;
  }

  lemma PfreeChooses(p: Pages, pf: PoolFlag, j: int)
    requires Geometry(p) && 0 <= j < |PoolFor(p, pf).bits|
    ensures var pool := PoolFor(p, pf); var f := Frame(pool, j);
            && FrameAssert(p, pf.PfUser?, f) && f >= 0x102000
            && Pfree(p, f) == Done(SetPool(p, pf, pool.(bits := pool.bits[j := false])))
  {
    FrameInPool(PoolFor(p, pf), j);
    assert Frame(PoolFor(p, pf), j) % 4096 == 0 by { AlignedSum(PoolFor(p, pf).start, j); }
  }

  lemma AlignedSum(s: int, j: int)
    requires s % 4096 == 0
    ensures (s + 4096 * j) % 4096 == 0
  {
  }

  // ---------------------------------------------------------------------------------------
  // Claiming and releasing virtual pages
  // ---------------------------------------------------------------------------------------

  /** Where the pages of a claim end: at the guard page if that belongs to someone else. */
  function ClaimEnd(sh: Shape, pf: PoolFlag, start: nat, cnt: nat): (hi: nat) {
    if start + cnt <= Span(sh, pf) then start + cnt else Span(sh, pf)
  }

  /** The bits found by a search stand for pages that are not mapped, but for a guard bit whose page belongs
      to someone else. */
  lemma ClaimKeeps(p: Pages, sh: Shape, pf: PoolFlag, start: nat, cnt: nat)
    requires Agreement(p, sh) && start + cnt <= |Win(p, pf).bits| && AllClear(Win(p, pf).bits, start, cnt) && cnt > 0
    ensures var w := Win(p, pf); var p' := SetWin(p, pf, w.(bits := Fill(w.bits, start, cnt, true)));
            var hi := ClaimEnd(sh, pf, start, cnt);
            && start <= hi && Agree(p', sh, pf, start, hi)
            && (start + cnt > hi ==> start + cnt == hi + 1 && Beyond(p.m, p.cr3, Win(p', pf), hi))
            && ViewFor(p', sh, PfKernel) == ViewFor(p, sh, PfKernel)
            && ViewFor(p', sh, PfUser) == ViewFor(p, sh, PfUser)
            && forall i :: start <= i < hi ==> i !in ViewFor(p, sh, pf)
  {
    hide PoolOk, DirOk, Geometry, View, BitsOk, AllClear, Fill, DirTaken, Beyond;
    var w, n := Win(p, pf), Span(sh, pf);
    var p' := SetWin(p, pf, w.(bits := Fill(w.bits, start, cnt, true)));
    ClaimBits(w, n, ViewFor(p, sh, pf), Beyond(p.m, p.cr3, w, n), start, cnt, ClaimEnd(sh, pf, start, cnt));
    DirFrame(p, p', sh.reserved);
    ViewStart(p.m, p.cr3, p.kwin, p'.kwin, sh.kspan);
    ViewStart(p.m, p.cr3, p.uwin, p'.uwin, sh.uspan);
    TakenFrame(p, ViewFor(p, sh, PfKernel), sh.reserved, p', ViewFor(p', sh, PfKernel), sh.reserved);
  }

  /** A view does not depend on the bits. */
  lemma ViewStart(m: Mem, cr3: int, w: Window, w': Window, n: nat)
    requires w.start == w'.start
    ensures View(m, cr3, w, n) == View(m, cr3, w', n) && Beyond(m, cr3, w, n) == Beyond(m, cr3, w', n)
  {
    hide Walk;
    assert forall i :: Page(w, i) == Page(w', i);
  }

  lemma ClaimBits(w: Window, span: nat, view: map<int, int>, beyond: bool, start: nat, cnt: nat, hi: nat)
    requires BitsOk(w, span, view, beyond, 0, 0) && start + cnt <= |w.bits| && AllClear(w.bits, start, cnt) && cnt > 0
    requires hi == if start + cnt <= span then start + cnt else span
    ensures start <= hi && BitsOk(w.(bits := Fill(w.bits, start, cnt, true)), span, view, beyond, start, hi)
    ensures start + cnt > hi ==> start + cnt == hi + 1 && beyond
    ensures forall i :: start <= i < hi ==> i !in view
  {
    assert !w.bits[start + cnt - 1];
    hide AllClear;
  }

  /** Clearing the bits of unmapped pages completes the agreement. */
  lemma ReleaseKeeps(p: Pages, sh: Shape, pf: PoolFlag, lo: nat, hi: nat)
    requires Agree(p, sh, pf, lo, hi)
    ensures var w := Win(p, pf);
            && hi <= |w.bits|
            && var p' := SetWin(p, pf, w.(bits := Fill(w.bits, lo, hi - lo, false)));
               && Agreement(p', sh)
               && ViewFor(p', sh, PfKernel) == ViewFor(p, sh, PfKernel)
               && ViewFor(p', sh, PfUser) == ViewFor(p, sh, PfUser)
  {
    hide PoolOk, DirOk, Geometry, View, BitsOk, Fill, DirTaken, Beyond;
    var w, n := Win(p, pf), Span(sh, pf);
    ReleaseBits(w, n, ViewFor(p, sh, pf), Beyond(p.m, p.cr3, w, n), lo, hi);
    var p' := SetWin(p, pf, w.(bits := Fill(w.bits, lo, hi - lo, false)));
    DirFrame(p, p', sh.reserved);
    ViewStart(p.m, p.cr3, p.kwin, p'.kwin, sh.kspan);
    ViewStart(p.m, p.cr3, p.uwin, p'.uwin, sh.uspan);
    TakenFrame(p, ViewFor(p, sh, PfKernel), sh.reserved, p', ViewFor(p', sh, PfKernel), sh.reserved);
  }

  lemma ReleaseBits(w: Window, span: nat, view: map<int, int>, beyond: bool, lo: nat, hi: nat)
    requires BitsOk(w, span, view, beyond, lo, hi)
    ensures lo <= hi <= |w.bits| && BitsOk(w.(bits := Fill(w.bits, lo, hi - lo, false)), span, view, beyond, 0, 0)
  {
  }

  /** When all claimed pages are mapped, the agreement is complete. */
  lemma AllMapped(p: Pages, sh: Shape, pf: PoolFlag, lo: nat)
    requires Agree(p, sh, pf, lo, lo)
    ensures Agreement(p, sh)
  {
    hide PoolOk, DirOk, Geometry, View, DirTaken, Beyond;
  }

  lemma NoneClaimed(p: Pages, sh: Shape, pf: PoolFlag, lo: nat)
    requires Agreement(p, sh) && lo <= Span(sh, pf)
    ensures Agree(p, sh, pf, lo, lo)
  {
    hide PoolOk, DirOk, Geometry, View, DirTaken, Beyond;
  }

  // ---------------------------------------------------------------------------------------
  // How many frames are free
  // ---------------------------------------------------------------------------------------

  function FreeFrames(bits: seq<bool>): nat {
    if bits == [] then 0 else (if bits[0] then 0 else 1) + FreeFrames(bits[1..])
  }

  lemma {:induction false} FreeTaken(bits: seq<bool>, j: nat)
    requires j < |bits| && !bits[j]
    ensures FreeFrames(bits[j := true]) + 1 == FreeFrames(bits)
  {
    if j > 0 {
      assert bits[j := true][1..] == bits[1..][j - 1 := true];
      FreeTaken(bits[1..], j - 1);
    } else {
      assert bits[j := true][1..] == bits[1..];
    }
  }

  lemma {:induction false} FreeNone(bits: seq<bool>)
    ensures FreeFrames(bits) == 0 <==> forall j :: 0 <= j < |bits| ==> bits[j]
  {
    if bits != [] {
      FreeNone(bits[1..]);
      assert forall j :: 0 < j < |bits| ==> bits[j] == bits[1..][j - 1];
    }
  }

  /** `palloc` stops exactly on an exhausted pool, and otherwise takes one frame. */
  lemma PallocCounts(pool: Pool)
    ensures Palloc(pool).Done? <==> FreeFrames(pool.bits) > 0
    ensures Palloc(pool).Done? ==> FreeFrames(Palloc(pool).value.0.bits) + 1 == FreeFrames(pool.bits)
  {
    var r := LowestRun(pool.bits, 1, 0);
    FreeNone(pool.bits);
    if r.Some? {
      assert AllClear(pool.bits, r.value, 1);
      assert !pool.bits[r.value];
      FreeTaken(pool.bits, r.value);
    } else {
      forall j | 0 <= j < |pool.bits| ensures pool.bits[j] {
        assert !AllClear(pool.bits, j, 1);
      }
    }
  }

  // ---------------------------------------------------------------------------------------
  // Data in mapped pages
  // ---------------------------------------------------------------------------------------

  /** Whatever is stored in a mapped page of a window other than that of the directory, no translation
      changes and the agreement stays: such pages cannot hold the directory or a table. */
  lemma DataStoresAreHarmless(p: Pages, sh: Shape, pf: PoolFlag, i: nat, o: nat, x: int)
    requires Agreement(p, sh) && i < Span(sh, pf) && i in ViewFor(p, sh, pf) && o < 1024
    requires ViewFor(p, sh, pf)[i] != p.cr3
    ensures var m' := p.m[ViewFor(p, sh, pf)[i] + 4 * o := x];
            && Store(p.m, p.cr3, Page(Win(p, pf), i) + 4 * o, x) == Done(m')
            && (forall w :: Addr(w) ==> Walk(m', p.cr3, w) == Walk(p.m, p.cr3, w))
            && Agreement(p.(m := m'), sh) && Steady(p, sh, p.(m := m'), sh)
            && ViewFor(p.(m := m'), sh, PfKernel) == ViewFor(p, sh, PfKernel)
            && ViewFor(p.(m := m'), sh, PfUser) == ViewFor(p, sh, PfUser)
  {
    hide View, BitsOk, PoolOk, DirOk, WindowPage, Geometry, InPool, Walk, SelfMapped, Addr, Page, NotTable,
         DirTaken, Beyond;
    var f := ViewFor(p, sh, pf)[i];
    var v := Page(Win(p, pf), i);
    NoneClaimed(p, sh, pf, i);
    MappedPage(p, sh, pf, i, i);
    FrameOfPage(PoolFor(p, pf), ViewFor(p, sh, pf), sh.reserved, i);
    FreeNotTable(p, sh.reserved, f);
    FrameAligned(p, pf, f);
    InsidePage(p, v, o);
    hide ViewFor, Agree, Agreement, PoolFor, EntriesKept;
    SameTables(p.m, p.cr3, v, v + 4 * o);
    var m' := p.m[f + 4 * o := x];
    forall w | Addr(w)
      ensures Walk(m', p.cr3, w) == Walk(p.m, p.cr3, w)
    {
      StoreOutside(p.m, p.cr3, f, o, x, w);
    }
    forall k | 0 <= k < 1024
      ensures Entry(m', p.cr3, k) == Entry(p.m, p.cr3, k)
    {
      EntryOutside(p.m, p.cr3, f, o, x, k);
    }
    SameTranslations(p, sh, pf, i, m');
  }

  /** A change of memory that changes neither translations nor the directory. */
  lemma SameTranslations(p: Pages, sh: Shape, pf: PoolFlag, i: nat, m': Mem)
    requires Agreement(p, sh) && i < Span(sh, pf) && i in ViewFor(p, sh, pf)
    requires forall w :: Addr(w) ==> Walk(m', p.cr3, w) == Walk(p.m, p.cr3, w)
    requires forall k :: 0 <= k < 1024 ==> Entry(m', p.cr3, k) == Entry(p.m, p.cr3, k)
    ensures Agreement(p.(m := m'), sh) && Steady(p, sh, p.(m := m'), sh)
    ensures ViewFor(p.(m := m'), sh, PfKernel) == ViewFor(p, sh, PfKernel)
    ensures ViewFor(p.(m := m'), sh, PfUser) == ViewFor(p, sh, PfUser)
  {
    hide View, BitsOk, PoolOk, DirOk, WindowPage, Geometry, InPool, Walk, SelfMapped, Addr, Page, DirTaken, Beyond,
         Used, Mapped, EntriesKept;
    var v, to := Page(Win(p, pf), i), Some(ViewFor(p, sh, pf)[i]);
    var p' := p.(m := m');
    NoneClaimed(p, sh, pf, i);
    MappedPage(p, sh, pf, i, i);
    Remapped(p, m', v);
    DirAfter(p, sh.reserved, m', v, to, None);
    KeptEntries(p, m', v, to, None);
    OthersKept(p, sh, pf, i, i, i, m', to, None);
    ViewHit(p, m', pf, Span(sh, pf), i, to, None);
    assert ViewFor(p', sh, pf) == ViewFor(p, sh, pf);
    var w, n := Win(p, pf), Span(sh, pf);
    BitsBeyond(w, n, ViewFor(p, sh, pf), Beyond(p.m, p.cr3, w, n), Beyond(m', p.cr3, w, n), i, i);
    GeometryFree(p, p');
    TakenFrame(p, ViewFor(p, sh, PfKernel), sh.reserved, p', ViewFor(p', sh, PfKernel), sh.reserved);
    hide ViewFor;
    AllMapped(p', sh, pf, i);
  }

  lemma Remapped(p: Pages, m': Mem, v: int)
    requires Geometry(p) && forall w :: Addr(w) ==> Walk(m', p.cr3, w) == Walk(p.m, p.cr3, w)
    requires forall k :: 0 <= k < 1024 ==> Entry(m', p.cr3, k) == Entry(p.m, p.cr3, k)
    ensures Mapped(p, m', v, Walk(p.m, p.cr3, v), None)
  {
    hide Walk, Entry, Dir, Geometry, WindowPage;
    forall w | WindowPage(p, w)
      ensures Addr(w)
    {
      WindowIndices(p, w);
    }
  }

  lemma FrameAligned(p: Pages, pf: PoolFlag, f: int)
    requires Geometry(p) && InPool(PoolFor(p, pf), f)
    ensures f % 4096 == 0
  {
    FrameIndex(PoolFor(p, pf), f);
    AlignedSum(PoolFor(p, pf).start, (f - PoolFor(p, pf).start) / 4096);
  }

  /** Addresses of one page have one table entry. */
  lemma SameTables(m: Mem, cr3: int, v: int, w: int)
    requires Dir(w) == Dir(v) && Tab(w) == Tab(v) && Off(v) == 0 && Walk(m, cr3, v).Some?
    ensures Walk(m, cr3, w) == Some(Walk(m, cr3, v).value + Off(w))
  {
    hide Dir, Tab, Off, Base, Present, Entry;
  }

  /** A store outside the directory and the tables changes no translation. */
  lemma StoreOutside(m: Mem, cr3: int, f: int, o: nat, x: int, w: int)
    requires SelfMapped(m, cr3) && Addr(w) && f % 4096 == 0 && o < 1024 && f != cr3 && NotTable(m, cr3, f)
    ensures Walk(m[f + 4 * o := x], cr3, w) == Walk(m, cr3, w)
  {
    hide Dir, Tab, Off, Base, Present, SelfMapped, Addr, PtePtr, PdePtr;
    SelfAligned(m, cr3);
    PtrIndices(w);
    BaseAligned(Pde(m, cr3, w));
    Apart(cr3, Dir(w), f, o);
    if Present(Pde(m, cr3, w)) {
      Apart(Base(Pde(m, cr3, w)), Tab(w), f, o);
    }
  }

  lemma EntryOutside(m: Mem, cr3: int, f: int, o: nat, x: int, k: int)
    requires SelfMapped(m, cr3) && f % 4096 == 0 && o < 1024 && f != cr3 && 0 <= k < 1024
    ensures Entry(m[f + 4 * o := x], cr3, k) == Entry(m, cr3, k)
  {
    hide Base, Present, SelfMapped;
    SelfAligned(m, cr3);
    Apart(cr3, k, f, o);
  }

  lemma InsidePage(p: Pages, v: int, o: nat)
    requires Geometry(p) && WindowPage(p, v) && o < 1024
    ensures Dir(v + 4 * o) == Dir(v) && Tab(v + 4 * o) == Tab(v) && Off(v + 4 * o) == 4 * o && Off(v) == 0
  {
    WindowIndices(p, v);
    IndicesOf(v + 4 * o, Dir(v), Tab(v), 4 * o);
    hide *;
  }
}
