/**
 Which pages of a window belong to the arenas of a heap, what the others have mapped meanwhile, and what is left
 when the heap has given all of its pages back.
 */
module HeapPages {
  import opened Bitmap
  import opened PageModel
  import opened PageSteps
  import opened PageManager
  import opened HeapModel
  import opened HeapSteps

  /** An arena of `n` pages at `a` lies in the window. */
  predicate Placed(w: int, span: nat, a: int, n: nat) {
    0 <= Index(w, a) && Index(w, a) + n <= span && a == At(w, Index(w, a))
  }

  /** Page `i` belongs to an arena. */
  ghost predicate Owned(w: int, arenas: map<int, Arena>, i: int) {
    exists a :: a in arenas && Covers(a, arenas[a], At(w, i))
  }

  /** The mapped pages are those of the arenas and, with unchanged frames, those of `base`. */
  ghost predicate Owns(w: int, span: nat, arenas: map<int, Arena>, view: map<int, int>, base: map<int, int>) {
    && (forall a :: a in arenas ==> Placed(w, span, a, PageCount(arenas[a])))
    && (forall i :: i in view <==> i in base || Owned(w, arenas, i))
    && (forall i :: i in base ==> !Owned(w, arenas, i))
    && (forall i :: i in base ==> i in view && view[i] == base[i])
  }

  /** The pages of an arena. */
  lemma PlacedPages(w: int, span: nat, a: int, ar: Arena, i: int)
    requires Placed(w, span, a, PageCount(ar))
    ensures Covers(a, ar, At(w, i)) <==> InRange(i, Index(w, a), PageCount(ar))
  {
  }

  /** If an arena covers a byte it covers the start of its page. */
  lemma PageOfByte(w: int, span: nat, a: int, ar: Arena, x: int)
    requires Placed(w, span, a, PageCount(ar)) && Covers(a, ar, x)
    ensures InRange(Index(w, x), Index(w, a), PageCount(ar)) && Covers(a, ar, At(w, Index(w, x)))
  {
  }

  /** Pages that were not mapped are vacant. */
  lemma VacantPages(w: int, span: nat, arenas: map<int, Arena>, view: map<int, int>, base: map<int, int>,
                    start: nat, n: nat)
    requires Owns(w, span, arenas, view, base)
    requires forall i :: start <= i < start + n ==> i !in view
    ensures Vacant(arenas, At(w, start), n)
  {
    hide Placed, Covers;
    forall c, x | c in arenas && Covers(c, arenas[c], x)
      ensures !(At(w, start) <= x < At(w, start) + 4096 * n)
    {
      PageOfByte(w, span, c, arenas[c], x);
      assert Owned(w, arenas, Index(w, x));
      hide Owns, Owned;
      if At(w, start) <= x < At(w, start) + 4096 * n {
        Between(w, start, n, x);
      }
    }
  }

  lemma Between(w: int, start: int, n: nat, x: int)
    requires At(w, start) <= x < At(w, start) + 4096 * n
    ensures start <= Index(w, x) < start + n
  {
  }

  /** A new arena on pages that have just been mapped. */
  lemma OwnsMore(w: int, span: nat, arenas: map<int, Arena>, view: map<int, int>, view': map<int, int>,
                 base: map<int, int>, start: nat, ar: Arena)
    requires Owns(w, span, arenas, view, base) && start + PageCount(ar) <= span && At(w, start) !in arenas
    requires forall i :: start <= i < start + PageCount(ar) ==> i !in view
    requires forall i :: i in view' <==> InRange(i, start, PageCount(ar)) || i in view
    requires forall i :: i in view && !InRange(i, start, PageCount(ar)) ==> view'[i] == view[i]
    ensures Owns(w, span, arenas[At(w, start) := ar], view', base)
  {
    var a := At(w, start);
    IndexAt(w, start);
    hide Index, Covers, PageCount;
    assert Placed(w, span, a, PageCount(ar));
    var arenas' := arenas[a := ar];
    forall i
      ensures Owned(w, arenas', i) <==> Owned(w, arenas, i) || InRange(i, start, PageCount(ar))
    {
      PlacedPages(w, span, a, ar, i);
      OwnedAdd(w, arenas, a, ar, i);
      hide Owned;
    }
    hide Owned;
  }

  lemma OwnedAdd(w: int, arenas: map<int, Arena>, a: int, ar: Arena, i: int)
    requires a !in arenas
    ensures Owned(w, arenas[a := ar], i) <==> Owned(w, arenas, i) || Covers(a, ar, At(w, i))
  {
    hide Covers, At;
    var arenas' := arenas[a := ar];
    if c :| c in arenas && Covers(c, arenas[c], At(w, i)) {
      assert c in arenas' && Covers(c, arenas'[c], At(w, i));
    }
    if Covers(a, ar, At(w, i)) {
      assert a in arenas' && Covers(a, arenas'[a], At(w, i));
    }
  }

  /** An arena whose pages have just been unmapped. */
  lemma OwnsLess(w: int, span: nat, arenas: map<int, Arena>, view: map<int, int>, view': map<int, int>,
                 base: map<int, int>, a: int)
    requires ArenasApart(arenas) && Owns(w, span, arenas, view, base) && a in arenas
    requires forall i :: i in view' <==> !InRange(i, Index(w, a), PageCount(arenas[a])) && i in view
    requires forall i :: i in view && !InRange(i, Index(w, a), PageCount(arenas[a])) ==> view'[i] == view[i]
    ensures Owns(w, span, arenas - {a}, view', base)
  {
    hide Index, Covers, Placed, PageCount, ArenasApart;
    forall i
      ensures Owned(w, arenas - {a}, i) <==> Owned(w, arenas, i) && !InRange(i, Index(w, a), PageCount(arenas[a]))
      ensures InRange(i, Index(w, a), PageCount(arenas[a])) ==> Owned(w, arenas, i)
    {
      PlacedPages(w, span, a, arenas[a], i);
      OwnedDrop(w, arenas, a, i);
    }
    hide Owned;
  }

  lemma OwnedDrop(w: int, arenas: map<int, Arena>, a: int, i: int)
    requires ArenasApart(arenas) && a in arenas
    ensures Owned(w, arenas - {a}, i) <==> Owned(w, arenas, i) && !Covers(a, arenas[a], At(w, i))
    ensures Covers(a, arenas[a], At(w, i)) ==> Owned(w, arenas, i)
  {
    hide Covers, At;
    var arenas' := arenas - {a};
    if c :| c in arenas && Covers(c, arenas[c], At(w, i)) {
      assert c != a ==> c in arenas' && Covers(c, arenas'[c], At(w, i));
    }
    if c :| c in arenas' && Covers(c, arenas'[c], At(w, i)) {
      assert c in arenas && Covers(c, arenas[c], At(w, i));
    }
  }

  /** Counts do not matter. */
  lemma OwnsRecount(w: int, span: nat, arenas: map<int, Arena>, arenas': map<int, Arena>, view: map<int, int>,
                    base: map<int, int>, a: int)
    requires Owns(w, span, arenas, view, base) && Recount(arenas, arenas', a)
    ensures Owns(w, span, arenas', view, base)
  {
    hide At, Placed;
    forall i
      ensures Owned(w, arenas', i) <==> Owned(w, arenas, i)
    {
      if c :| c in arenas && Covers(c, arenas[c], At(w, i)) { assert c in arenas' && Covers(c, arenas'[c], At(w, i)); }
      if c :| c in arenas' && Covers(c, arenas'[c], At(w, i)) { assert c in arenas && Covers(c, arenas[c], At(w, i)); }
    }
    hide Owned, Covers;
  }

  /** The pages of an arena are mapped. */
  lemma ArenaMapped(w: int, span: nat, arenas: map<int, Arena>, view: map<int, int>, base: map<int, int>, a: int,
                    i: int)
    requires Owns(w, span, arenas, view, base) && a in arenas && InRange(i, Index(w, a), PageCount(arenas[a]))
    ensures i in view && i !in base
  {
    hide Index, Covers, PageCount, At, Placed;
    PlacedPages(w, span, a, arenas[a], i);
    assert Owned(w, arenas, i);
  }

  lemma OwnsNothing(w: int, span: nat, view: map<int, int>, base: map<int, int>)
    requires Owns(w, span, map[], view, base)
    ensures view == base
  {
    assert forall i :: !Owned(w, map[], i);
    hide Owned, Placed;
    forall i | i in view ensures i in base && view[i] == base[i] {}
    forall i | i in base ensures i in view {}
  }

  /** A step of others that leaves the pages of the arenas: what it changes belongs to the base. */
  lemma OwnsRely(w: int, span: nat, arenas: map<int, Arena>, view: map<int, int>, base: map<int, int>,
                 view': map<int, int>)
    requires Owns(w, span, arenas, view, base)
    requires forall i :: Owned(w, arenas, i) ==> i in view' && i in view && view'[i] == view[i]
    ensures Owns(w, span, arenas, view', After(base, view, view'))
  {
    hide Owned, Placed;
  }

  // ---------------------------------------------------------------------------------------
  // The pages as they would be without the heap
  // ---------------------------------------------------------------------------------------

  /** Translations, bitmaps and pools without what the heap has taken, and the frames set aside that do not
      hold tables made for the heap. */
  datatype Base = Base(kview: map<int, int>, uview: map<int, int>, kwin: Window, uwin: Window, kpool: Pool,
                       upool: Pool, reserved: set<int>)

  /** Where nothing belongs to a heap. */
  ghost function BaseOf(p: Pages, sh: Shape): Base {
    Base(ViewFor(p, sh, PfKernel), ViewFor(p, sh, PfUser), p.kwin, p.uwin, p.kpool, p.upool, sh.reserved)
  }

  function BaseView(base: Base, pf: PoolFlag): map<int, int> {
    if pf.PfKernel? then base.kview else base.uview
  }

  predicate Same(view: map<int, int>, view': map<int, int>, i: int) {
    if i in view then i in view' && view'[i] == view[i] else i !in view'
  }

  /** What changes from `view` to `view'` changes in the base. */
  function After(base: map<int, int>, view: map<int, int>, view': map<int, int>): map<int, int> {
    map i | i in base.Keys + view'.Keys && (if Same(view, view', i) then i in base else i in view') ::
      if Same(view, view', i) then base[i] else view'[i]
  }

  /** The bitmap that stands for the pages of `view`; a guard bit is as it is. */
  predicate WindowRel(b: Window, w: Window, span: nat, view: map<int, int>) {
    SameSpot(b, w) && forall i :: 0 <= i < |w.bits| ==> (b.bits[i] <==> if i < span then i in view else w.bits[i])
  }

  /** The pool from which the frames of `view` and the reserved ones have been taken. */
  ghost predicate PoolRel(b: Pool, pool: Pool, view: map<int, int>, reserved: set<int>) {
    && SamePlace(b, pool)
    && forall j :: 0 <= j < |b.bits| ==> (b.bits[j] <==> Used(view, Frame(b, j)) || Frame(b, j) in reserved)
  }

  function BaseWindow(w: Window, span: nat, view: map<int, int>): (b: Window)
    ensures WindowRel(b, w, span, view)
  {
    Window(w.start, seq(|w.bits|, i requires 0 <= i < |w.bits| => if i < span then i in view else w.bits[i]))
  }

  ghost function BasePool(pool: Pool, view: map<int, int>, reserved: set<int>): (b: Pool)
    ensures PoolRel(b, pool, view, reserved)
  {
    var b := Pool(pool.start,
                  seq(|pool.bits|, j requires 0 <= j < |pool.bits| =>
                    Used(view, Frame(pool, j)) || Frame(pool, j) in reserved));
    assert forall j :: Frame(b, j) == Frame(pool, j);
    b
  }

  /** The base after a step of others. */
  ghost function Rebased(base: Base, p: Pages, sh: Shape, p': Pages, sh': Shape): Base {
    var kview := After(base.kview, ViewFor(p, sh, PfKernel), ViewFor(p', sh', PfKernel));
    var uview := After(base.uview, ViewFor(p, sh, PfUser), ViewFor(p', sh', PfUser));
    var reserved := sh'.reserved - (sh.reserved - base.reserved);
    Base(kview, uview, BaseWindow(p'.kwin, sh'.kspan, kview), BaseWindow(p'.uwin, sh'.uspan, uview),
         BasePool(p'.kpool, kview, reserved), BasePool(p'.upool, uview, reserved), reserved)
  }

  // ---------------------------------------------------------------------------------------
  // A heap beside the others
  // ---------------------------------------------------------------------------------------

  /** Nothing in the other window and nothing in the directory is the heap's, what it has had set aside are
      tables, and bitmaps and pools of the base are as its translations say. */
  ghost predicate Beside(base: Base, p: Pages, sh: Shape, pf: PoolFlag) {
    && ViewFor(p, sh, Other(pf)) == BaseView(base, Other(pf))
    && base.reserved <= sh.reserved
    && (forall f :: f in sh.reserved ==> f in base.reserved || IsTable(p.m, p.cr3, f))
    && DirTaken(p, base.kview, base.reserved)
    && WindowRel(base.kwin, p.kwin, sh.kspan, base.kview) && WindowRel(base.uwin, p.uwin, sh.uspan, base.uview)
    && PoolRel(base.kpool, p.kpool, base.kview, base.reserved)
    && PoolRel(base.upool, p.upool, base.uview, base.reserved)
  }

  /** The arenas of a heap own all pages of the window that are not those of the base. */
  ghost predicate Settled(base: Base, p: Pages, sh: Shape, pf: PoolFlag, arenas: map<int, Arena>) {
    && Beside(base, p, sh, pf)
    && Owns(Win(p, pf).start, Span(sh, pf), arenas, ViewFor(p, sh, pf), BaseView(base, pf))
  }

  /** The guard bit is as before. */
  predicate GuardSame(w: Window, w': Window, span: nat) {
    |w'.bits| == |w.bits| && forall i :: span <= i < |w.bits| ==> w'.bits[i] == w.bits[i]
  }

  lemma WindowRelMoved(b: Window, w: Window, w': Window, span: nat, view: map<int, int>)
    requires WindowRel(b, w, span, view) && SameSpot(w, w') && GuardSame(w, w', span)
    ensures WindowRel(b, w', span, view)
  {
  }

  lemma BesideMoved(base: Base, p: Pages, sh: Shape, p': Pages, sh': Shape, pf: PoolFlag, start: int, cnt: int,
                    gone: bool)
    requires Beside(base, p, sh, pf) && Moved(p, sh, p', sh', pf, start, cnt, gone)
    requires Win(p', Other(pf)) == Win(p, Other(pf)) && GuardSame(Win(p, pf), Win(p', pf), Span(sh, pf))
    ensures Beside(base, p', sh', pf)
  {
    hide ViewFor, EntriesKept, IsTable, BeyondKeeps, WindowRel, Used, GuardSame;
    forall f | f in sh'.reserved
      ensures f in base.reserved || IsTable(p'.m, p'.cr3, f)
    {
      if IsTable(p.m, p.cr3, f) { TableStays(p, p'.m, f); }
    }
    if pf.PfKernel? {
      WindowRelMoved(base.kwin, p.kwin, p'.kwin, sh.kspan, base.kview);
    } else {
      WindowRelMoved(base.uwin, p.uwin, p'.uwin, sh.uspan, base.uview);
    }
  }

  /** Both bitmaps of virtual pages are those of the base, and so are both pools, but for the frames of the page
      tables made for the heap, which are never given back. */
  ghost predicate Restored(base: Base, p: Pages, sh: Shape) {
    && p.kwin == base.kwin && p.uwin == base.uwin && base.reserved <= sh.reserved
    && (forall f :: f in sh.reserved - base.reserved ==> IsTable(p.m, p.cr3, f))
    && PoolRestored(base.kpool, p.kpool, sh.reserved - base.reserved)
    && PoolRestored(base.upool, p.upool, sh.reserved - base.reserved)
    && (sh.reserved == base.reserved ==> p.kpool == base.kpool && p.upool == base.upool)
  }

  ghost predicate PoolRestored(pool0: Pool, pool: Pool, tables: set<int>) {
    && SamePlace(pool0, pool)
    && forall j :: 0 <= j < |pool.bits| ==> (pool.bits[j] <==> pool0.bits[j] || Frame(pool, j) in tables)
  }

  lemma PoolBack(b: Pool, pool: Pool, view: map<int, int>, r0: set<int>, r: set<int>)
    requires PoolRel(b, pool, view, r0) && PoolOk(pool, view, r) && r0 <= r
    ensures PoolRestored(b, pool, r - r0)
    ensures r == r0 ==> pool == b
  {
    hide InPool, Used;
    forall j | 0 <= j < |pool.bits|
      ensures pool.bits[j] <==> b.bits[j] || Frame(pool, j) in r - r0
    {
      assert Frame(b, j) == Frame(pool, j);
    }
    if r == r0 { assert pool.bits == b.bits; }
  }

  lemma WindowBack(b: Window, w: Window, span: nat, view: map<int, int>, beyond: bool)
    requires WindowRel(b, w, span, view) && BitsOk(w, span, view, beyond, 0, 0)
    ensures w == b
  {
    forall i | 0 <= i < |w.bits|
      ensures w.bits[i] == b.bits[i]
    {
      if i < span { assert i in view <==> w.bits[i]; }
    }
    assert w.bits == b.bits;
  }

  /** With the translations those of the base, everything is. */
  lemma Conserved(base: Base, p: Pages, sh: Shape, pf: PoolFlag)
    requires Agreement(p, sh) && Beside(base, p, sh, pf) && ViewFor(p, sh, pf) == BaseView(base, pf)
    ensures Restored(base, p, sh)
  {
    hide Geometry, DirOk, BitsOk, PoolOk, ViewFor, PoolRestored, DirTaken, Beyond, IsTable, WindowRel, PoolRel;
    WindowBack(base.kwin, p.kwin, sh.kspan, ViewFor(p, sh, PfKernel), Beyond(p.m, p.cr3, p.kwin, sh.kspan));
    WindowBack(base.uwin, p.uwin, sh.uspan, ViewFor(p, sh, PfUser), Beyond(p.m, p.cr3, p.uwin, sh.uspan));
    PoolBack(base.kpool, p.kpool, ViewFor(p, sh, PfKernel), base.reserved, sh.reserved);
    PoolBack(base.upool, p.upool, ViewFor(p, sh, PfUser), base.reserved, sh.reserved);
  }

  // ---------------------------------------------------------------------------------------
  // Steps of the heap
  // ---------------------------------------------------------------------------------------

  lemma ClearUnmapped(p: Pages, sh: Shape, pf: PoolFlag, start: nat, n: nat)
    requires Agreement(p, sh) && start + n <= Span(sh, pf) && start + n <= |Win(p, pf).bits|
             && AllClear(Win(p, pf).bits, start, n)
    ensures forall i :: start <= i < start + n ==> i !in ViewFor(p, sh, pf)
  {
    hide Geometry, DirOk, PoolOk, ViewFor, DirTaken, Beyond;
  }

  lemma WindowAligned(p: Pages, sh: Shape, pf: PoolFlag)
    requires Agreement(p, sh)
    ensures Win(p, pf).start % 4096 == 0
  {
    hide DirOk, PoolOk, ViewFor, BitsOk, DirTaken, Beyond;
  }

  lemma AtAligned(w: int, i: int)
    requires w % 4096 == 0
    ensures At(w, i) % 4096 == 0
  {
  }

  /** New pages are vacant, and become an arena. */
  lemma SettledGot(base: Base, p: Pages, sh: Shape, p': Pages, sh': Shape, pf: PoolFlag, arenas: map<int, Arena>,
                   v: int, ar: Arena)
    requires Agreement(p, sh) && ArenasApart(arenas) && Settled(base, p, sh, pf, arenas) && PageCount(ar) > 0
    requires ar.Small? ==> ar.d < DESC_CNT
    requires Got(p, sh, p', sh', pf, v, PageCount(ar))
    ensures v % 4096 == 0 && Vacant(arenas, v, PageCount(ar)) && v !in arenas
    ensures Settled(base, p', sh', pf, arenas[v := ar])
  {
    hide Agreement, ViewFor, Fill, AllClear, Beside, PageCount, Owns, ArenasApart, Vacant, Index, At;
    var w, n := Win(p, pf), PageCount(ar);
    var start := Index(w.start, v);
    var view := ViewFor(p, sh, pf);
    WindowAligned(p, sh, pf);
    AtAligned(w.start, start);
    ClearUnmapped(p, sh, pf, start, n);
    VacantPages(w.start, Span(sh, pf), arenas, view, BaseView(base, pf), start, n);
    AddApart(arenas, v, ar);
    OwnsMore(w.start, Span(sh, pf), arenas, view, ViewFor(p', sh', pf), BaseView(base, pf), start, ar);
    FillBeyond(w.bits, start, n, true);
    BesideMoved(base, p, sh, p', sh', pf, start, n, false);
  }

  lemma FillBeyond(bits: seq<bool>, start: nat, n: nat, v: bool)
    requires start + n <= |bits|
    ensures forall i :: start + n <= i < |bits| ==> Fill(bits, start, n, v)[i] == bits[i]
  {
  }

  /** An arena can be given back: its pages are mapped, and none is the page of the directory, because that
      belongs to the base. */
  lemma SettledReady(base: Base, p: Pages, sh: Shape, pf: PoolFlag, arenas: map<int, Arena>, a: int)
    requires Agreement(p, sh) && Settled(base, p, sh, pf, arenas) && a in arenas
    ensures Given(p, sh, pf, a, PageCount(arenas[a]))
  {
    hide ViewFor, Beside, PageCount, Owned, Agreement, Index, At;
    var w := Win(p, pf);
    assert Placed(w.start, Span(sh, pf), a, PageCount(arenas[a]));
    forall i | Index(w.start, a) <= i < Index(w.start, a) + PageCount(arenas[a])
      ensures i in ViewFor(p, sh, pf) && ViewFor(p, sh, pf)[i] != p.cr3
    {
      ArenaMapped(w.start, Span(sh, pf), arenas, ViewFor(p, sh, pf), BaseView(base, pf), a, i);
      hide Owns;
      NotDirectory(base, p, sh, pf, i);
    }
  }

  /** A page that is not of the base is not that of the directory. */
  lemma NotDirectory(base: Base, p: Pages, sh: Shape, pf: PoolFlag, i: int)
    requires Agreement(p, sh) && Beside(base, p, sh, pf) && i in ViewFor(p, sh, pf) && i !in BaseView(base, pf)
    requires forall j :: j in BaseView(base, pf) ==>
               j in ViewFor(p, sh, pf) && ViewFor(p, sh, pf)[j] == BaseView(base, pf)[j]
    ensures ViewFor(p, sh, pf)[i] != p.cr3
  {
    hide View, ViewFor, Geometry, DirOk, BitsOk, Beyond, IsTable, InPool, WindowRel, PoolRel;
    if pf.PfUser? { hide Used; }
  }

  lemma SettledGave(base: Base, p: Pages, sh: Shape, p': Pages, pf: PoolFlag, arenas: map<int, Arena>, a: int)
    requires ArenasApart(arenas) && Settled(base, p, sh, pf, arenas) && a in arenas
    requires Gave(p, sh, p', pf, a, PageCount(arenas[a]))
    ensures Settled(base, p', sh, pf, arenas - {a})
  {
    hide ViewFor, Fill, Beside, PageCount, Owns, ArenasApart, Index, At;
    var w := Win(p, pf);
    OwnsLess(w.start, Span(sh, pf), arenas, ViewFor(p, sh, pf), ViewFor(p', sh, pf), BaseView(base, pf), a);
    FillBeyond(w.bits, Index(w.start, a), PageCount(arenas[a]), false);
    BesideMoved(base, p, sh, p', sh, pf, Index(w.start, a), PageCount(arenas[a]), true);
  }

  lemma SettledRecount(base: Base, p: Pages, sh: Shape, pf: PoolFlag, arenas: map<int, Arena>,
                       arenas': map<int, Arena>, a: int)
    requires Settled(base, p, sh, pf, arenas) && Recount(arenas, arenas', a)
    ensures Settled(base, p, sh, pf, arenas')
  {
    hide ViewFor, Beside, Owns, Recount;
    OwnsRecount(Win(p, pf).start, Span(sh, pf), arenas, arenas', ViewFor(p, sh, pf), BaseView(base, pf), a);
  }

  /** A heap begins with no arenas. */
  lemma SettledStart(p: Pages, sh: Shape, pf: PoolFlag)
    requires Agreement(p, sh)
    ensures Settled(BaseOf(p, sh), p, sh, pf, map[])
  {
    hide ViewFor, Geometry, DirOk, Beyond, DirTaken, IsTable, InPool, Used;
  }

  /** A pointer to a live block is behind the start of the window. */
  lemma SettledAbove(base: Base, p: Pages, sh: Shape, pf: PoolFlag, arenas: map<int, Arena>, a: int)
    requires Settled(base, p, sh, pf, arenas) && a in arenas
    ensures a >= Win(p, pf).start
  {
    hide ViewFor, PageCount, Owned, Beside;
    assert Placed(Win(p, pf).start, Span(sh, pf), a, PageCount(arenas[a]));
  }

  /** When a heap has no arenas left, everything is as in the base. */
  lemma SettledEnd(base: Base, p: Pages, sh: Shape, pf: PoolFlag)
    requires Agreement(p, sh) && Settled(base, p, sh, pf, map[])
    ensures Restored(base, p, sh)
    ensures ViewFor(p, sh, PfKernel) == base.kview && ViewFor(p, sh, PfUser) == base.uview
  {
    hide ViewFor, Owns, Agreement, Restored, IsTable, DirTaken, WindowRel, PoolRel;
    OwnsNothing(Win(p, pf).start, Span(sh, pf), ViewFor(p, sh, pf), BaseView(base, pf));
    Conserved(base, p, sh, pf);
  }

  // ---------------------------------------------------------------------------------------
  // Steps of others
  // ---------------------------------------------------------------------------------------

  /** What the heap relies on while others work: its window stays in place, its pages keep their frames, none of
      which becomes the directory, and the tables made for it stay tables. */
  ghost predicate Rely(base: Base, p: Pages, sh: Shape, p': Pages, sh': Shape, pf: PoolFlag, arenas: map<int, Arena>) {
    var view, view' := ViewFor(p, sh, pf), ViewFor(p', sh', pf);
    && SameSpot(Win(p, pf), Win(p', pf)) && Span(sh', pf) == Span(sh, pf)
    && (forall i :: Owned(Win(p, pf).start, arenas, i) ==>
          i in view' && i in view && view'[i] == view[i] && view'[i] != p'.cr3)
    && (forall f :: f in sh.reserved - base.reserved ==> f in sh'.reserved && IsTable(p'.m, p'.cr3, f))
    && (TablesThere(p, pf) ==> TablesThere(p', pf))
  }

  /** Such a step leaves a heap as it is, with the base moved along. */
  lemma SettledRely(base: Base, p: Pages, sh: Shape, p': Pages, sh': Shape, pf: PoolFlag, arenas: map<int, Arena>)
    requires Agreement(p', sh') && Settled(base, p, sh, pf, arenas) && Rely(base, p, sh, p', sh', pf, arenas)
    ensures Settled(Rebased(base, p, sh, p', sh'), p', sh', pf, arenas)
  {
    hide ViewFor, Owned, Owns, After, Agreement, IsTable, DirTaken, WindowRel, PoolRel, TablesThere, Used, BaseWindow,
         BasePool;
    var base' := Rebased(base, p, sh, p', sh');
    OwnsRely(Win(p, pf).start, Span(sh, pf), arenas, ViewFor(p, sh, pf), BaseView(base, pf), ViewFor(p', sh', pf));
    AfterAll(ViewFor(p, sh, Other(pf)), ViewFor(p', sh', Other(pf)));
    RelyTaken(base, p, sh, p', sh', pf, arenas);
  }

  /** In the other window the base is all there is. */
  lemma AfterAll(view: map<int, int>, view': map<int, int>)
    ensures After(view, view, view') == view'
  {
    var m := After(view, view, view');
    forall i | i in m ensures i in view' && m[i] == view'[i] {}
    forall i | i in view' ensures i in m {}
  }

  /** The directory is not the heap's. */
  lemma RelyTaken(base: Base, p: Pages, sh: Shape, p': Pages, sh': Shape, pf: PoolFlag, arenas: map<int, Arena>)
    requires Agreement(p', sh') && Settled(base, p, sh, pf, arenas) && Rely(base, p, sh, p', sh', pf, arenas)
    ensures var base' := Rebased(base, p, sh, p', sh'); DirTaken(p', base'.kview, base'.reserved)
  {
    hide View, ViewFor, Owned, Geometry, WindowOk, PoolOk, DirOk, WindowRel, PoolRel, TablesThere,
         InPool, Owns, After, BaseWindow, BasePool, IsTable, Beyond;
    var base' := Rebased(base, p, sh, p', sh');
    OwnsRely(Win(p, pf).start, Span(sh, pf), arenas, ViewFor(p, sh, pf), BaseView(base, pf), ViewFor(p', sh', pf));
    AfterAll(ViewFor(p, sh, Other(pf)), ViewFor(p', sh', Other(pf)));
    if p'.cr3 in sh'.reserved && p'.cr3 in sh.reserved - base.reserved {
      TableNotDirectory(p', sh'.reserved, p'.cr3);
    }
    var view' := ViewFor(p', sh', PfKernel);
    if Used(view', p'.cr3) {
      var j :| j in view' && view'[j] == p'.cr3;
      if pf.PfKernel? {
        OwnsBase(Win(p, pf).start, Span(sh, pf), arenas, view', base'.kview, j);
      }
      assert j in base'.kview && base'.kview[j] == p'.cr3;
    }
  }

  lemma OwnsBase(w: int, span: nat, arenas: map<int, Arena>, view: map<int, int>, base: map<int, int>, j: int)
    requires Owns(w, span, arenas, view, base) && j in view && !Owned(w, arenas, j)
    ensures j in base && base[j] == view[j]
  {
    hide Owned, Placed;
  }

  /** Pages mapped or unmapped by others, none of them the heap's, are such a step. */
  lemma RelyMoved(base: Base, p: Pages, sh: Shape, p': Pages, sh': Shape, pf: PoolFlag, arenas: map<int, Arena>,
                  pf': PoolFlag, start: int, cnt: int, gone: bool)
    requires Agreement(p, sh) && Settled(base, p, sh, pf, arenas) && Moved(p, sh, p', sh', pf', start, cnt, gone)
    requires pf' == pf ==> forall i :: InRange(i, start, cnt) ==> !Owned(Win(p, pf).start, arenas, i)
    ensures Rely(base, p, sh, p', sh', pf, arenas)
  {
    hide ViewFor, Owned, Agreement, IsTable, EntriesKept, DirTaken, WindowRel, PoolRel, TablesThere, BeyondKeeps,
         Placed;
    forall i | Owned(Win(p, pf).start, arenas, i)
      ensures i in ViewFor(p, sh, pf) && ViewFor(p, sh, pf)[i] != p.cr3
    {
      NotDirectory(base, p, sh, pf, i);
    }
    forall f | f in sh.reserved - base.reserved ensures IsTable(p'.m, p'.cr3, f) { TableStays(p, p'.m, f); }
    if TablesThere(p, pf) { TablesStay(p, sh, p', sh', pf); }
  }

  /** What others have mapped is in the base, and nothing else has changed there. */
  ghost predicate Grew(base: Base, base': Base, pf: PoolFlag, start: int, n: int, view: map<int, int>) {
    && BaseView(base', Other(pf)) == BaseView(base, Other(pf))
    && (forall i :: i in BaseView(base', pf) <==> i in BaseView(base, pf) || InRange(i, start, n))
    && (forall i :: i in BaseView(base', pf) ==>
          if InRange(i, start, n) then i in view && BaseView(base', pf)[i] == view[i]
          else i in BaseView(base, pf) && BaseView(base', pf)[i] == BaseView(base, pf)[i])
  }

  lemma BaseGrows(base: Base, p: Pages, sh: Shape, p': Pages, sh': Shape, pf: PoolFlag, start: int, n: int)
    requires Moved(p, sh, p', sh', pf, start, n, false)
    requires forall i :: InRange(i, start, n) ==> i !in ViewFor(p, sh, pf)
    ensures Grew(base, Rebased(base, p, sh, p', sh'), pf, start, n, ViewFor(p', sh', pf))
  {
    hide ViewFor, Steady, After, BaseWindow, BasePool;
    AfterSame(BaseView(base, Other(pf)), ViewFor(p, sh, Other(pf)));
    AfterMoved(BaseView(base, pf), ViewFor(p, sh, pf), ViewFor(p', sh', pf), start, n);
  }

  lemma AfterSame(base: map<int, int>, view: map<int, int>)
    ensures After(base, view, view) == base
  {
    var m := After(base, view, view);
    forall i | i in m ensures i in base && m[i] == base[i] {}
    forall i | i in base ensures i in m {}
  }

  lemma AfterMoved(base: map<int, int>, view: map<int, int>, view': map<int, int>, start: int, n: int)
    requires forall i :: InRange(i, start, n) ==> i !in view
    requires forall i :: i in view' <==> InRange(i, start, n) || i in view
    requires forall i :: i in view && !InRange(i, start, n) ==> view'[i] == view[i]
    ensures var m := After(base, view, view');
            && (forall i :: i in m <==> i in base || InRange(i, start, n))
            && (forall i :: i in m ==> if InRange(i, start, n) then i in view' && m[i] == view'[i]
                                       else i in base && m[i] == base[i])
  {
    hide InRange;
  }

  /** Pages that were not mapped are not the heap's. */
  lemma NotOwned(base: Base, p: Pages, sh: Shape, pf: PoolFlag, arenas: map<int, Arena>, i: int)
    requires Settled(base, p, sh, pf, arenas) && (i !in ViewFor(p, sh, pf) || i in BaseView(base, pf))
    ensures !Owned(Win(p, pf).start, arenas, i)
  {
    hide ViewFor, Owned, Beside, Placed;
  }
}
