/**
 Heaps while address spaces take turns: that of the kernel goes on under every directory, and that of a process
 waits until its directory is in use again.
 */
module HeapTurns {
  import opened Common
  import opened Paging
  import opened PageModel
  import opened PageSteps
  import opened FrameCount
  import opened PageManager
  import opened HeapModel
  import opened Process
  import opened Spaces
  import opened Turns
  import HP = HeapPages

  // ---------------------------------------------------------------------------------------
  // The kernel heap and the directories
  // ---------------------------------------------------------------------------------------

  /** The directory of `t` is not the heap's. */
  ghost predicate Held(base: HP.Base, p: Pages, t: Space) {
    DirTaken(PagesOf(p, t), base.kview, base.reserved)
  }

  lemma HeldNotOwned(base: HP.Base, p: Pages, sh: Shape, arenas: map<int, Arena>, t: Space, i: int)
    requires Agreement(p, sh) && HP.Settled(base, p, sh, PfKernel, arenas) && Held(base, p, t)
    requires HP.Owned(p.kwin.start, arenas, i)
    ensures i in ViewFor(p, sh, PfKernel) && ViewFor(p, sh, PfKernel)[i] != t.cr3
  {
    hide View, ViewFor, Geometry, DirOk, BitsOk, PageModel.Beyond, InPool, IsTable, HP.WindowRel, HP.PoolRel, HP.Owned,
         HP.Placed;
  }

  /** While the heap maps and unmaps pages, directories stay mapped. */
  lemma HeldUsed(base: HP.Base, p: Pages, sh: Shape, arenas: map<int, Arena>, p': Pages, sh': Shape,
                 arenas': map<int, Arena>, t: Space)
    requires Agreement(p, sh) && HP.Settled(base, p, sh, PfKernel, arenas)
             && HP.Settled(base, p', sh', PfKernel, arenas')
    requires Held(base, p, t) && Used(ViewFor(p, sh, PfKernel), t.cr3)
    ensures Used(ViewFor(p', sh', PfKernel), t.cr3)
  {
    hide Agreement, View, ViewFor, HP.Owns, HP.Beside, DirTaken, InPool;
    var view, view' := ViewFor(p, sh, PfKernel), ViewFor(p', sh', PfKernel);
    var i :| i in view && view[i] == t.cr3;
    if HP.Owned(p.kwin.start, arenas, i) {
      HeldNotOwned(base, p, sh, arenas, t, i);
    }
    HP.OwnsBase(p.kwin.start, sh.kspan, arenas, view, base.kview, i);
    BaseIn(p'.kwin.start, sh'.kspan, arenas', view', base.kview, i);
    assert i in view' && view'[i] == t.cr3;
  }

  lemma BaseIn(w: int, span: nat, arenas: map<int, Arena>, view: map<int, int>, base: map<int, int>, i: int)
    requires HP.Owns(w, span, arenas, view, base) && i in base
    ensures i in view && view[i] == base[i]
  {
    hide HP.Owned, HP.Placed;
  }

  /** A step of others leaves the directories to others. */
  lemma HeldRebased(base: HP.Base, p: Pages, sh: Shape, p': Pages, sh': Shape, arenas: map<int, Arena>, t: Space)
    requires Agreement(p, sh) && HP.Settled(base, p, sh, PfKernel, arenas) && Held(base, p, t)
    requires Agreement(p', sh') && Neighbour(p', sh', t) && HP.Rely(base, p, sh, p', sh', PfKernel, arenas)
    requires sh.reserved == base.reserved
    ensures Held(HP.Rebased(base, p, sh, p', sh'), p', t)
  {
    hide Agreement, View, ViewFor, HP.Owns, HP.Beside, HP.Settled, InPool, UserView, Frames, HP.Owned, Used,
         HP.BaseWindow, HP.BasePool, HP.After, IsTable, TablesThere, Spaces.Apart, Tidy;
    var base' := HP.Rebased(base, p, sh, p', sh');
    HP.SettledRely(base, p, sh, p', sh', PfKernel, arenas);
    PoolPart(PagesOf(p', t), ShapeOf(p', sh', t), PfKernel);
    SharedOf(p'.m, Current(p', sh'), t);
    KernelViewOf(p', sh', t);
    KernelFrames(p', sh', t, t.cr3);
    if Used(ViewFor(p', sh', PfKernel), t.cr3) {
      UsedInBase(base, p, sh, base', p', sh', arenas, t);
    }
  }

  lemma UsedInBase(base: HP.Base, p: Pages, sh: Shape, base': HP.Base, p': Pages, sh': Shape, arenas: map<int, Arena>,
                   t: Space)
    requires Agreement(p, sh) && HP.Settled(base, p, sh, PfKernel, arenas) && Held(base, p, t)
    requires HP.Settled(base', p', sh', PfKernel, arenas) && HP.Rely(base, p, sh, p', sh', PfKernel, arenas)
    requires Used(ViewFor(p', sh', PfKernel), t.cr3)
    ensures Used(base'.kview, t.cr3)
  {
    hide Agreement, View, ViewFor, HP.Owns, HP.Beside, InPool, HP.Owned, IsTable, TablesThere, DirTaken;
    var view' := ViewFor(p', sh', PfKernel);
    var i :| i in view' && view'[i] == t.cr3;
    if HP.Owned(p.kwin.start, arenas, i) {
      HeldNotOwned(base, p, sh, arenas, t, i);
    }
    HP.OwnsBase(p'.kwin.start, sh'.kspan, arenas, view', base'.kview, i);
    assert i in base'.kview && base'.kview[i] == t.cr3;
  }

  /** Work on the other window is a step that a heap can rely on. */
  lemma RelyStepped(base: HP.Base, p: Pages, sh: Shape, p': Pages, sh': Shape, pf: PoolFlag, arenas: map<int, Arena>)
    requires Agreement(p, sh) && HP.Settled(base, p, sh, pf, arenas) && Stepped(p, sh, p', sh', Other(pf))
    ensures HP.Rely(base, p, sh, p', sh', pf, arenas)
  {
    hide ViewFor, HP.Owned, Agreement, IsTable, EntriesKept, DirTaken, HP.WindowRel, HP.PoolRel, TablesThere,
         BeyondKeeps, HP.Placed, Confined, NewTables;
    forall i | HP.Owned(Win(p, pf).start, arenas, i)
      ensures i in ViewFor(p, sh, pf) && ViewFor(p, sh, pf)[i] != p.cr3
    {
      HP.NotDirectory(base, p, sh, pf, i);
    }
    forall f | f in sh.reserved - base.reserved ensures IsTable(p'.m, p'.cr3, f) { TableStays(p, p'.m, f); }
    if TablesThere(p, pf) { TablesStay(p, sh, p', sh', pf); }
  }

  lemma FullTables(p: Pages, sh: Shape)
    requires Agreement(p, sh) && FullKernel(p.m, p.cr3)
    ensures TablesThere(p, PfKernel)
  {
    hide Agreement, Present, Dir, Page, Geometry, DirOk;
    DirPart(p, sh);
    forall i | 0 <= i < |p.kwin.bits|
      ensures Present(Pde(p.m, p.cr3, Page(p.kwin, i)))
    {
      KernelPage(p, i);
    }
  }

  /** For the kernel heap, a switch to another directory is such a step. */
  lemma RelySwitch(base: HP.Base, p: Pages, sh: Shape, arenas: map<int, Arena>, t: Space)
    requires Agreement(p, sh) && HP.Settled(base, p, sh, PfKernel, arenas) && Held(base, p, t) && Neighbour(p, sh, t)
    requires sh.reserved == base.reserved
    ensures HP.Rely(base, p, sh, PagesOf(p, t), ShapeOf(p, sh, t), PfKernel, arenas)
    ensures ViewFor(PagesOf(p, t), ShapeOf(p, sh, t), PfKernel) == ViewFor(p, sh, PfKernel)
  {
    hide Agreement, View, ViewFor, HP.Settled, UserView, Frames, HP.Owned, IsTable, TablesThere, Held, Halves,
         LowTables, KernelBehind, FullKernel, Shared, Private, NotTable;
    KernelViewOf(p, sh, t);
    FullTables(PagesOf(p, t), ShapeOf(p, sh, t));
    forall i | HP.Owned(p.kwin.start, arenas, i)
      ensures i in ViewFor(p, sh, PfKernel) && ViewFor(p, sh, PfKernel)[i] != t.cr3
    {
      HeldNotOwned(base, p, sh, arenas, t, i);
    }
  }

  /** The space that was in use: its directory is not the heap's either. */
  lemma HeldCurrent(base: HP.Base, p: Pages, sh: Shape, pf: PoolFlag, arenas: map<int, Arena>)
    requires HP.Settled(base, p, sh, pf, arenas)
    ensures Held(base, p, Current(p, sh))
  {
    hide ViewFor, HP.Owns, IsTable, HP.WindowRel, HP.PoolRel, InPool, Used;
  }

  // ---------------------------------------------------------------------------------------
  // The heap of a process that is not in use
  // ---------------------------------------------------------------------------------------

  /** Whatever the space in use does, the heap of another can rely on its own pages. */
  lemma ParkedRely(base: HP.Base, p0: Pages, sh0: Shape, p: Pages, sh: Shape, p': Pages, sh': Shape, pf: PoolFlag,
                   t: Space, arenas: map<int, Arena>)
    requires Beside(p, sh, p', sh', pf, t)
    requires HP.Rely(base, p0, sh0, PagesOf(p, t), ShapeOf(p, sh, t), PfUser, arenas)
    ensures HP.Rely(base, p0, sh0, PagesOf(p', t), ShapeOf(p', sh', t), PfUser, arenas)
  {
    hide Agreement, View, ViewFor, UserView, Frames, HP.Owned, IsTable, TablesThere, Stepped, Used, InPool, ShapeOf,
         Tidy, Spaces.Apart;
    UserViewKept(p, sh, p', sh', pf, t);
    ViewOf(p, sh, t);
    ViewOf(p', sh', t);
    CurrentOf(p, sh, t);
    CurrentOf(p', sh', t);
    DirKept(p, sh, p', sh', pf, t);
    ParkedTables(p, sh, p', sh', pf, t);
    forall f | f in sh0.reserved - base.reserved
      ensures f in ShapeOf(p', sh', t).reserved && IsTable(p'.m, t.cr3, f)
    {
      ParkedTable(p, sh, p', sh', pf, t, f);
    }
  }

  lemma ParkedTables(p: Pages, sh: Shape, p': Pages, sh': Shape, pf: PoolFlag, t: Space)
    requires Beside(p, sh, p', sh', pf, t)
    ensures TablesThere(PagesOf(p, t), PfUser) ==> TablesThere(PagesOf(p', t), PfUser)
  {
    DirKept(p, sh, p', sh', pf, t);
    hide Agreement, ViewFor, UserView, Frames, Stepped, Used, Spaces.Apart, Tidy, Present, Entry, Dir, Page;
    DirPart(PagesOf(p, t), ShapeOf(p, sh, t));
    hide Geometry, DirOk, WindowPage;
    forall i | 0 <= i < |t.uwin.bits|
      ensures 0 <= Dir(Page(t.uwin, i)) < 1023
    {
      PageIsWindowPage(PagesOf(p, t), PfUser, i);
      WindowIndices(PagesOf(p, t), Page(t.uwin, i));
    }
  }

  /** A table of `t` stays one, and stays set aside. */
  lemma ParkedTable(p: Pages, sh: Shape, p': Pages, sh': Shape, pf: PoolFlag, t: Space, f: int)
    requires Beside(p, sh, p', sh', pf, t) && f in ShapeOf(p, sh, t).reserved && IsTable(p.m, t.cr3, f)
    ensures f in ShapeOf(p', sh', t).reserved && IsTable(p'.m, t.cr3, f)
  {
    DirKept(p, sh, p', sh', pf, t);
    LowTable(p, sh, t, f);
    ReservedKept(p, sh, p', sh', pf, t, f);
    hide Beside, ShapeOf, Present, Base;
    var k :| 0 <= k < 1023 && Present(Entry(p.m, t.cr3, k)) && Base(Entry(p.m, t.cr3, k)) == f;
    assert Present(Entry(p'.m, t.cr3, k)) && Base(Entry(p'.m, t.cr3, k)) == f;
  }

  lemma LowTable(p: Pages, sh: Shape, t: Space, f: int)
    requires Neighbour(p, sh, t) && IsTable(p.m, t.cr3, f)
    ensures !InPool(p.upool, f)
  {
    hide Agreement, ShapeOf, Frames, UserView, InPool, Present, Base, KernelBehind, FullKernel, Halves, Spaces.Apart;
  }

  /** Stores in a frame foreign to the space leave its pages as they are. */
  lemma ParkedStore(base: HP.Base, p0: Pages, sh0: Shape, p: Pages, sh: Shape, m': Mem, f: int, t: Space,
                    arenas: map<int, Arena>)
    requires Agreement(p, sh) && Neighbour(p, sh, t) && f % 4096 == 0 && Elsewhere(p.m, m', f)
    requires NotTable(p.m, p.cr3, f) && NotTable(p.m, t.cr3, f)
    requires HP.Rely(base, p0, sh0, PagesOf(p, t), ShapeOf(p, sh, t), PfUser, arenas)
    ensures HP.Rely(base, p0, sh0, PagesOf(p.(m := m'), t), ShapeOf(p.(m := m'), sh, t), PfUser, arenas)
  {
    hide Agreement, View, ViewFor, UserView, Frames, HP.Owned, Used, InPool, Tidy, Spaces.Apart, NotTable, Elsewhere,
         SelfMapped, TablesThere, IsTable;
    var pt, sht := PagesOf(p, t), ShapeOf(p, sh, t);
    StoreAgreement(p, sh, m', f);
    StoreAgreement(pt, sht, m', f);
    ViewOf(p, sh, t);
    UserViewOf(pt, sht, m', t);
    assert ShapeOf(p.(m := m'), sh, t) == sht;
    DirAligned(pt, sht);
    ElsewhereEntries(p.m, m', t.cr3, f);
    SameEntries(pt, sht, m');
  }

  lemma SameEntries(p: Pages, sh: Shape, m': Mem)
    requires Agreement(p, sh) && forall k :: 0 <= k < 1024 ==> Entry(m', p.cr3, k) == Entry(p.m, p.cr3, k)
    ensures TablesThere(p, PfUser) ==> TablesThere(p.(m := m'), PfUser)
    ensures forall f :: IsTable(p.m, p.cr3, f) ==> IsTable(m', p.cr3, f)
  {
    hide Agreement, Present, Base, Entry, Dir, Page;
    DirPart(p, sh);
    hide Geometry, DirOk, WindowPage;
    if TablesThere(p, PfUser) {
      forall i | 0 <= i < |p.uwin.bits|
        ensures Present(Pde(m', p.cr3, Page(Win(p.(m := m'), PfUser), i)))
      {
        PageIsWindowPage(p, PfUser, i);
        WindowIndices(p, Page(p.uwin, i));
        assert Present(Pde(p.m, p.cr3, Page(Win(p, PfUser), i)));
      }
    }
    forall f | IsTable(p.m, p.cr3, f)
      ensures IsTable(m', p.cr3, f)
    {
      var k :| 0 <= k < 1023 && Present(Entry(p.m, p.cr3, k)) && Base(Entry(p.m, p.cr3, k)) == f;
      assert Present(Entry(m', p.cr3, k)) && Base(Entry(m', p.cr3, k)) == f;
    }
  }

  /** Nothing has happened yet. */
  lemma RelySame(base: HP.Base, p: Pages, sh: Shape, pf: PoolFlag, arenas: map<int, Arena>)
    requires Agreement(p, sh) && HP.Settled(base, p, sh, pf, arenas)
    ensures HP.Rely(base, p, sh, p, sh, pf, arenas)
  {
    hide Agreement, ViewFor, HP.Settled, HP.Rely, Stepped;
    SteppedSame(p, sh, Other(pf));
    RelyStepped(base, p, sh, p, sh, pf, arenas);
  }

  // ---------------------------------------------------------------------------------------
  // All directories
  // ---------------------------------------------------------------------------------------

  ghost predicate AllHeld(base: HP.Base, p: Pages, ts: seq<Space>) {
    forall t :: t in ts ==> Held(base, p, t)
  }

  /** The kernel heap works: the world goes on. */
  lemma KernelWork(base: HP.Base, p: Pages, sh: Shape, arenas: map<int, Arena>, p': Pages, sh': Shape,
                   arenas': map<int, Arena>, ts: seq<Space>)
    requires World(p, sh, ts) && Agreement(p', sh') && Stepped(p, sh, p', sh', PfKernel) && AllHeld(base, p, ts)
    requires HP.Settled(base, p, sh, PfKernel, arenas) && HP.Settled(base, p', sh', PfKernel, arenas')
    ensures World(p', sh', ts) && AllHeld(base, p', ts)
    ensures forall t :: t in ts ==> Beside(p, sh, p', sh', PfKernel, t)
  {
    hide Agreement, ViewFor, HP.Settled, Tidy, Neighbour, Strangers, Steady, Confined, Used, DirTaken;
    forall t | t in ts && Used(ViewFor(p, sh, PfKernel), t.cr3) ensures Used(ViewFor(p', sh', PfKernel), t.cr3) {
      HeldUsed(base, p, sh, arenas, p', sh', arenas', t);
    }
    WorldStep(p, sh, p', sh', PfKernel, ts);
    SteadyPlaces(p, sh, p', sh');
    forall t | t in ts ensures Held(base, p', t) { HeldPlaces(base, p, p', t); }
  }

  lemma SteadyPlaces(p: Pages, sh: Shape, p': Pages, sh': Shape)
    requires Steady(p, sh, p', sh')
    ensures SamePlace(p.kpool, p'.kpool) && SamePlace(p.upool, p'.upool) && sh.reserved <= sh'.reserved
  {
    hide EntriesKept, IsTable, BeyondKeeps, NewTables, InPool;
  }

  lemma HeldPlaces(base: HP.Base, p: Pages, p': Pages, t: Space)
    requires Held(base, p, t) && SamePlace(p.kpool, p'.kpool) && SamePlace(p.upool, p'.upool)
    ensures Held(base, p', t)
  {
    hide Used, InPool;
    SamePools(p, p', t.cr3);
  }

  /** Others work beside the kernel heap and unmap no directory. */
  lemma OthersWork(base: HP.Base, p: Pages, sh: Shape, arenas: map<int, Arena>, p': Pages, sh': Shape, pf: PoolFlag,
                   ts: seq<Space>)
    requires World(p, sh, ts) && Agreement(p', sh') && Stepped(p, sh, p', sh', pf) && AllHeld(base, p, ts)
    requires HP.Settled(base, p, sh, PfKernel, arenas) && HP.Rely(base, p, sh, p', sh', PfKernel, arenas)
    requires sh.reserved == base.reserved
    requires forall t :: t in ts && Used(ViewFor(p, sh, PfKernel), t.cr3) ==> Used(ViewFor(p', sh', PfKernel), t.cr3)
    ensures World(p', sh', ts) && AllHeld(HP.Rebased(base, p, sh, p', sh'), p', ts)
    ensures forall t :: t in ts ==> Beside(p, sh, p', sh', pf, t)
  {
    hide Agreement, ViewFor, HP.Settled, Tidy, Neighbour, Strangers, Stepped, Used, DirTaken, HP.Rely, HP.Rebased;
    WorldStep(p, sh, p', sh', pf, ts);
    forall t | t in ts ensures Held(HP.Rebased(base, p, sh, p', sh'), p', t) {
      HeldRebased(base, p, sh, p', sh', arenas, t);
    }
  }

  /** Pages mapped by anybody: no page is unmapped. */
  lemma GotUsed(p: Pages, sh: Shape, p': Pages, sh': Shape, pf: PoolFlag, start: int, n: int, f: int)
    requires Moved(p, sh, p', sh', pf, start, n, false) && Used(ViewFor(p, sh, PfKernel), f)
    requires forall i :: InRange(i, start, n) ==> i !in ViewFor(p, sh, pf)
    ensures Used(ViewFor(p', sh', PfKernel), f)
  {
    hide ViewFor, Steady;
    var i :| i in ViewFor(p, sh, PfKernel) && ViewFor(p, sh, PfKernel)[i] == f;
    assert i in ViewFor(p', sh', PfKernel) && ViewFor(p', sh', PfKernel)[i] == f;
  }
}
