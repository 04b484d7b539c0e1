/**
 The page directory and the virtual addresses of a new process (`userprog/process.c`).
 */
module Process {
  import opened Common
  import opened Paging
  import opened Bitmap
  import opened PageModel
  import opened PageSteps
  import opened FrameCount
  import opened PageManager

  const USER_PAGES := 753592  // pages from USER_VADDR_START up to USER_END

  /** The directory in frame `f` has the entries of the kernel, and in its last entry itself. */
  ghost predicate Cloned(m: Mem, cr3: int, f: int) {
    forall k :: 0 <= k < 1024 ==>
      Entry(m, f, k) == if k < 768 then 0 else if k < 1023 then Entry(m, cr3, k) else f + 7
  }

  /** The bitmap of a new process, with the clear bit that follows it in its pages. */
  function UserWindow(): (w: Window)
    ensures |w.bits| == USER_PAGES + 1 && forall i :: 0 <= i <= USER_PAGES ==> !w.bits[i]
  {
    Window(USER_VADDR_START, seq(USER_PAGES + 1, _ => false))
  }

  /** The process runs: its directory and its window are the current ones. */
  function ProcessPages(p: Pages, f: int): Pages {
    p.(cr3 := f, uwin := UserWindow())
  }

  /** The frames mapped in the user window of the other address space are set aside. */
  ghost function ProcessShape(p: Pages, sh: Shape): Shape {
    var view := ViewFor(p, sh, PfUser);
    Shape(sh.kspan, USER_PAGES, sh.reserved + set i | i in view :: view[i])
  }

  // ---------------------------------------------------------------------------------------
  // Translations under the new directory
  // ---------------------------------------------------------------------------------------

  lemma KernelHalf(m: Mem, cr3: int, f: int, w: int)
    requires Cloned(m, cr3, f) && 768 <= Dir(w) < 1023
    ensures Pde(m, f, w) == Pde(m, cr3, w) && Walk(m, f, w) == Walk(m, cr3, w)
  {
    hide Dir, Tab, Off, Base, Present;
  }

  lemma UserHalf(m: Mem, cr3: int, f: int, w: int)
    requires Cloned(m, cr3, f) && 0 <= Dir(w) < 768
    ensures !Present(Pde(m, f, w)) && Walk(m, f, w) == None
  {
    NotPresentZero();
    hide Dir, Tab, Off, Base, Present;
  }

  lemma ClonedSelf(m: Mem, cr3: int, f: int)
    requires Cloned(m, cr3, f) && f % 4096 == 0
    ensures SelfMapped(m, f)
  {
    FlagsOf(f);
    hide Base, Present;
  }

  /** Where the pages of the new windows lie. */
  lemma NewIndices(p: Pages, f: int, v: int)
    requires Geometry(p) && WindowPage(ProcessPages(p, f), v)
    ensures v % 4096 == 0 && 0 <= Dir(v) < 1023
    ensures Dir(v) >= 768 ==> v == USER_END || p.kwin.start <= v < Page(p.kwin, |p.kwin.bits|)
  {
  }

  lemma NewApart(p: Pages, f: int, v: int, w: int)
    requires Geometry(p) && TablesApart(p) && Cloned(p.m, p.cr3, f) && WindowPage(p, USER_END)
    requires WindowPage(ProcessPages(p, f), v) && WindowPage(ProcessPages(p, f), w) && Dir(v) != Dir(w)
    requires Present(Pde(p.m, f, v)) && Present(Pde(p.m, f, w))
    ensures Base(Pde(p.m, f, v)) != Base(Pde(p.m, f, w))
  {
    NewIndices(p, f, v);
    NewIndices(p, f, w);
    hide Dir, Base, Present, Pde, Cloned;
    if Dir(v) < 768 { UserHalf(p.m, p.cr3, f, v); }
    if Dir(w) < 768 { UserHalf(p.m, p.cr3, f, w); }
    KernelHalf(p.m, p.cr3, f, v);
    KernelHalf(p.m, p.cr3, f, w);
    assert WindowPage(p, v) && WindowPage(p, w);
    hide WindowPage;
  }

  lemma NewKept(p: Pages, reserved: set<int>, f: int, reserved': set<int>)
    requires TablesKept(p, reserved) && Cloned(p.m, p.cr3, f) && NotTable(p.m, p.cr3, f) && reserved <= reserved'
    ensures TablesKept(ProcessPages(p, f), reserved')
  {
    NotPresentZero();
    hide Base, Present, InPool;
    forall k | 0 <= k < 1023 && Present(Entry(p.m, f, k))
      ensures k >= 768 && Entry(p.m, f, k) == Entry(p.m, p.cr3, k)
    {
    }
  }

  /** The new directory is in order. */
  lemma NewDirectory(p: Pages, reserved: set<int>, f: int, reserved': set<int>)
    requires Geometry(p) && DirOk(p, reserved) && WindowPage(p, USER_END) && f % 4096 == 0 && reserved <= reserved'
    requires Cloned(p.m, p.cr3, f) && NotTable(p.m, p.cr3, f)
    ensures DirOk(ProcessPages(p, f), reserved')
  {
    hide Geometry, WindowPage, Dir, Base, Present, Cloned, NotTable, TablesKept, SelfMapped, Pde;
    var p' := ProcessPages(p, f);
    ClonedSelf(p.m, p.cr3, f);
    NewKept(p, reserved, f, reserved');
    forall v, w | WindowPage(p', v) && WindowPage(p', w) && Dir(v) != Dir(w) && Present(Pde(p.m, f, v))
           && Present(Pde(p.m, f, w))
      ensures Base(Pde(p.m, f, v)) != Base(Pde(p.m, f, w))
    {
      NewApart(p, f, v, w);
    }
  }

  /** The kernel sees the same pages, the process none. */
  lemma NewViews(p: Pages, sh: Shape, f: int)
    requires Geometry(p) && Cloned(p.m, p.cr3, f) && sh.kspan <= |p.kwin.bits|
    ensures var p', sh' := ProcessPages(p, f), ProcessShape(p, sh);
            && ViewFor(p', sh', PfKernel) == ViewFor(p, sh, PfKernel) && ViewFor(p', sh', PfUser) == map[]
            && (sh.kspan < |p.kwin.bits| ==>
                  Beyond(p.m, f, p.kwin, sh.kspan) == Beyond(p.m, p.cr3, p.kwin, sh.kspan))
            && Beyond(p.m, f, p'.uwin, USER_PAGES) == Walk(p.m, p.cr3, USER_END).Some?
  {
    var p', sh' := ProcessPages(p, f), ProcessShape(p, sh);
    forall i | 0 <= i < |p.kwin.bits|
      ensures Walk(p.m, f, Page(p.kwin, i)) == Walk(p.m, p.cr3, Page(p.kwin, i))
    {
      KernelPage(p, i);
      KernelHalf(p.m, p.cr3, f, Page(p.kwin, i));
    }
    forall i | 0 <= i < USER_PAGES
      ensures Walk(p.m, f, Page(p'.uwin, i)) == None
    {
      UserPage(i);
      UserHalf(p.m, p.cr3, f, Page(p'.uwin, i));
    }
    EndIndex();
    KernelHalf(p.m, p.cr3, f, USER_END);
    assert Page(p'.uwin, USER_PAGES) == USER_END;
    hide Walk, Cloned, Geometry;
  }

  lemma KernelPage(p: Pages, i: nat)
    requires Geometry(p) && i < |p.kwin.bits|
    ensures 768 <= Dir(Page(p.kwin, i)) < 1023
  {
  }

  lemma UserPage(i: nat)
    requires i < USER_PAGES
    ensures 0 <= Dir(Page(UserWindow(), i)) < 768
  {
  }

  lemma EndIndex()
    ensures Dir(USER_END) == 768
  {
  }

  // ---------------------------------------------------------------------------------------
  // The agreement for the process
  // ---------------------------------------------------------------------------------------

  /** What lies behind the user window is the first page of the kernel, and is mapped. */
  ghost predicate KernelBehind(p: Pages, sh: Shape) {
    && sh.uspan < |p.uwin.bits| && Page(p.uwin, sh.uspan) == USER_END
    && Beyond(p.m, p.cr3, p.uwin, sh.uspan)
  }

  lemma EndIsWindowPage(p: Pages, sh: Shape)
    requires Geometry(p) && KernelBehind(p, sh)
    ensures WindowPage(p, USER_END) && Walk(p.m, p.cr3, USER_END).Some?
  {
    hide Walk, Geometry, WindowPage;
    PageIsWindowPage(p, PfUser, sh.uspan);
  }

  lemma NewGeometry(p: Pages, f: int)
    requires Geometry(p) && f % 4096 == 0 && f >= 0
    ensures Geometry(ProcessPages(p, f))
  {
  }

  /** The pools as the new process sees them. */
  lemma NewPools(p: Pages, kview: map<int, int>, uview: map<int, int>, reserved: set<int>)
    requires Geometry(p) && PoolOk(p.kpool, kview, reserved) && PoolOk(p.upool, uview, reserved)
    ensures var reserved' := reserved + set i | i in uview :: uview[i];
            PoolOk(p.kpool, kview, reserved') && PoolOk(p.upool, map[], reserved')
  {
    var reserved' := reserved + set i | i in uview :: uview[i];
    forall f | InPool(p.kpool, f)
      ensures f in reserved' <==> f in reserved
    {
      PoolsApart(p, f);
    }
    forall j | 0 <= j < |p.kpool.bits| ensures InPool(p.kpool, Frame(p.kpool, j)) { FrameInPool(p.kpool, j); }
    hide InPool, Geometry;
    forall j | 0 <= j < |p.upool.bits|
      ensures p.upool.bits[j] <==> Frame(p.upool, j) in reserved'
    {
      if Used(uview, Frame(p.upool, j)) {
        var i :| i in uview && uview[i] == Frame(p.upool, j);
        assert uview[i] in reserved';
      }
    }
  }

  lemma PoolsApart(p: Pages, f: int)
    requires Geometry(p) && InPool(p.kpool, f)
    ensures !InPool(p.upool, f) && f % 4096 == 0 && f >= 0
  {
    FrameIndex(p.kpool, f);
    AlignedSum(p.kpool.start, (f - p.kpool.start) / 4096);
  }

  /** With the directory that `create_page_dir` has made in page `i` of the kernel window, and the window that
      `create_user_vaddr_bitmap` has made, the agreement holds for the process: the kernel half is shared and
      the user half is empty. */
  lemma ProcessAgreement(p: Pages, sh: Shape, i: int)
    requires Agreement(p, sh) && KernelBehind(p, sh) && i in ViewFor(p, sh, PfKernel)
    requires var f := ViewFor(p, sh, PfKernel)[i]; f != p.cr3 && Cloned(p.m, p.cr3, f)
    ensures var f := ViewFor(p, sh, PfKernel)[i]; var p', sh' := ProcessPages(p, f), ProcessShape(p, sh);
            && Agreement(p', sh') && KernelBehind(p', sh')
            && ViewFor(p', sh', PfKernel) == ViewFor(p, sh, PfKernel) && ViewFor(p', sh', PfUser) == map[]
  {
    hide View, Geometry, DirOk, PoolOk, Cloned, InPool, Beyond, NotTable, WindowPage, Walk, BitsOk, KernelBehind, Used;
    var f := ViewFor(p, sh, PfKernel)[i];
    var p', sh' := ProcessPages(p, f), ProcessShape(p, sh);
    FrameOfPage(p.kpool, ViewFor(p, sh, PfKernel), sh.reserved, i);
    FreeNotTable(p, sh.reserved, f);
    PoolsApart(p, f);
    EndIsWindowPage(p, sh);
    NewGeometry(p, f);
    NewDirectory(p, sh.reserved, f, sh'.reserved);
    SpanInside(p, sh, PfKernel);
    NewViews(p, sh, f);
    NewPools(p, ViewFor(p, sh, PfKernel), ViewFor(p, sh, PfUser), sh.reserved);
    NewTaken(p', ViewFor(p, sh, PfKernel), sh'.reserved, i);
    BitsBeyond(p.kwin, sh.kspan, ViewFor(p, sh, PfKernel), Beyond(p.m, p.cr3, p.kwin, sh.kspan),
               Beyond(p.m, f, p.kwin, sh.kspan), 0, 0);
    NewBits();
    NewBehind(p', sh');
  }

  lemma NewTaken(p: Pages, kview: map<int, int>, reserved: set<int>, i: int)
    requires i in kview && kview[i] == p.cr3 && !InPool(p.upool, p.cr3)
    ensures DirTaken(p, kview, reserved)
  {
    assert Used(kview, p.cr3);
    hide InPool, Used;
  }

  lemma NewBits()
    ensures BitsOk(UserWindow(), USER_PAGES, map[], true, 0, 0)
  {
    hide UserWindow;
  }

  lemma NewBehind(p: Pages, sh: Shape)
    requires p.uwin == UserWindow() && sh.uspan == USER_PAGES && Beyond(p.m, p.cr3, p.uwin, USER_PAGES)
    ensures KernelBehind(p, sh)
  {
    hide Beyond;
  }

  lemma BehindSteady(p: Pages, sh: Shape, p': Pages, sh': Shape)
    requires KernelBehind(p, sh) && Steady(p, sh, p', sh')
    ensures KernelBehind(p', sh')
  {
    SpotBeyond(p'.m, p.cr3, p.uwin, p'.uwin, sh.uspan);
    hide Beyond, EntriesKept, IsTable;
  }

  // ---------------------------------------------------------------------------------------
  // Making the directory
  // ---------------------------------------------------------------------------------------

  /** Outside frame `f` memory is as before. */
  ghost predicate Elsewhere(m: Mem, m': Mem, f: int) {
    forall a :: !(f <= a < f + 4096) ==> Word(m', a) == Word(m, a)
  }

  /** Word `k` of a directory in the making, with the entries from 768 up to `done` copied. */
  ghost predicate Copied(m: Mem, m': Mem, cr3: int, f: int, done: int) {
    forall k :: 0 <= k < 1024 ==> Entry(m', f, k) == if 768 <= k < done then Entry(m, cr3, k) else 0
  }

  ghost predicate Zeroed(m': Mem, f: int, done: int) {
    forall k :: 0 <= k < done ==> Entry(m', f, k) == 0
  }

  lemma ElsewhereStore(m: Mem, m': Mem, f: int, o: nat, x: int)
    requires Elsewhere(m, m', f) && o < 1024
    ensures Elsewhere(m, m'[f + 4 * o := x], f)
  {
  }

  lemma ZeroedStore(m': Mem, f: int, o: nat)
    requires Zeroed(m', f, o) && o < 1024
    ensures Zeroed(m'[f + 4 * o := 0], f, o + 1)
  {
    var m2 := m'[f + 4 * o := 0];
    forall k | 0 <= k <= o
      ensures Entry(m2, f, k) == 0
    {
      LinkedEntry(m', f, o, k, 0);
    }
    hide Entry;
  }

  lemma CopiedStore(m: Mem, m': Mem, cr3: int, f: int, k: nat)
    requires Copied(m, m', cr3, f, k) && 768 <= k < 1024
    ensures Copied(m, m'[f + 4 * k := Entry(m, cr3, k)], cr3, f, k + 1)
  {
    var m2 := m'[f + 4 * k := Entry(m, cr3, k)];
    forall j | 0 <= j < 1024
      ensures Entry(m2, f, j) == if 768 <= j <= k then Entry(m, cr3, j) else 0
    {
      LinkedEntry(m', f, k, j, Entry(m, cr3, k));
    }
    hide Entry;
  }

  /** The kernel reads entry `k` of its directory through the last page of the address space. */
  lemma ReadEntry(m: Mem, m': Mem, cr3: int, f: int, k: nat)
    requires SelfMapped(m', cr3) && Elsewhere(m, m', f) && f % 4096 == 0 && f != cr3 && k < 1024
    ensures Load(m', cr3, 0xfffff000 + 4 * k) == Done(Entry(m, cr3, k))
  {
    hide Walk, Load, SelfMapped, Base, Present, PtePtr;
    var v := 0x400000 * k;
    IndicesOf(v, k, 0, 0);
    WindowOntoTables(m', cr3, v);
    LoadEntry(m', cr3, v);
    SelfAligned(m', cr3);
    OutsideFrame(cr3, k, f);
  }

  lemma ClonedLast(m: Mem, m': Mem, cr3: int, f: int)
    requires Copied(m, m', cr3, f, 1024) && Elsewhere(m, m', f) && f % 4096 == 0 && cr3 % 4096 == 0 && f != cr3
    ensures Cloned(m'[f + 4 * 1023 := f + 7], cr3, f)
  {
    var m2 := m'[f + 4 * 1023 := f + 7];
    ElsewhereStore(m, m', f, 1023, f + 7);
    forall k | 0 <= k < 1024
      ensures Entry(m2, f, k) == if k < 768 then 0 else if k < 1023 then Entry(m2, cr3, k) else f + 7
    {
      LinkedEntry(m', f, 1023, k, f + 7);
      OutsideFrame(cr3, k, f);
      hide Word;
    }
  }

  /** `create_page_dir`: a page of the kernel becomes the directory of a process.  The agreement of the caller
      goes on, and that of the process begins.  From `mid`, where the page has been mapped, only its frame is
      written to. */
  method CreatePageDir(pm: PageManager) returns (r: Grant, ghost f: int, ghost mid: Pages)
    requires pm.Valid() && KernelBehind(pm.State(), pm.sh)
    modifies pm
    ensures !r.Halted? ==> pm.Valid() && KernelBehind(pm.State(), pm.sh)
    ensures r.Null? <==> old(Refused(pm.State(), PfKernel, 1))
    ensures r.Null? ==> pm.State() == old(pm.State()) && pm.sh == old(pm.sh)
    ensures r.Halted? <==> old(Stops(pm.State(), pm.sh, PfKernel, 1))
    ensures r.Granted? ==>
              var i := Index(old(pm.kwin.start), r.v); var view := ViewFor(pm.State(), pm.sh, PfKernel);
              && Got(old(pm.State()), old(pm.sh), pm.State(), pm.sh, PfKernel, r.v, 1)
              && 0 <= i < pm.sh.kspan && r.v == At(old(pm.kwin.start), i) && SameSpot(old(pm.kwin), pm.kwin)
              && i in view && view[i] == f && f != pm.cr3 && Cloned(pm.mem, pm.cr3, f)
              && Agreement(ProcessPages(pm.State(), f), ProcessShape(pm.State(), pm.sh))
              && KernelBehind(ProcessPages(pm.State(), f), ProcessShape(pm.State(), pm.sh))
              && Stepped(old(pm.State()), old(pm.sh), mid, pm.sh, PfKernel) && Agreement(mid, pm.sh)
              && pm.State() == mid.(m := pm.mem) && Elsewhere(mid.m, pm.mem, f) && f % 4096 == 0
              && ViewFor(mid, pm.sh, PfKernel) == view
  {
    hide Agreement, ViewFor, Got, Refused, Stops, TablesThere, KernelBehind, Steady, Moved, At, Index, SelfMapped,
         Load, AddrV2P, Flags, Elsewhere, Zeroed, Copied, Cloned, ProcessPages, ProcessShape, Missing, Counted,
         Confined, Stepped;
    ghost var p, sh := pm.State(), pm.sh;
    f, mid := 0, pm.State();
    r := pm.MallocPage(PfKernel, 1);
    if !r.Granted? { return; }
    var v := r.v;
    ghost var i := Index(p.kwin.start, v);
    FreshPage(p, sh, pm.State(), pm.sh, v);
    f := ViewFor(pm.State(), pm.sh, PfKernel)[i];
    FrameOfKernelPage(pm.State(), pm.sh, i);
    ghost var p1, sh1 := pm.State(), pm.sh;
    mid := p1;
    GotStepped(p, sh, p1, sh1, PfKernel, v, 1);
    SteadyBits(p1, sh1, p1);
    StartCopy(pm.mem, f);
    var o := 0;
    while o < 1024
      invariant 0 <= o <= 1024 && pm.Valid() && pm.sh == sh1 && pm.State() == p1.(m := pm.mem)
                && Steady(p1, sh1, pm.State(), sh1)
      invariant ViewFor(pm.State(), sh1, PfKernel) == ViewFor(p1, sh1, PfKernel)
      invariant ViewFor(pm.State(), sh1, PfUser) == ViewFor(p1, sh1, PfUser)
      invariant Elsewhere(p1.m, pm.mem, f) && Zeroed(pm.mem, f, o)
    {
      ElsewhereStore(p1.m, pm.mem, f, o, 0);
      ZeroedStore(pm.mem, f, o);
      ghost var was := pm.State();
      var ok := pm.StoreWord(PfKernel, i, v, o, 0);
      SteadyTrans(p1, sh1, was, sh1, pm.State(), sh1);
      o := o + 1;
    }
    ZeroedCopied(p1.m, pm.mem, p1.cr3, f);
    var k := 768;
    while k < 1024
      invariant 768 <= k <= 1024 && pm.Valid() && pm.sh == sh1 && pm.State() == p1.(m := pm.mem)
                && Steady(p1, sh1, pm.State(), sh1)
      invariant ViewFor(pm.State(), sh1, PfKernel) == ViewFor(p1, sh1, PfKernel)
      invariant ViewFor(pm.State(), sh1, PfUser) == ViewFor(p1, sh1, PfUser)
      invariant Elsewhere(p1.m, pm.mem, f) && Copied(p1.m, pm.mem, p1.cr3, f, k)
    {
      FrameOfKernelPage(pm.State(), sh1, i);
      ReadEntry(p1.m, pm.mem, p1.cr3, f, k);
      var x := Load(pm.mem, pm.cr3, 0xfffff000 + 4 * k);
      if !x.Done? { return Halted, f, mid; }
      ElsewhereStore(p1.m, pm.mem, f, k, x.value);
      CopiedStore(p1.m, pm.mem, p1.cr3, f, k);
      ghost var was := pm.State();
      var ok := pm.StoreWord(PfKernel, i, v, k, x.value);
      SteadyTrans(p1, sh1, was, sh1, pm.State(), sh1);
      k := k + 1;
    }
    FrameOfKernelPage(pm.State(), sh1, i);
    var frame := AddrV2P(pm.mem, pm.cr3, v);
    if !frame.Done? { return Halted, f, mid; }
    FlagsOf(f);
    ClonedLast(p1.m, pm.mem, p1.cr3, f);
    ElsewhereStore(p1.m, pm.mem, f, 1023, Flags(frame.value));
    ghost var was := pm.State();
    var ok := pm.StoreWord(PfKernel, i, v, 1023, Flags(frame.value));
    SteadyTrans(p1, sh1, was, sh1, pm.State(), sh1);
    GotStill(p, sh, p1, sh1, pm.State(), v);
    MovedSteady(p, sh, p1, sh1, i);
    BehindSteady(p, sh, p1, sh1);
    BehindSteady(p1, sh1, pm.State(), sh1);
    ProcessAgreement(pm.State(), sh1, i);
  }

  lemma GotStill(p: Pages, sh: Shape, p': Pages, sh': Shape, p2: Pages, v: int)
    requires Got(p, sh, p', sh', PfKernel, v, 1) && p2 == p'.(m := p2.m) && Steady(p', sh', p2, sh')
    requires ViewFor(p2, sh', PfKernel) == ViewFor(p', sh', PfKernel)
             && ViewFor(p2, sh', PfUser) == ViewFor(p', sh', PfUser)
    ensures Got(p, sh, p2, sh', PfKernel, v, 1)
  {
    hide ViewFor, Steady, Moved, Fill, AllClear, Scan, At;
    MovedStill(p, sh, p', sh', p2, PfKernel, Index(p.kwin.start, v), 1);
  }

  lemma MovedSteady(p: Pages, sh: Shape, p': Pages, sh': Shape, i: int)
    requires Moved(p, sh, p', sh', PfKernel, i, 1, false)
    ensures Steady(p, sh, p', sh')
  {
    hide ViewFor, Steady;
  }

  /** The page just mapped is not that of the directory. */
  lemma FreshPage(p: Pages, sh: Shape, p': Pages, sh': Shape, v: int)
    requires Agreement(p, sh) && Agreement(p', sh') && Got(p, sh, p', sh', PfKernel, v, 1)
    ensures var i := Index(p.kwin.start, v); var view := ViewFor(p', sh', PfKernel);
            && 0 <= i < sh'.kspan && v == Page(p'.kwin, i) && i in view && view[i] != p'.cr3
            && Moved(p, sh, p', sh', PfKernel, i, 1, false) && v == At(p.kwin.start, i) && SameSpot(p.kwin, p'.kwin)
  {
    hide Agreement, ViewFor, EntriesKept, IsTable, BeyondKeeps, Fill;
    var i := Index(p.kwin.start, v);
    NotYetMapped(p, sh, i);
    NewNotDirectory(p, sh, p', sh', i, 1, i);
  }

  lemma NotYetMapped(p: Pages, sh: Shape, i: nat)
    requires Agreement(p, sh) && i < sh.kspan && i < |p.kwin.bits| && !p.kwin.bits[i]
    ensures i !in ViewFor(p, sh, PfKernel)
  {
    hide View, Geometry, DirOk, PoolOk, DirTaken, Beyond;
  }

  lemma FrameOfKernelPage(p: Pages, sh: Shape, i: nat)
    requires Agreement(p, sh) && i in ViewFor(p, sh, PfKernel) && i < sh.kspan
    ensures var f := ViewFor(p, sh, PfKernel)[i];
            f % 4096 == 0 && SelfMapped(p.m, p.cr3) && p.cr3 % 4096 == 0
            && AddrV2P(p.m, p.cr3, Page(p.kwin, i)) == Done(f)
  {
    hide Agreement, Agree, ViewFor, Walk, AddrV2P, Geometry, PoolOk, DirOk, WindowPage, Addr, InPool;
    NoneClaimed(p, sh, PfKernel, i);
    MappedPage(p, sh, PfKernel, i, i);
    AddrV2PIsWalk(p.m, p.cr3, Page(p.kwin, i));
    SelfAligned(p.m, p.cr3);
    PoolFrame(p, sh, i);
  }

  lemma PoolFrame(p: Pages, sh: Shape, i: nat)
    requires Agreement(p, sh) && i in ViewFor(p, sh, PfKernel)
    ensures ViewFor(p, sh, PfKernel)[i] % 4096 == 0
  {
    hide View, Geometry, DirOk, PoolOk, DirTaken, Beyond, BitsOk, InPool;
    FrameOfPage(p.kpool, ViewFor(p, sh, PfKernel), sh.reserved, i);
    PoolsApart(p, ViewFor(p, sh, PfKernel)[i]);
  }

  lemma StartCopy(m: Mem, f: int)
    ensures Elsewhere(m, m, f) && Zeroed(m, f, 0)
  {
  }

  lemma ZeroedCopied(m: Mem, m': Mem, cr3: int, f: int)
    requires Zeroed(m', f, 1024)
    ensures Copied(m, m', cr3, f, 768)
  {
    hide Entry;
  }

  /** `addr_v2p` of the page of the new directory, as `page_dir_activate` uses it, is its frame. */
  lemma PageAddress(p: Pages, sh: Shape, p': Pages, sh': Shape, v: int)
    requires Agreement(p', sh') && SameSpot(p.kwin, p'.kwin)
    requires var i := Index(p.kwin.start, v);
             0 <= i < sh'.kspan && v == At(p.kwin.start, i) && i in ViewFor(p', sh', PfKernel)
    ensures AddrV2P(p'.m, p'.cr3, v) == Done(ViewFor(p', sh', PfKernel)[Index(p.kwin.start, v)])
  {
    hide Agreement, ViewFor, AddrV2P, Index, SelfMapped;
    FrameOfKernelPage(p', sh', Index(p.kwin.start, v));
  }

  /** Once the last page of the window is in use, as it is by the stack of a running process, no search completes
      a run with the guard bit. */
  lemma StackGuards(bits: seq<bool>, cnt: nat)
    requires |bits| == USER_PAGES + 1 && bits[USER_PAGES - 1] && cnt >= 1
    ensures var r := Scan(bits, USER_PAGES, cnt); r.Found? ==> r.start + cnt <= USER_PAGES
  {
    if LowestRun(bits[..USER_PAGES], 1, 0).Some? {
      hide LowestRun, Scan;
      RunAtGuard(bits, USER_PAGES, cnt);
    }
  }
}
