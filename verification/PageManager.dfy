/**
 `malloc_page` and `mfree_page` of `kernel/memory.c` on the fields they update in place.
 */
module PageManager {
  import opened Common
  import opened Paging
  import opened Bitmap
  import opened PageModel
  import opened PageSteps
  import opened FrameCount

  /** What `malloc_page` comes to: a virtual address, NULL, or a failed assertion. */
  datatype Grant = Granted(v: int) | Null | Halted

  /** All tables that pages of the window can need are there. */
  ghost predicate TablesThere(p: Pages, pf: PoolFlag) {
    forall i :: 0 <= i < |Win(p, pf).bits| ==> Present(Pde(p.m, p.cr3, Page(Win(p, pf), i)))
  }

  /** Page numbers from `start` on. */
  predicate InRange(i: int, start: int, cnt: int) {
    start <= i < start + cnt
  }

  /** Between the two states exactly the pages of the range have been mapped, or for `gone` unmapped, in
      window `pf`; all other translations of the windows are as before. */
  ghost predicate Moved(p: Pages, sh: Shape, p': Pages, sh': Shape, pf: PoolFlag, start: int, cnt: int, gone: bool) {
    var view, view' := ViewFor(p, sh, pf), ViewFor(p', sh', pf);
    && Steady(p, sh, p', sh')
    && ViewFor(p', sh', Other(pf)) == ViewFor(p, sh, Other(pf))
    && (forall i :: i in view' <==> if InRange(i, start, cnt) then !gone else i in view)
    && (forall i :: i in view && !InRange(i, start, cnt) ==> view'[i] == view[i])
  }

  /** Nothing has been written but directory entries and tables of pages of window `pf`. */
  ghost predicate Confined(p: Pages, p': Pages, sh: Shape, pf: PoolFlag) {
    forall a :: Word(p'.m, a) == Word(p.m, a) || Inside(p'.m, p'.cr3, Win(p, pf), Span(sh, pf), a)
  }

  /** The word at `a` is a directory entry or in a table of one of the first `n` pages of the window. */
  ghost predicate Inside(m: Mem, cr3: int, w: Window, n: nat, a: int) {
    exists k :: Under(w, 0, n, k) && Touches(m, cr3, k, a)
  }

  lemma ConfinedStep(p0: Pages, p: Pages, p': Pages, sh: Shape, pf: PoolFlag, i: nat)
    requires Confined(p0, p, sh, pf) && Touched(p.m, p'.m, p.cr3, Dir(Page(Win(p0, pf), i)))
    requires EntriesKept(p, p'.m) && p'.cr3 == p.cr3 && i < Span(sh, pf)
    requires forall k :: Under(Win(p0, pf), 0, Span(sh, pf), k) ==> 0 <= k < 1024
    ensures Confined(p0, p', sh, pf)
  {
    hide Present, Base, Dir, Page;
    var w, n, d := Win(p0, pf), Span(sh, pf), Dir(Page(Win(p0, pf), i));
    assert Under(w, 0, n, d);
    hide Under;
    forall a | Word(p'.m, a) != Word(p0.m, a)
      ensures Inside(p'.m, p'.cr3, w, n, a)
    {
      if Word(p'.m, a) == Word(p.m, a) {
        var k :| Under(w, 0, n, k) && Touches(p.m, p.cr3, k, a);
        assert Touches(p'.m, p'.cr3, k, a);
      } else {
        assert Touches(p'.m, p'.cr3, d, a);
      }
    }
  }

  lemma ConfinedBits(p: Pages, p': Pages, sh: Shape, pf: PoolFlag)
    requires p'.m == p.m
    ensures Confined(p, p', sh, pf)
  {
  }

  /** The pages of a window lie under entries of the directory. */
  lemma UnderIndex(p: Pages, sh: Shape, pf: PoolFlag)
    requires Agreement(p, sh)
    ensures forall k :: Under(Win(p, pf), 0, Span(sh, pf), k) ==> 0 <= k < 1023
  {
    hide DirOk, PoolOk, View, DirTaken, Beyond, Geometry, WindowPage, Dir, Page;
    forall k | Under(Win(p, pf), 0, Span(sh, pf), k)
      ensures 0 <= k < 1023
    {
      var i :| 0 <= i < Span(sh, pf) && Dir(Page(Win(p, pf), i)) == k;
      PageIsWindowPage(p, pf, i);
      WindowIndices(p, Page(Win(p, pf), i));
    }
  }

  /** What an operation on the pages of window `pf` leaves alone. */
  ghost predicate Stepped(p: Pages, sh: Shape, p': Pages, sh': Shape, pf: PoolFlag) {
    && Steady(p, sh, p', sh') && Confined(p, p', sh, pf)
    && Win(p', Other(pf)) == Win(p, Other(pf)) && ViewFor(p', sh', Other(pf)) == ViewFor(p, sh, Other(pf))
  }

  /** Page `i` of the window that starts at `w`. */
  function At(w: int, i: int): int {
    w + 4096 * i
  }

  function Index(w: int, v: int): int {
    (v - w) / 4096
  }

  /** `malloc_page` returns NULL for `n` pages. */
  ghost predicate Refused(p: Pages, pf: PoolFlag, n: nat) {
    var bits := Win(p, pf).bits;
    0 < n < 3840 && bits != [] && Scan(bits, |bits| - 1, n).NotFound?
  }

  /** `malloc_page` stops at an assertion for `n` pages: on a bad count, a full bitmap, too few free frames
      for the pages and the tables they lack, or a run that only a guard bit whose page belongs to someone
      else completes. */
  ghost predicate Stops(p: Pages, sh: Shape, pf: PoolFlag, n: nat) {
    var bits := Win(p, pf).bits;
    n == 0 || n >= 3840 ||
    (bits != [] &&
     match Scan(bits, |bits| - 1, n)
     case AssertFailed => true
     case Found(start) => start + n > Span(sh, pf) || Short(p, pf, start, start + n)
     case NotFound => false)
  }

  /** `malloc_page` has mapped `n` pages at `v`, the first run that was free, and nothing else. */
  ghost predicate Got(p: Pages, sh: Shape, p': Pages, sh': Shape, pf: PoolFlag, v: int, n: nat) {
    var w := Win(p, pf); var start := Index(w.start, v);
    && 0 <= start && start + n <= Span(sh, pf) && start + n <= |w.bits| && |w.bits| > 0 && v == At(w.start, start)
    && Scan(w.bits, |w.bits| - 1, n) == Found(start) && AllClear(w.bits, start, n)
    && Win(p', pf) == w.(bits := Fill(w.bits, start, n, true))
    && Win(p', Other(pf)) == Win(p, Other(pf))
    && Moved(p, sh, p', sh', pf, start, n, false)
  }

  /** The `n` pages at `v` are mapped, and none of them is the page of the directory. */
  ghost predicate Given(p: Pages, sh: Shape, pf: PoolFlag, v: int, n: nat) {
    var w := Win(p, pf); var start := Index(w.start, v); var view := ViewFor(p, sh, pf);
    && 0 <= start && start + n <= Span(sh, pf) && v == At(w.start, start)
    && forall i :: start <= i < start + n ==> i in view && view[i] != p.cr3
  }

  /** `mfree_page` has unmapped the `n` pages at `v` and nothing else. */
  ghost predicate Gave(p: Pages, sh: Shape, p': Pages, pf: PoolFlag, v: int, n: nat) {
    var w := Win(p, pf); var start := Index(w.start, v);
    && 0 <= start && start + n <= Span(sh, pf) && start + n <= |w.bits| && v == At(w.start, start)
    && Win(p', pf) == w.(bits := Fill(w.bits, start, n, false))
    && Win(p', Other(pf)) == Win(p, Other(pf))
    && Moved(p, sh, p', sh, pf, start, n, true)
  }

  class PageManager {
    var mem: Mem
    var cr3: int
    var kpool: Pool
    var upool: Pool
    var kwin: Window
    var uwin: Window
    ghost var sh: Shape

    constructor (p: Pages, ghost sh: Shape)
      ensures State() == p && this.sh == sh
    {
      mem, cr3, kpool, upool, kwin, uwin := p.m, p.cr3, p.kpool, p.upool, p.kwin, p.uwin;
      this.sh := sh;
      hide Agreement;
    }

    function State(): Pages
      reads this
    {
      Pages(mem, cr3, kpool, upool, kwin, uwin)
    }

    ghost predicate Valid()
      reads this
    {
      Agreement(State(), sh)
    }

    method Update(p: Pages)
      modifies this
      ensures State() == p && sh == old(sh)
    {
      mem, cr3, kpool, upool, kwin, uwin := p.m, p.cr3, p.kpool, p.upool, p.kwin, p.uwin;
    }

    /** A store into page `i` of window `pf`, at `v`, which is not that of the directory. */
    method StoreWord(ghost pf: PoolFlag, ghost i: nat, v: int, o: nat, x: int) returns (ok: bool)
      requires Valid() && i < Span(sh, pf) && v == Page(Win(State(), pf), i) && o < 1024
      requires i in ViewFor(State(), sh, pf) && ViewFor(State(), sh, pf)[i] != cr3
      modifies this
      ensures ok && Valid() && sh == old(sh) && State() == old(State()).(m := mem)
              && Steady(old(State()), sh, State(), sh)
      ensures mem == old(mem)[old(ViewFor(State(), sh, pf)[i]) + 4 * o := x]
      ensures ViewFor(State(), sh, PfKernel) == old(ViewFor(State(), sh, PfKernel))
      ensures ViewFor(State(), sh, PfUser) == old(ViewFor(State(), sh, PfUser))
    {
      hide Agreement, ViewFor, Steady, Store, Page;
      DataStoresAreHarmless(State(), sh, pf, i, o, x);
      var m := Store(mem, cr3, v + 4 * o, x);
      if !m.Done? { return false; }
      mem := m.value;
      return true;
    }

    /** `vaddr_get`: the search, and the loop that sets the bits found. */
    method VaddrGet(pf: PoolFlag, cnt: nat) returns (r: ScanResult)
      requires Win(State(), pf).bits != [] && cnt > 0
      modifies this
      ensures sh == old(sh)
      ensures var w := old(Win(State(), pf));
              && r == Scan(w.bits, |w.bits| - 1, cnt)
              && (r.Found? ==> r.start + cnt <= |w.bits| && AllClear(w.bits, r.start, cnt))
              && State() == if r.Found? then SetWin(old(State()), pf, w.(bits := Fill(w.bits, r.start, cnt, true)))
                            else old(State())
    {
      var w := Win(State(), pf);
      r := Scan(w.bits, |w.bits| - 1, cnt);
      if r.Found? {
        ScanFound(w.bits, |w.bits| - 1, cnt);
        hide Scan, Fill, AllClear;
        var bits, i := w.bits, 0;
        FillStep(w.bits, r.start, 0, true);
        while i < cnt
          invariant 0 <= i <= cnt && bits == Fill(w.bits, r.start, i, true)
          modifies {}
        {
          FillStep(w.bits, r.start, i, true);
          bits := bits[r.start + i := true];
          i := i + 1;
        }
        if pf.PfKernel? { kwin := w.(bits := bits); } else { uwin := w.(bits := bits); }
      }
    }

    /** `vaddr_remove` */
    method VaddrRemove(pf: PoolFlag, start: nat, cnt: nat)
      requires start + cnt <= |Win(State(), pf).bits|
      modifies this
      ensures sh == old(sh)
      ensures var w := old(Win(State(), pf));
              State() == SetWin(old(State()), pf, w.(bits := Fill(w.bits, start, cnt, false)))
    {
      var w := Win(State(), pf);
      var bits, i := w.bits, 0;
      assert Fill(w.bits, start, 0, false) == w.bits;
      while i < cnt
        invariant 0 <= i <= cnt && bits == Fill(w.bits, start, i, false)
        modifies {}
      {
        FillStep(w.bits, start, i, false);
        bits := bits[start + i := false];
        i := i + 1;
      }
      if pf.PfKernel? { kwin := w.(bits := bits); } else { uwin := w.(bits := bits); }
    }

    /** `malloc_page`.  NULL leaves everything as it was: `palloc` never reports failure, because the
        search in an exhausted pool stops at an assertion first. */
    method MallocPage(pf: PoolFlag, cnt: nat) returns (r: Grant)
      requires Valid()
      modifies this
      ensures !r.Halted? ==> Valid()
      ensures r.Null? <==> old(Refused(State(), pf, cnt))
      ensures r.Null? ==> State() == old(State()) && sh == old(sh)
      ensures r.Halted? <==> old(Stops(State(), sh, pf, cnt))
      ensures r.Granted? ==>
                var start := Index(old(Win(State(), pf).start), r.v);
                && Got(old(State()), old(sh), State(), sh, pf, r.v, cnt)
                && Counted(old(State()), State(), pf, cnt, |old(Missing(State(), pf, start, start + cnt))|)
                && Confined(old(State()), State(), old(sh), pf)
      ensures old(TablesThere(State(), pf)) && r.Granted? ==>
                TablesThere(State(), pf) && sh == old(sh)
                && PoolFor(State(), Other(pf)) == old(PoolFor(State(), Other(pf)))
    {
      hide Agreement, View, Fill, AllClear, Scan, Moved, TablesThere, FreeFrames, At, Index, Missing, Short, Counted,
           Confined;
      if cnt == 0 || cnt >= 3840 {
        return Halted;
      }
      WindowNotEmpty(State(), sh, pf);
      ghost var p0, sh0, w := State(), sh, Win(State(), pf);
      var found := VaddrGet(pf, cnt);
      if found.AssertFailed? { return Halted; }
      if found.NotFound? { return Null; }
      r := MapAll(pf, found.start, cnt, p0);
      IndexAt(w.start, found.start);
    }

    /** The loop of `malloc_page` over the claimed pages. */
    method MapAll(pf: PoolFlag, start: nat, cnt: nat, ghost p0: Pages) returns (r: Grant)
      requires Agreement(p0, sh) && 0 < cnt && start + cnt <= |Win(p0, pf).bits|
               && AllClear(Win(p0, pf).bits, start, cnt)
      requires State() == SetWin(p0, pf, Win(p0, pf).(bits := Fill(Win(p0, pf).bits, start, cnt, true)))
      modifies this
      ensures !r.Null?
      ensures r.Granted? ==>
                && Valid() && start + cnt <= old(Span(sh, pf)) && r.v == At(Win(p0, pf).start, start)
                && Win(State(), pf) == old(Win(State(), pf)) && Win(State(), Other(pf)) == old(Win(State(), Other(pf)))
                && Moved(p0, old(sh), State(), sh, pf, start, cnt, false) && Confined(p0, State(), old(sh), pf)
      ensures r.Halted? <==> start + cnt > old(Span(sh, pf)) || Short(p0, pf, start, start + cnt)
      ensures r.Granted? ==> Counted(p0, State(), pf, cnt, |Missing(p0, pf, start, start + cnt)|)
      ensures TablesThere(p0, pf) && r.Granted? ==>
                TablesThere(State(), pf) && sh == old(sh) && PoolFor(State(), Other(pf)) == PoolFor(p0, Other(pf))
    {
      hide Agree, Agreement, AllClear, Fill, View, MapStep, FreeFrames, Present, Pde, NewTable, Enough, Beyond, Moved,
           Steady, TablesThere, Missing, Short, Confined, Touched, EntriesBut, EntriesKept, Dir, Under;
      ClaimKeeps(p0, sh, pf, start, cnt);
      ghost var hi := ClaimEnd(sh, pf, start, cnt);
      SpanInside(p0, sh, pf);
      var v := Page(Win(State(), pf), start);
      var k := 0;
      ghost var p1, sh1 := State(), sh;
      TablesWindow(p0, p1, pf);
      SteadyBits(p0, sh, p1);
      MovedStart(p0, sh, p1, pf, start);
      MissingSame(p0, p1, pf, start, start + cnt);
      TablesNone(p0, pf, start, cnt);
      ShortBits(p0, p1, pf, start, start + cnt);
      ConfinedBits(p0, p1, sh, pf);
      UnderIndex(p0, sh, pf);
      ghost var tables := 0;
      while k < cnt
        invariant 0 <= k <= cnt && start + k <= hi == ClaimEnd(sh, pf, start, cnt) && Span(sh, pf) == Span(sh1, pf)
        invariant Agree(State(), sh, pf, start + k, hi)
        invariant start + cnt > hi ==> Beyond(mem, cr3, Win(p1, pf), hi)
        invariant v == Page(Win(p0, pf), start + k)
        invariant kwin == p1.kwin && uwin == p1.uwin && cr3 == p1.cr3
        invariant Moved(p0, sh1, State(), sh, pf, start, k, false)
        invariant Short(State(), pf, start + k, start + cnt) <==> Short(p0, pf, start, start + cnt)
        invariant 0 <= tables && Counted(p0, State(), pf, k, tables)
        invariant |Missing(p0, pf, start, start + cnt)| == |Missing(State(), pf, start + k, start + cnt)| + tables
        invariant TablesThere(p0, pf) ==> TablesThere(State(), pf)
        invariant Confined(p0, State(), sh1, pf)
        invariant tables == 0 ==> sh == sh1 && PoolFor(State(), Other(pf)) == PoolFor(p0, Other(pf))
      {
        ghost var p, s := State(), sh;
        var q := MapStep(State(), pf, v);
        if start + k == hi {
          MapStopsBeyond(p, s, pf, start + k, hi);
        } else {
          MapStepKeeps(p, s, pf, start + k, hi);
          ShortStep(p, s, pf, start + k, hi, start + cnt);
          StepCounts(p, pf, v);
        }
        if !q.Done? {
          return Halted;
        }
        Update(q.value);
        tables := tables + if Present(Pde(p.m, p.cr3, v)) then 0 else 1;
        sh := AfterShape(p, s, NewTable(p, pf, v));
        assert v == Page(Win(p, pf), start + k);
        MovedMore(p0, sh1, p, s, q.value, sh, pf, start, k);
        MapTablesThere(p, s, q.value, sh, pf, start + k, hi);
        ConfinedStep(p0, p, q.value, sh1, pf, start + k);
        v := v + 4096;
        k := k + 1;
      }
      MissingNone(State(), pf, start + cnt);
      EnoughLast(State(), pf, start + cnt);
      AllMapped(State(), sh, pf, start + cnt);
      return Granted(Page(Win(State(), pf), start));
    }

    /** `get_a_page` of page `i` of a window, for a process or a kernel thread: the page is mapped.  It
        stops exactly for page 0, in the window of the other kind, for a page that is
        mapped already, or for lack of a frame for it or for its table. */
    method GetAPage(pf: PoolFlag, process: bool, v: int) returns (r: Grant)
      requires Valid()
      requires var i := Index(Win(State(), pf).start, v); 0 <= i < Span(sh, pf) && v == At(Win(State(), pf).start, i)
      modifies this
      ensures r.Granted? ==>
                var i := Index(old(Win(State(), pf).start), v);
                && r.v == v && Valid() && i < |old(Win(State(), pf).bits)|
                && Win(State(), pf) == old(Win(State(), pf)).(bits := old(Win(State(), pf).bits)[i := true])
                && Win(State(), Other(pf)) == old(Win(State(), Other(pf)))
                && Moved(old(State()), old(sh), State(), sh, pf, i, 1, false)
                && Counted(old(State()), State(), pf, 1, |old(Missing(State(), pf, i, i + 1))|)
                && Confined(old(State()), State(), old(sh), pf)
      ensures !r.Null?
      ensures r.Halted? <==>
                var i := Index(old(Win(State(), pf).start), v);
                i == 0 || process != pf.PfUser? || i in old(ViewFor(State(), sh, pf))
                || old(Short(State(), pf, i, i + 1))
    {
      hide Agreement, Agree, ViewFor, AllClear, Fill, MapStep, FreeFrames, Present, Pde, NewTable, Enough, Beyond,
           EntriesKept, IsTable, Steady, Moved, Short, Missing, Confined, Touched, EntriesBut, Dir, Under, Counted;
      ghost var p0, sh0 := State(), sh;
      SpanInside(p0, sh, pf);
      var w := Win(State(), pf);
      var i := (v - w.start) / 4096;
      if process != pf.PfUser? || i <= 0 { return Halted; }
      if pf.PfKernel? { kwin := w.(bits := w.bits[i := true]); } else { uwin := w.(bits := w.bits[i := true]); }
      ghost var p1 := State();
      TablesWindow(p0, p1, pf);
      ShortBits(p0, p1, pf, i, i + 1);
      BitIsView(p0, sh, pf, i);
      var q := MapStep(State(), pf, v);
      if w.bits[i] {
        MapStops(p0, sh, p1, pf, i);
      } else {
        OneClaimed(p0, sh, p1, pf, i);
        MapStepKeeps(p1, sh, pf, i, i + 1);
        ShortStep(p1, sh, pf, i, i + 1, i + 1);
      }
      if !q.Done? { return Halted; }
      EnoughLast(q.value, pf, i + 1);
      MissingNone(q.value, pf, i + 1);
      MissingSame(p0, p1, pf, i, i + 1);
      CountedBits(p0, p1, q.value, pf, 1, |Missing(p0, pf, i, i + 1)|);
      Update(q.value);
      sh := AfterShape(p1, sh, NewTable(p1, pf, v));
      SteadyBits(p0, sh0, p1);
      MovedStart(p0, sh0, p1, pf, i);
      MovedMore(p0, sh0, p1, sh0, q.value, sh, pf, i, 0);
      MapTablesThere(p1, sh0, q.value, sh, pf, i, i + 1);
      ConfinedBits(p0, p1, sh0, pf);
      UnderIndex(p0, sh0, pf);
      ConfinedStep(p0, p1, q.value, sh0, pf, i);
      AllMapped(State(), sh, pf, i + 1);
      return Granted(v);
    }

    /** `mfree_page` of mapped pages, not that of the directory: no assertion fires, the pages are unmapped,
        their bits cleared, and every frame is back in its pool. */
    method MfreePage(pf: PoolFlag, v: int, cnt: nat) returns (ok: bool)
      requires Valid() && cnt >= 1 && Given(State(), sh, pf, v, cnt)
      modifies this
      ensures ok && Valid() && sh == old(sh)
      ensures Gave(old(State()), sh, State(), pf, v, cnt) && Confined(old(State()), State(), sh, pf)
      ensures PoolFor(State(), Other(pf)) == old(PoolFor(State(), Other(pf)))
      ensures old(TablesThere(State(), pf)) ==> TablesThere(State(), pf)
    {
      hide Agree, Agreement, AddrV2P, UnmapStep, View, Fill, Steady, TablesThere, EntriesKept, IsTable, Confined,
           Touched, Dir, Under;
      ghost var p0 := State();
      var w := Win(State(), pf);
      ghost var start := (v - w.start) / 4096;
      FirstFrame(p0, sh, pf, start);
      if v % 4096 != 0 { return false; }
      var first := AddrV2P(mem, cr3, v);
      if !first.Done? || first.value % 4096 != 0 || first.value < 0x102000 { return false; }
      var user := first.value >= upool.start;
      NoneClaimed(p0, sh, pf, start);
      MovedNone(p0, sh, pf, start);
      ConfinedBits(p0, p0, sh, pf);
      UnderIndex(p0, sh, pf);
      var k := 0;
      var at := v;
      while k < cnt
        invariant 0 <= k <= cnt && at == Page(w, start + k)
        invariant Agree(State(), sh, pf, start, start + k)
        invariant kwin == p0.kwin && uwin == p0.uwin && cr3 == p0.cr3 && sh == old(sh)
        invariant PoolFor(State(), Other(pf)) == PoolFor(p0, Other(pf))
        invariant Moved(p0, sh, State(), sh, pf, start, k, true)
        invariant TablesThere(p0, pf) ==> TablesThere(State(), pf)
        invariant Confined(p0, State(), sh, pf)
      {
        ghost var p := State();
        assert start + k in ViewFor(p, sh, pf);
        UnmapStepKeeps(p, sh, pf, start, start + k);
        var q := UnmapStep(State(), user, at);
        if !q.Done? { return false; }
        Update(q.value);
        MovedLess(p0, p, q.value, sh, pf, start, k);
        MapTablesThere(p, sh, q.value, sh, pf, start, start + k);
        ConfinedStep(p0, p, q.value, sh, pf, start + k);
        at := at + 4096;
        k := k + 1;
      }
      ghost var p2 := State();
      PageReleaseKeeps(p2, sh, pf, start, cnt);
      VaddrRemove(pf, (v - w.start) / 4096, cnt);
      TablesWindow(p2, State(), pf);
      SteadyBits(p2, sh, State());
      MovedBits(p0, p2, State(), sh, pf, start, cnt);
      ConfinedFields(p0, p2, State(), sh, pf);
      return true;
    }
  }

  // ---------------------------------------------------------------------------------------
  // Bookkeeping of the loops
  // ---------------------------------------------------------------------------------------

  lemma GotStepped(p: Pages, sh: Shape, p': Pages, sh': Shape, pf: PoolFlag, v: int, n: nat)
    requires Got(p, sh, p', sh', pf, v, n) && Confined(p, p', sh, pf)
    ensures Stepped(p, sh, p', sh', pf)
  {
    hide ViewFor, Steady, Confined, Fill, AllClear, Scan, At, Index;
  }

  lemma GaveStepped(p: Pages, sh: Shape, p': Pages, pf: PoolFlag, v: int, n: nat)
    requires Gave(p, sh, p', pf, v, n) && Confined(p, p', sh, pf)
    ensures Stepped(p, sh, p', sh, pf)
  {
    hide ViewFor, Steady, Confined, Fill, At, Index;
  }

  lemma SteppedSame(p: Pages, sh: Shape, pf: PoolFlag)
    ensures Stepped(p, sh, p, sh, pf)
  {
    hide ViewFor, Steady, Confined;
    SteadyBits(p, sh, p);
    ConfinedBits(p, p, sh, pf);
  }

  lemma IndexAt(w: int, i: int)
    ensures Index(w, At(w, i)) == i
  {
  }

  lemma WindowNotEmpty(p: Pages, sh: Shape, pf: PoolFlag)
    requires Agreement(p, sh)
    ensures Win(p, pf).bits != [] && Span(sh, pf) <= |Win(p, pf).bits|
  {
    hide DirOk, PoolOk, View, DirTaken, Beyond;
  }

  lemma BitIsView(p: Pages, sh: Shape, pf: PoolFlag, i: nat)
    requires Agreement(p, sh) && i < Span(sh, pf) && i < |Win(p, pf).bits|
    ensures Win(p, pf).bits[i] <==> i in ViewFor(p, sh, pf)
  {
    hide DirOk, PoolOk, View, DirTaken, Beyond, Geometry;
  }

  /** A page that is mapped already cannot be mapped. */
  lemma MapStops(p: Pages, sh: Shape, p': Pages, pf: PoolFlag, i: nat)
    requires Agreement(p, sh) && i < Span(sh, pf) && i in ViewFor(p, sh, pf)
    requires p'.m == p.m && p'.cr3 == p.cr3 && SameSpot(Win(p, pf), Win(p', pf))
    ensures MapStep(p', pf, Page(Win(p', pf), i)) == Panic
  {
    hide Agreement, Agree, ViewFor, Palloc, AddPage, SelfMapped, Addr, WindowPage, Walk;
    NoneClaimed(p, sh, pf, i);
    MappedPage(p, sh, pf, i, i);
    PallocOutcome(PoolFor(p', pf));
    if Palloc(PoolFor(p', pf)).Done? {
      AddStops(SetPool(p', pf, Palloc(PoolFor(p', pf)).value.0), Page(Win(p', pf), i), Palloc(PoolFor(p', pf)).value.1);
    }
  }

  /** One bit set is a claim of one page. */
  lemma OneClaimed(p: Pages, sh: Shape, p': Pages, pf: PoolFlag, i: nat)
    requires Agreement(p, sh) && i < Span(sh, pf) && i < |Win(p, pf).bits| && !Win(p, pf).bits[i]
    requires p' == SetWin(p, pf, Win(p, pf).(bits := Win(p, pf).bits[i := true]))
    ensures Agree(p', sh, pf, i, i + 1)
    ensures ViewFor(p', sh, PfKernel) == ViewFor(p, sh, PfKernel) && ViewFor(p', sh, PfUser) == ViewFor(p, sh, PfUser)
  {
    hide Agreement, Agree, ViewFor, Fill, AllClear;
    FillOne(Win(p, pf).bits, i);
    ClaimKeeps(p, sh, pf, i, 1);
  }

  lemma FillOne(bits: seq<bool>, i: nat)
    requires i < |bits| && !bits[i]
    ensures Fill(bits, i, 1, true) == bits[i := true] && AllClear(bits, i, 1)
  {
  }

  lemma SpanInside(p: Pages, sh: Shape, pf: PoolFlag)
    requires Agreement(p, sh)
    ensures Span(sh, pf) <= |Win(p, pf).bits| <= Span(sh, pf) + 1
  {
    hide DirOk, PoolOk, View, DirTaken, Beyond, Geometry;
  }

  lemma TablesWindow(p: Pages, p': Pages, pf: PoolFlag)
    requires p'.m == p.m && p'.cr3 == p.cr3
    requires Win(p', pf).start == Win(p, pf).start && |Win(p', pf).bits| == |Win(p, pf).bits|
    ensures TablesThere(p, pf) <==> TablesThere(p', pf)
  {
    hide Present, Pde;
    assert forall i :: Page(Win(p', pf), i) == Page(Win(p, pf), i);
  }

  lemma MapTablesThere(p: Pages, sh: Shape, p': Pages, sh': Shape, pf: PoolFlag, lo: int, hi: int)
    requires Agree(p, sh, pf, lo, hi) && Steady(p, sh, p', sh') && Win(p', pf) == Win(p, pf)
    ensures TablesThere(p, pf) ==> TablesThere(p', pf)
    ensures p'.cr3 == p.cr3 && BeyondKeeps(p, sh, pf, p'.m) && EntriesKept(p, p'.m)
  {
    hide Present, Geometry, DirOk, PoolOk, BitsOk, View, DirTaken, Beyond;
    forall i | TablesThere(p, pf) && 0 <= i < |Win(p, pf).bits|
      ensures Present(Pde(p'.m, p.cr3, Page(Win(p, pf), i)))
    {
      PageIsWindowPage(p, pf, i);
      WindowIndices(p, Page(Win(p, pf), i));
      hide Dir;
    }
  }

  /** Tables that are there stay. */
  lemma TablesStay(p: Pages, sh: Shape, p': Pages, sh': Shape, pf: PoolFlag)
    requires Agreement(p, sh) && Steady(p, sh, p', sh') && TablesThere(p, pf)
    ensures TablesThere(p', pf)
  {
    hide Present, DirOk, PoolOk, BitsOk, View, DirTaken, Beyond, IsTable, Dir, Geometry, WindowPage;
    assert forall i :: Page(Win(p', pf), i) == Page(Win(p, pf), i);
    forall i | 0 <= i < |Win(p, pf).bits|
      ensures Present(Pde(p'.m, p.cr3, Page(Win(p, pf), i)))
    {
      PageIsWindowPage(p, pf, i);
      WindowIndices(p, Page(Win(p, pf), i));
    }
  }

  lemma MovedStart(p: Pages, sh: Shape, p': Pages, pf: PoolFlag, start: int)
    requires ViewFor(p', sh, PfKernel) == ViewFor(p, sh, PfKernel) && ViewFor(p', sh, PfUser) == ViewFor(p, sh, PfUser)
    requires Steady(p, sh, p', sh)
    ensures Moved(p, sh, p', sh, pf, start, 0, false)
  {
    hide View, ViewFor, Steady;
  }

  lemma MovedNone(p: Pages, sh: Shape, pf: PoolFlag, start: int)
    ensures Moved(p, sh, p, sh, pf, start, 0, true)
  {
    hide View, ViewFor, Steady;
    SteadyBits(p, sh, p);
  }

  lemma MovedMore(p0: Pages, sh0: Shape, p: Pages, sh: Shape, p': Pages, sh': Shape, pf: PoolFlag, start: int, k: nat)
    requires Moved(p0, sh0, p, sh, pf, start, k, false) && Steady(p, sh, p', sh')
    requires ViewFor(p', sh', Other(pf)) == ViewFor(p, sh, Other(pf))
    requires start + k in ViewFor(p', sh', pf)
    requires ViewFor(p', sh', pf) == ViewFor(p, sh, pf)[start + k := ViewFor(p', sh', pf)[start + k]]
    ensures Moved(p0, sh0, p', sh', pf, start, k + 1, false)
  {
    hide View, ViewFor, Steady;
    SteadyTrans(p0, sh0, p, sh, p', sh');
  }

  lemma MovedLess(p0: Pages, p: Pages, p': Pages, sh: Shape, pf: PoolFlag, start: int, k: nat)
    requires Moved(p0, sh, p, sh, pf, start, k, true) && Steady(p, sh, p', sh)
    requires ViewFor(p', sh, Other(pf)) == ViewFor(p, sh, Other(pf))
    requires ViewFor(p', sh, pf) == ViewFor(p, sh, pf) - {start + k}
    ensures Moved(p0, sh, p', sh, pf, start, k + 1, true)
  {
    hide View, ViewFor, Steady;
    SteadyTrans(p0, sh, p, sh, p', sh);
  }

  lemma MovedBits(p0: Pages, p: Pages, p': Pages, sh: Shape, pf: PoolFlag, start: int, cnt: nat)
    requires Moved(p0, sh, p, sh, pf, start, cnt, true) && Steady(p, sh, p', sh)
    requires ViewFor(p', sh, PfKernel) == ViewFor(p, sh, PfKernel) && ViewFor(p', sh, PfUser) == ViewFor(p, sh, PfUser)
    ensures Moved(p0, sh, p', sh, pf, start, cnt, true)
  {
    hide View, ViewFor, Steady;
    SteadyTrans(p0, sh, p, sh, p', sh);
  }

  /** The directory keeps the page it had, so a page mapped since is another. */
  lemma OldDirectory(p0: Pages, view0: map<int, int>, r0: set<int>, p: Pages, view: map<int, int>, r: set<int>, i: int)
    requires DirTaken(p0, view0, r0) && PoolOk(p.kpool, view, r) && p.cr3 == p0.cr3 && SamePlace(p0.kpool, p.kpool)
             && r0 <= r
    requires i in view && i !in view0 && forall j :: j in view0 ==> j in view && view[j] == view0[j]
    ensures view[i] != p.cr3
  {
    assert forall f :: InPool(p.kpool, f) <==> InPool(p0.kpool, f);
    hide InPool;
  }

  lemma NewNotDirectory(p: Pages, sh: Shape, p': Pages, sh': Shape, start: nat, n: nat, i: int)
    requires Agreement(p, sh) && Agreement(p', sh') && Moved(p, sh, p', sh', PfKernel, start, n, false)
             && InRange(i, start, n)
    requires forall k :: start <= k < start + n ==> k !in ViewFor(p, sh, PfKernel)
    ensures i in ViewFor(p', sh', PfKernel) && ViewFor(p', sh', PfKernel)[i] != p'.cr3
  {
    hide View, ViewFor, Geometry, DirOk, BitsOk, Beyond, EntriesKept, IsTable, BeyondKeeps, InPool, Used;
    OldDirectory(p, ViewFor(p, sh, PfKernel), sh.reserved, p', ViewFor(p', sh', PfKernel), sh'.reserved, i);
  }

  /** Changes that leave the translations alone do not matter. */
  lemma MovedStill(p0: Pages, sh0: Shape, p: Pages, sh: Shape, p': Pages, pf: PoolFlag, start: int, cnt: nat)
    requires Moved(p0, sh0, p, sh, pf, start, cnt, false) && Steady(p, sh, p', sh)
    requires ViewFor(p', sh, PfKernel) == ViewFor(p, sh, PfKernel) && ViewFor(p', sh, PfUser) == ViewFor(p, sh, PfUser)
    ensures Moved(p0, sh0, p', sh, pf, start, cnt, false)
  {
    hide View, ViewFor, Steady;
    SteadyTrans(p0, sh0, p, sh, p', sh);
  }

  /** Where no tables are missing, a run misses none. */
  lemma TablesNone(p: Pages, pf: PoolFlag, start: nat, n: nat)
    requires start + n <= |Win(p, pf).bits|
    ensures TablesThere(p, pf) ==> Missing(p, pf, start, start + n) == {}
  {
    hide Present, Page, Dir;
    if TablesThere(p, pf) {
      forall k | Under(Win(p, pf), start, start + n, k)
        ensures Present(Entry(p.m, p.cr3, k))
      {
        var i :| start <= i < start + n && Dir(Page(Win(p, pf), i)) == k;
        assert Present(Pde(p.m, p.cr3, Page(Win(p, pf), i)));
      }
      hide Under;
    }
  }

  /** Claimed bits play no part in what is short. */
  lemma ShortBits(p: Pages, p': Pages, pf: PoolFlag, lo: int, hi: int)
    requires p'.m == p.m && p'.cr3 == p.cr3 && Win(p', pf).start == Win(p, pf).start
    requires p'.kpool == p.kpool && p'.upool == p.upool
    ensures Short(p', pf, lo, hi) <==> Short(p, pf, lo, hi)
    ensures Counted(p, p', pf, 0, 0)
  {
    hide Missing, FreeFrames;
    MissingSame(p, p', pf, lo, hi);
  }

  lemma CountedBits(p: Pages, p': Pages, p2: Pages, pf: PoolFlag, n: int, tables: int)
    requires p'.kpool == p.kpool && p'.upool == p.upool && Counted(p', p2, pf, n, tables)
    ensures Counted(p, p2, pf, n, tables)
  {
    hide FreeFrames;
  }

  lemma ConfinedFields(p: Pages, p': Pages, p2: Pages, sh: Shape, pf: PoolFlag)
    requires Confined(p, p', sh, pf) && p2.m == p'.m && p2.cr3 == p'.cr3
    ensures Confined(p, p2, sh, pf)
  {
    hide Inside;
  }

  lemma EnoughLast(p: Pages, pf: PoolFlag, lo: int)
    ensures !Short(p, pf, lo, lo)
  {
    hide Missing, FreeFrames;
    MissingNone(p, pf, lo);
  }

  /** The first page decides which pool the loop of `mfree_page` expects: the right one. */
  lemma FirstFrame(p: Pages, sh: Shape, pf: PoolFlag, start: nat)
    requires Agreement(p, sh) && start < Span(sh, pf) && start in ViewFor(p, sh, pf)
    ensures var v := Page(Win(p, pf), start); var f := AddrV2P(p.m, p.cr3, v);
            && v % 4096 == 0 && f.Done? && f.value % 4096 == 0 && f.value >= 0x102000
            && (f.value >= p.upool.start <==> pf.PfUser?)
  {
    NoneClaimed(p, sh, pf, start);
    MappedPage(p, sh, pf, start, start);
    PfreeToOwner(p, sh, pf, start, start);
    AddrV2PIsWalk(p.m, p.cr3, Page(Win(p, pf), start));
    hide Agree, Agreement, View, Walk, AddrV2P, Pfree;
  }

  lemma PageReleaseKeeps(p: Pages, sh: Shape, pf: PoolFlag, lo: nat, cnt: nat)
    requires Agree(p, sh, pf, lo, lo + cnt)
    ensures var w := Win(p, pf);
            && lo + cnt <= |w.bits|
            && var p' := SetWin(p, pf, w.(bits := Fill(w.bits, lo, cnt, false)));
               && Agreement(p', sh)
               && ViewFor(p', sh, PfKernel) == ViewFor(p, sh, PfKernel)
               && ViewFor(p', sh, PfUser) == ViewFor(p, sh, PfUser)
  {
    hide Agree, Agreement, View;
    ReleaseKeeps(p, sh, pf, lo, lo + cnt);
  }
}
