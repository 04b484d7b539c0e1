/**
 Heaps as the kernel sets them up and uses them: that of the kernel in `mem_init` of `kernel/memory.c`, that of a
 process in `userprog/process.c`, and both beside everybody else who takes pages.
 */
module KernelHeap {
  import opened Common
  import opened Paging
  import opened Bitmap
  import opened PageModel
  import opened PageSteps
  import opened FrameCount
  import opened PageManager
  import opened MemoryInit
  import opened HeapModel
  import HP = HeapPages
  import P = Process
  import H = Heap

  // ---------------------------------------------------------------------------------------
  // The heap of the kernel
  // ---------------------------------------------------------------------------------------

  /** The kernel heap is valid exactly if the tables are blank; nothing is handed out, and no page table is
      missing. */
  method MemInit(m: Mem, allMem: int, guard: bool) returns (h: H.Heap)
    requires BootMemory(m) && Addr(allMem)
    ensures fresh(h) && fresh(h.pm) && (h.Valid() <==> Blank(m, BootShape(allMem, guard).kspan))
    ensures h.live == map[] && h.pf == PfKernel && h.base == HP.BaseOf(h.p0, h.sh0)
    ensures h.p0 == h.pm.State() == InitPages(m, allMem, guard) && h.sh0 == h.pm.sh == BootShape(allMem, guard)
    ensures TablesThere(h.p0, PfKernel)
    ensures h.poolSize == 4096 * PoolLayout(allMem).kernelPages && P.KernelBehind(h.p0, h.sh0)
  {
    hide Agreement, BootMemory, InitPages, PoolLayout, TablesThere, BootShape, Blank, Geometry, P.KernelBehind, ViewFor;
    BootAgreement(m, allMem, guard);
    PoolBound(allMem);
    BootFields(m, allMem, guard);
    BootBehind(m);
    BehindBoot(InitPages(m, allMem, guard), BootShape(allMem, guard));
    var p := InitPages(m, allMem, guard);
    var pm := new PageManager(p, BootShape(allMem, guard));
    h := new H.Heap(pm, PfKernel, 4096 * PoolLayout(allMem).kernelPages);
  }

  lemma PoolBound(allMem: int)
    requires Addr(allMem)
    ensures 0 <= 4096 * PoolLayout(allMem).kernelPages <= 0xFFFF0000
  {
  }

  /** The first page of the kernel half is mapped at boot. */
  lemma BootBehind(m: Mem)
    requires BootMemory(m)
    ensures Walk(m, BOOT_DIR, USER_END).Some?
  {
    IndicesOf(USER_END, 768, 0, 0);
    BootBase(768);
    FlagsOf(0);
    hide Dir, Tab, Off, Base, Present;
    assert Pde(m, BOOT_DIR, USER_END) == BootEntry(768);
    assert Pte(m, BOOT_DIR, USER_END) == Entry(m, 0x101000, 0);
  }

  lemma BehindBoot(p: Pages, sh: Shape)
    requires p.uwin == Window(USER_END, [true]) && sh.uspan == 0 && Walk(p.m, p.cr3, USER_END).Some?
    ensures P.KernelBehind(p, sh)
  {
    hide Walk;
  }

  /** With the 32 MiB of `mem_init`, `sys_malloc` accepts a size of 3840 pages, for which `malloc_page` stops. */
  lemma LargestRequest(descs: seq<Desc>, p: Pages, sh: Shape)
    ensures var size := 15728628;
            && 0 < size < 4096 * PoolLayout(0x2000000).kernelPages
            && H.Need(descs, size) == 3840 && Stops(p, sh, PfKernel, 3840)
  {
  }

  // ---------------------------------------------------------------------------------------
  // Others beside a heap
  // ---------------------------------------------------------------------------------------

  /** `get_kernel_pages` and `get_user_pages` by somebody else, as in `thread_start` and `process_execute`: the heap
      goes on as it was, and the pages belong to its base. */
  method GetPages(h: H.Heap, pf: PoolFlag, n: nat) returns (r: Grant)
    requires h.Valid()
    modifies h`base, h.pm
    ensures !r.Halted? ==> h.Valid()
    ensures r.Null? <==> old(Refused(h.pm.State(), pf, n))
    ensures r.Null? ==> h.pm.State() == old(h.pm.State()) && h.pm.sh == old(h.pm.sh) && h.base == old(h.base)
    ensures r.Halted? <==> old(Stops(h.pm.State(), h.pm.sh, pf, n))
    ensures r.Granted? ==>
              && Got(old(h.pm.State()), old(h.pm.sh), h.pm.State(), h.pm.sh, pf, r.v, n)
              && HP.Grew(old(h.base), h.base, pf, Index(old(Win(h.pm.State(), pf).start), r.v), n,
                         ViewFor(h.pm.State(), h.pm.sh, pf))
              && h.base == HP.Rebased(old(h.base), old(h.pm.State()), old(h.pm.sh), h.pm.State(), h.pm.sh)
              && Stepped(old(h.pm.State()), old(h.pm.sh), h.pm.State(), h.pm.sh, pf)
  {
    hide Agreement, ViewFor, Got, Refused, Stops, Missing, Counted, TablesThere, Index, HeapOk, HP.Settled, HP.Grew,
         Stepped, Confined, HP.Rebased;
    ghost var p, sh := h.pm.State(), h.pm.sh;
    r := h.pm.MallocPage(pf, n);
    if r.Granted? {
      OthersGot(h.base, p, sh, h.pm.State(), h.pm.sh, h.pf, h.arenas, pf, r.v, n);
      GotStepped(p, sh, h.pm.State(), h.pm.sh, pf, r.v, n);
      h.Adapt(p, sh);
    }
  }

  lemma OthersGot(base: HP.Base, p: Pages, sh: Shape, p': Pages, sh': Shape, pf: PoolFlag, arenas: map<int, Arena>,
                  pf': PoolFlag, v: int, n: nat)
    requires Agreement(p, sh) && HP.Settled(base, p, sh, pf, arenas) && Got(p, sh, p', sh', pf', v, n)
    ensures HP.Rely(base, p, sh, p', sh', pf, arenas)
    ensures HP.Grew(base, HP.Rebased(base, p, sh, p', sh'), pf', Index(Win(p, pf').start, v), n, ViewFor(p', sh', pf'))
  {
    hide Agreement, ViewFor, Moved, Fill, AllClear, Scan, HP.Settled, HP.Owned, HP.Rely, HP.Grew, HP.Rebased, At, Index;
    var start := Index(Win(p, pf').start, v);
    HP.ClearUnmapped(p, sh, pf', start, n);
    if pf' == pf {
      forall i | InRange(i, start, n) ensures !HP.Owned(Win(p, pf).start, arenas, i) {
        HP.NotOwned(base, p, sh, pf, arenas, i);
      }
    }
    HP.RelyMoved(base, p, sh, p', sh', pf, arenas, pf', start, n, false);
    HP.BaseGrows(base, p, sh, p', sh', pf', start, n);
  }

  /** `get_a_page` by somebody else, as in `start_process`. */
  method GetPage(h: H.Heap, pf: PoolFlag, process: bool, v: int) returns (r: Grant)
    requires h.Valid()
    requires var w := Win(h.pm.State(), pf); var i := Index(w.start, v);
             0 <= i < Span(h.pm.sh, pf) && v == At(w.start, i)
    modifies h`base, h.pm
    ensures !r.Null? && (r.Granted? ==> r.v == v && h.Valid())
    ensures r.Halted? <==>
              var i := Index(old(Win(h.pm.State(), pf).start), v);
              i == 0 || process != pf.PfUser? || i in old(ViewFor(h.pm.State(), h.pm.sh, pf))
              || old(Short(h.pm.State(), pf, i, i + 1))
    ensures r.Granted? ==>
              var i := Index(old(Win(h.pm.State(), pf).start), v);
              && Moved(old(h.pm.State()), old(h.pm.sh), h.pm.State(), h.pm.sh, pf, i, 1, false)
              && HP.Grew(old(h.base), h.base, pf, i, 1, ViewFor(h.pm.State(), h.pm.sh, pf))
              && i < |old(Win(h.pm.State(), pf).bits)|
              && Win(h.pm.State(), pf) ==
                old(Win(h.pm.State(), pf)).(bits := old(Win(h.pm.State(), pf).bits)[i := true])
              && h.base == HP.Rebased(old(h.base), old(h.pm.State()), old(h.pm.sh), h.pm.State(), h.pm.sh)
              && Stepped(old(h.pm.State()), old(h.pm.sh), h.pm.State(), h.pm.sh, pf)
              && Counted(old(h.pm.State()), h.pm.State(), pf, 1, |old(Missing(h.pm.State(), pf, i, i + 1))|)
  {
    hide Agreement, ViewFor, Short, Missing, Moved, TablesThere, HeapOk, HP.Settled, HP.Grew, HP.Owned, HP.Rely,
         HP.Rebased, At, Index, Counted, Confined;
    ghost var p, sh := h.pm.State(), h.pm.sh;
    r := h.pm.GetAPage(pf, process, v);
    if r.Granted? {
      ghost var i := Index(Win(p, pf).start, v);
      forall k | InRange(k, i, 1) && pf == h.pf ensures !HP.Owned(Win(p, h.pf).start, h.arenas, k) {
        HP.NotOwned(h.base, p, sh, h.pf, h.arenas, k);
      }
      HP.RelyMoved(h.base, p, sh, h.pm.State(), h.pm.sh, h.pf, h.arenas, pf, i, 1, false);
      HP.BaseGrows(h.base, p, sh, h.pm.State(), h.pm.sh, pf, i, 1);
      MovedStepped(p, sh, h.pm.State(), h.pm.sh, pf, i, 1);
      h.Adapt(p, sh);
    }
  }

  lemma MovedStepped(p: Pages, sh: Shape, p': Pages, sh': Shape, pf: PoolFlag, start: int, n: int)
    requires Moved(p, sh, p', sh', pf, start, n, false) && Confined(p, p', sh, pf)
             && Win(p', Other(pf)) == Win(p, Other(pf))
    ensures Stepped(p, sh, p', sh', pf)
  {
    hide ViewFor, Steady, Confined;
  }

  /** `create_page_dir` by somebody else. */
  method NewDirectory(h: H.Heap) returns (r: Grant, ghost f: int, ghost mid: Pages)
    requires h.Valid() && P.KernelBehind(h.pm.State(), h.pm.sh)
    modifies h`base, h.pm
    ensures !r.Halted? ==> h.Valid() && P.KernelBehind(h.pm.State(), h.pm.sh)
    ensures r.Null? <==> old(Refused(h.pm.State(), PfKernel, 1))
    ensures r.Null? ==> h.pm.State() == old(h.pm.State()) && h.pm.sh == old(h.pm.sh) && h.base == old(h.base)
    ensures r.Halted? <==> old(Stops(h.pm.State(), h.pm.sh, PfKernel, 1))
    ensures r.Granted? ==>
              var i := Index(old(h.pm.kwin.start), r.v); var view := ViewFor(h.pm.State(), h.pm.sh, PfKernel);
              && Got(old(h.pm.State()), old(h.pm.sh), h.pm.State(), h.pm.sh, PfKernel, r.v, 1)
              && HP.Grew(old(h.base), h.base, PfKernel, i, 1, view)
              && 0 <= i < h.pm.sh.kspan && r.v == At(old(h.pm.kwin.start), i) && SameSpot(old(h.pm.kwin), h.pm.kwin)
              && i in view && view[i] == f && f != h.pm.cr3 && P.Cloned(h.pm.mem, h.pm.cr3, f)
              && h.base == HP.Rebased(old(h.base), old(h.pm.State()), old(h.pm.sh), h.pm.State(), h.pm.sh)
              && Stepped(old(h.pm.State()), old(h.pm.sh), mid, h.pm.sh, PfKernel) && Agreement(mid, h.pm.sh)
              && h.pm.State() == mid.(m := h.pm.mem) && P.Elsewhere(mid.m, h.pm.mem, f) && f % 4096 == 0
              && ViewFor(mid, h.pm.sh, PfKernel) == view
  {
    hide Agreement, ViewFor, Got, Refused, Stops, TablesThere, HeapOk, HP.Settled, HP.Grew, P.KernelBehind, P.Cloned,
         P.ProcessPages, P.ProcessShape, At, Index, Stepped, P.Elsewhere, HP.Rebased;
    ghost var p, sh := h.pm.State(), h.pm.sh;
    r, f, mid := P.CreatePageDir(h.pm);
    if r.Granted? {
      OthersGot(h.base, p, sh, h.pm.State(), h.pm.sh, h.pf, h.arenas, PfKernel, r.v, 1);
      h.Adapt(p, sh);
    }
  }
}
