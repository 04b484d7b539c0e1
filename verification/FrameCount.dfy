/**
 How many frames a request for pages takes, and exactly when there are too few.
 */
module FrameCount {
  import opened Common
  import opened Paging
  import opened Bitmap
  import opened PageModel
  import opened PageSteps

  /** A page from `lo` to `hi` lies under directory entry `k`. */
  ghost predicate Under(w: Window, lo: int, hi: int, k: int) {
    exists i :: lo <= i < hi && Dir(Page(w, i)) == k
  }

  /** The directory entries without a table under which pages from `lo` to `hi` of the window lie. */
  ghost function Missing(p: Pages, pf: PoolFlag, lo: int, hi: int): set<int> {
    set k | 0 <= k < 1024 && !Present(Entry(p.m, p.cr3, k)) && Under(Win(p, pf), lo, hi, k)
  }

  /** There are too few free frames to map the pages from `lo` to `hi`.  Each page takes one of its pool, and
      each missing table one of the kernel pool. */
  ghost predicate Short(p: Pages, pf: PoolFlag, lo: int, hi: int) {
    var tables := |Missing(p, pf, lo, hi)|;
    if pf.PfKernel? then FreeFrames(p.kpool.bits) < hi - lo + tables
    else FreeFrames(p.upool.bits) < hi - lo || FreeFrames(p.kpool.bits) < tables
  }

  /** The pools have given one frame for each of `n` pages and for each of `tables` tables. */
  predicate Counted(p: Pages, p': Pages, pf: PoolFlag, n: int, tables: int) {
    && FreeFrames(p.kpool.bits) == FreeFrames(p'.kpool.bits) + tables + (if pf.PfKernel? then n else 0)
    && FreeFrames(p.upool.bits) == FreeFrames(p'.upool.bits) + if pf.PfKernel? then 0 else n
  }

  /** Only the directory and the place of the window matter. */
  lemma MissingSame(p: Pages, p': Pages, pf: PoolFlag, lo: int, hi: int)
    requires p'.m == p.m && p'.cr3 == p.cr3 && Win(p', pf).start == Win(p, pf).start
    ensures Missing(p', pf, lo, hi) == Missing(p, pf, lo, hi)
  {
    hide Present, Dir;
    assert forall i :: Page(Win(p', pf), i) == Page(Win(p, pf), i);
    forall k
      ensures Under(Win(p', pf), lo, hi, k) <==> Under(Win(p, pf), lo, hi, k)
    {
      if Under(Win(p', pf), lo, hi, k) {
        var i :| lo <= i < hi && Dir(Page(Win(p', pf), i)) == k;
        assert Dir(Page(Win(p, pf), i)) == k;
      }
      if Under(Win(p, pf), lo, hi, k) {
        var i :| lo <= i < hi && Dir(Page(Win(p, pf), i)) == k;
        assert Dir(Page(Win(p', pf), i)) == k;
      }
    }
    hide Under;
  }

  lemma MissingNone(p: Pages, pf: PoolFlag, lo: int)
    ensures Missing(p, pf, lo, lo) == {}
  {
    hide Present, Dir;
  }

  /** With the first page mapped, its entry is missing no more. */
  lemma MissingStep(p: Pages, p': Pages, pf: PoolFlag, lo: int, hi: int)
    requires lo < hi && p'.cr3 == p.cr3 && Win(p', pf) == Win(p, pf) && 0 <= Dir(Page(Win(p, pf), lo)) < 1024
    requires EntriesBut(p, p'.m, Page(Win(p, pf), lo)) && Present(Pde(p'.m, p.cr3, Page(Win(p, pf), lo)))
    ensures var k := Dir(Page(Win(p, pf), lo));
            && Missing(p', pf, lo + 1, hi) == Missing(p, pf, lo, hi) - {k}
            && (k in Missing(p, pf, lo, hi) <==> !Present(Pde(p.m, p.cr3, Page(Win(p, pf), lo))))
  {
    hide Present, Dir, Page;
    var w := Win(p, pf);
    var d := Dir(Page(w, lo));
    assert Under(w, lo, hi, d);
    forall k | k != d
      ensures Under(w, lo + 1, hi, k) <==> Under(w, lo, hi, k)
    {
      if Under(w, lo, hi, k) {
        var i :| lo <= i < hi && Dir(Page(w, i)) == k;
        assert lo + 1 <= i < hi && Dir(Page(w, i)) == k;
      }
    }
    hide Under;
  }

  /** The frames that mapping page `lo` takes, and when there are enough for it. */
  lemma StepCounts(p: Pages, pf: PoolFlag, v: int)
    ensures var tables := if Present(Pde(p.m, p.cr3, v)) then 0 else 1;
            && (Enough(p, pf, v) <==>
                  if pf.PfKernel? then FreeFrames(p.kpool.bits) > tables
                  else FreeFrames(p.upool.bits) > 0 && FreeFrames(p.kpool.bits) >= tables)
            && (Enough(p, pf, v) ==>
                  var p1 := SetPool(p, pf, Palloc(PoolFor(p, pf)).value.0); var t := NewTable(p, pf, v);
                  && (tables == 0 <==> t.None?)
                  && Counted(p, p1.(kpool := if tables == 0 then p1.kpool else Palloc(p1.kpool).value.0), pf, 1,
                             tables))
  {
    hide Palloc, FreeFrames, Present, Pde, LowestRun;
    PallocCounts(PoolFor(p, pf));
    if Palloc(PoolFor(p, pf)).Done? {
      var p1 := SetPool(p, pf, Palloc(PoolFor(p, pf)).value.0);
      PallocCounts(p1.kpool);
      PallocOutcome(p1.kpool);
    }
  }

  /** One turn of the loop: it stops only if frames are short, and what is short stays so. */
  lemma ShortStep(p: Pages, sh: Shape, pf: PoolFlag, lo: nat, top: nat, hi: int)
    requires Agree(p, sh, pf, lo, top) && lo < top && lo < hi
    ensures var v := Page(Win(p, pf), lo); var r := MapStep(p, pf, v);
            && (!r.Done? ==> Short(p, pf, lo, hi))
            && (r.Done? ==>
                  var tables := if Present(Pde(p.m, p.cr3, v)) then 0 else 1;
                  && (Short(r.value, pf, lo + 1, hi) <==> Short(p, pf, lo, hi)) && Counted(p, r.value, pf, 1, tables)
                  && |Missing(p, pf, lo, hi)| == |Missing(r.value, pf, lo + 1, hi)| + tables)
  {
    hide Agree, ViewFor, MapStep, Palloc, FreeFrames, Present, Steady, EntriesBut, Missing, Dir, Page, Enough, NewTable;
    var v := Page(Win(p, pf), lo);
    MapStepKeeps(p, sh, pf, lo, top);
    StepCounts(p, pf, v);
    NextPage(p, sh, pf, lo, top);
    LeavesEntry(p, pf, lo, hi, v);
    if MapStep(p, pf, v).Done? {
      var p' := MapStep(p, pf, v).value;
      EntryThere(p', AfterShape(p, sh, NewTable(p, pf, v)), pf, lo);
      MissingStep(p, p', pf, lo, hi);
      Without(Missing(p, pf, lo, hi), Dir(v));
    }
  }

  lemma LeavesEntry(p: Pages, pf: PoolFlag, lo: int, hi: int, v: int)
    requires lo < hi && v == Page(Win(p, pf), lo) && Addr(v)
    ensures 0 <= Dir(v) < 1024
    ensures !Present(Pde(p.m, p.cr3, v)) ==> Dir(v) in Missing(p, pf, lo, hi) && |Missing(p, pf, lo, hi)| > 0
  {
    assert 0 <= Dir(v) < 1024;
    hide Present, Dir, Page;
    if !Present(Pde(p.m, p.cr3, v)) {
      assert Under(Win(p, pf), lo, hi, Dir(v));
      assert Dir(v) in Missing(p, pf, lo, hi);
    }
  }

  lemma Without(s: set<int>, k: int)
    ensures |s - {k}| == |s| - if k in s then 1 else 0
  {
    if k !in s { assert s - {k} == s; }
  }

  /** A mapped page has its table. */
  lemma EntryThere(p: Pages, sh: Shape, pf: PoolFlag, i: int)
    requires i in ViewFor(p, sh, pf)
    ensures Present(Pde(p.m, p.cr3, Page(Win(p, pf), i)))
  {
    hide Present, Pde, Dir, Page;
  }
}
