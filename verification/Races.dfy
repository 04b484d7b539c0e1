/**
 `get_kernel_pages` takes no lock: what becomes of a request whose search has been overtaken by another request.
 */
module Races {
  import opened Common
  import opened Paging
  import opened Bitmap
  import opened PageModel
  import opened PageSteps
  import opened PageManager

  /** After the search of a request for `m` pages has found the run at `start`, another request has mapped `n` pages
      at `v`.  The run is still free iff the two do not meet.  If they do, the first request stops at the assertion
      of `page_table_add`, at the latest when it comes to page `i`, which both have. */
  lemma PageRace(p: Pages, sh: Shape, p': Pages, sh': Shape, pf: PoolFlag, v: int, n: nat, start: nat, m: nat)
    requires Agreement(p, sh) && Agreement(p', sh') && Got(p, sh, p', sh', pf, v, n) && m > 0
    requires Scan(Win(p, pf).bits, |Win(p, pf).bits| - 1, m) == Found(start) && start + m <= Span(sh, pf)
    ensures var b := Index(Win(p, pf).start, v); var w := Win(p', pf);
            && start + m <= |w.bits|
            && (AllClear(w.bits, start, m) <==> start + m <= b || b + n <= start || n == 0)
            && forall i :: InRange(i, start, m) && InRange(i, b, n) ==>
                 var p2 := SetWin(p', pf, w.(bits := Fill(w.bits, start, m, true)));
                 MapStep(p2, pf, Page(w, i)) == Panic
  {
    hide Agreement, ViewFor, Moved, Scan, MapStep, At, Index;
    var w, w' := Win(p, pf), Win(p', pf);
    var b := Index(w.start, v);
    SpanInside(p, sh, pf);
    ScanFound(w.bits, |w.bits| - 1, m);
    Met(w.bits, b, n, start, m);
    var p2 := SetWin(p', pf, w'.(bits := Fill(w'.bits, start, m, true)));
    forall i | InRange(i, start, m) && InRange(i, b, n)
      ensures MapStep(p2, pf, Page(w', i)) == Panic
    {
      MovedIn(p, sh, p', sh', pf, b, n, i);
      MapStops(p', sh', p2, pf, i);
      assert Page(Win(p2, pf), i) == Page(w', i);
    }
  }

  lemma Met(bits: seq<bool>, b: nat, n: nat, start: nat, m: nat)
    requires b + n <= |bits| && start + m <= |bits| && AllClear(bits, start, m) && m > 0
    ensures AllClear(Fill(bits, b, n, true), start, m) <==> start + m <= b || b + n <= start || n == 0
  {
    var bits' := Fill(bits, b, n, true);
    if !(start + m <= b || b + n <= start || n == 0) {
      var i := if start < b then b else start;
      assert bits'[i];
    }
  }

  lemma MovedIn(p: Pages, sh: Shape, p': Pages, sh': Shape, pf: PoolFlag, start: int, n: int, i: int)
    requires Moved(p, sh, p', sh', pf, start, n, false) && InRange(i, start, n)
    ensures i in ViewFor(p', sh', pf) && Span(sh', pf) == Span(sh, pf)
  {
    hide ViewFor, IsTable, EntriesKept, BeyondKeeps, NewTables, InPool;
  }

  /** After `palloc` of one request has found frame `f`, another has taken it and mapped page `i` to it.  The first
      goes on and maps page `a`: both pages have the frame, and no bookkeeping agrees with that. */
  lemma FrameRace(p: Pages, sh: Shape, pf: PoolFlag, i: nat, a: nat, reserved: set<int>)
    requires Agreement(p, sh) && i in ViewFor(p, sh, pf) && a < Span(sh, pf) && a !in ViewFor(p, sh, pf)
    requires Present(Pde(p.m, p.cr3, Page(Win(p, pf), a)))
    ensures var f := ViewFor(p, sh, pf)[i]; var r := PageTableAdd(p.m, p.cr3, Page(Win(p, pf), a), f, 0);
            && r.Done?
            && var p' := p.(m := r.value);
               && i in ViewFor(p', sh, pf) && a in ViewFor(p', sh, pf)
               && ViewFor(p', sh, pf)[i] == ViewFor(p', sh, pf)[a] == f
               && !Agreement(p', sh.(reserved := reserved))
  {
    hide View, PoolOk, DirOk, BitsOk, DirTaken, Beyond, Geometry, Walk, WindowPage, PageTableAdd, Mapped, Touched, Used,
         InPool;
    var f, v := ViewFor(p, sh, pf)[i], Page(Win(p, pf), a);
    FrameOf(p, sh, pf, i);
    NoneClaimed(p, sh, pf, i);
    MappedPage(p, sh, pf, i, i);
    SpanInside(p, sh, pf);
    PageIsWindowPage(p, pf, a);
    NotInView(p, sh, pf, a);
    MapTranslates(p, sh.reserved, v, f, 0);
    var m' := PageTableAdd(p.m, p.cr3, v, f, 0).value;
    ViewHit(p, m', pf, Span(sh, pf), a, Some(f), None);
    var p' := p.(m := m');
    TwoPages(p', sh.(reserved := reserved), pf, i, a);
  }

  lemma FrameOf(p: Pages, sh: Shape, pf: PoolFlag, i: nat)
    requires Agreement(p, sh) && i in ViewFor(p, sh, pf)
    ensures ViewFor(p, sh, pf)[i] % 4096 == 0 && i < Span(sh, pf)
  {
    hide Geometry, DirOk, BitsOk, DirTaken, Beyond, Walk, Used, InPool, PoolOk;
    InView(p, sh, pf, i);
    FrameOfPage(PoolFor(p, pf), ViewFor(p, sh, pf), sh.reserved, i);
    FrameAligned(p, pf, ViewFor(p, sh, pf)[i]);
  }

  lemma InView(p: Pages, sh: Shape, pf: PoolFlag, i: nat)
    requires i in ViewFor(p, sh, pf)
    ensures i < Span(sh, pf)
  {
    hide Walk;
  }

  lemma NotInView(p: Pages, sh: Shape, pf: PoolFlag, a: nat)
    requires a < Span(sh, pf) && a !in ViewFor(p, sh, pf)
    ensures Walk(p.m, p.cr3, Page(Win(p, pf), a)) == None
  {
    hide Walk;
  }

  lemma TwoPages(p: Pages, sh: Shape, pf: PoolFlag, i: int, a: int)
    requires i in ViewFor(p, sh, pf) && a in ViewFor(p, sh, pf) && i != a
             && ViewFor(p, sh, pf)[i] == ViewFor(p, sh, pf)[a]
    ensures !Agreement(p, sh)
  {
    hide View, Geometry, DirOk, BitsOk, DirTaken, Beyond, Used, InPool;
  }
}
