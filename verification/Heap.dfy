/**
 `sys_malloc` and `sys_free` of `kernel/memory.c` on top of `malloc_page` and `mfree_page`.

 The headers of arenas and the lists threaded through free blocks are kept as values; what is in the
 blocks is left out.
 */
module Heap {
  import opened Common
  import opened Bitmap
  import opened PageModel
  import opened PageSteps
  import FrameCount
  import opened PageManager
  import opened HeapModel
  import opened HeapSteps
  import opened HeapPages

  /** The pages `sys_malloc` asks for. */
  function Need(descs: seq<Desc>, size: nat): (n: nat) {
    if size > 1024 then (size + ARENA + 4095) / 4096
    else if ClassOf(size) < |descs| && descs[ClassOf(size)].free != [] then 0 else 1
  }

  /** When a request for `size` bytes, which needs `n` new pages, comes to NULL and when to a failed assertion. */
  ghost predicate Answered(r: Grant, size: nat, poolSize: nat, n: nat, p: Pages, sh: Shape, pf: PoolFlag) {
    && (r.Null? <==> size == 0 || size >= poolSize || (n > 0 && Refused(p, pf, n)))
    && (r.Halted? <==> 0 < size < poolSize && n > 0 && Stops(p, sh, pf, n))
  }

  /** What the operations change: lists, arenas and pages. */
  datatype Image = Image(descs: seq<Desc>, arenas: map<int, Arena>, p: Pages, sh: Shape)

  /** The first block of list `d` has been handed out. */
  ghost predicate Handed(s: Image, s': Image, d: nat, b: int) {
    var a := Home(b);
    && d < |s.descs| && s.descs[d].free != [] && b == s.descs[d].free[0]
    && s'.descs == s.descs[d := s.descs[d].(free := s.descs[d].free[1..])]
    && a in s.arenas && s.arenas[a].Small? && s.arenas[a].d == d && s.arenas[a].cnt > 0
    && s'.arenas == s.arenas[a := Small(d, s.arenas[a].cnt - 1)]
    && s'.p == s.p && s'.sh == s.sh
  }

  /** A new page at `a` is an arena of class `d`, whose blocks are the list. */
  ghost predicate Cut(s: Image, s': Image, pf: PoolFlag, d: nat, a: int) {
    && d < DESC_CNT && d < |s.descs| && s.descs[d].free == [] && a !in s.arenas
    && s'.descs == s.descs[d := s.descs[d].(free := Blocks(a, d, PerArena(d)))]
    && s'.arenas == s.arenas[a := Small(d, PerArena(d))]
    && Got(s.p, s.sh, s'.p, s'.sh, pf, a, 1)
  }

  /** A small request: from the list of its class, or if that is empty from a new arena. */
  ghost predicate SmallMet(s: Image, s': Image, pf: PoolFlag, size: nat, b: int)
    requires size <= 1024
  {
    var d := ClassOf(size);
    d < |s.descs| &&
    if s.descs[d].free != [] then Handed(s, s', d, b)
    else exists m: Image :: Cut(s, m, pf, d, Home(b)) && Handed(m, s', d, b)
  }

  /** A request of `n` pages: an arena of its own. */
  ghost predicate LargeMet(s: Image, s': Image, pf: PoolFlag, n: nat, v: int) {
    var a := Home(v);
    && v == a + ARENA && a !in s.arenas && s'.arenas == s.arenas[a := Large(n)] && s'.descs == s.descs
    && Got(s.p, s.sh, s'.p, s'.sh, pf, a, n)
  }

  /** A pointer has been given back.  A block is behind the others of its list, or if it was the last of its
      arena, the blocks of the arena have left the list, the others staying in order, and the page is given
      back.  A large arena is given back at once. */
  ghost predicate Returned(s: Image, s': Image, pf: PoolFlag, ptr: int) {
    var a := Home(ptr);
    && s'.sh == s.sh && a in s.arenas
    && match s.arenas[a] {
         case Large(n) =>
           s'.descs == s.descs && s'.arenas == s.arenas - {a} && Gave(s.p, s.sh, s'.p, pf, a, n)
         case Small(d, cnt) =>
           && d < DESC_CNT && d < |s.descs| && cnt < PerArena(d)
           && var list := s.descs[d].free + [ptr];
              if cnt + 1 < PerArena(d) then
                && s'.descs == s.descs[d := s.descs[d].(free := list)]
                && s'.arenas == s.arenas[a := Small(d, cnt + 1)] && s'.p == s.p
              else
                && s'.descs == s.descs[d := s.descs[d].(free := Without(list, BlockSet(a, d, PerArena(d))))]
                && s'.arenas == s.arenas - {a} && Gave(s.p, s.sh, s'.p, pf, a, 1)
       }
  }

  /** `block_desc_init` */
  method BlockDescInit() returns (descs: seq<Desc>)
    ensures DescsOk(descs) && forall d :: 0 <= d < DESC_CNT ==> descs[d].free == []
  {
    descs := [];
    var blockSize, i := 16, 0;
    while i < DESC_CNT
      invariant 0 <= i <= DESC_CNT && |descs| == i && (i < DESC_CNT ==> blockSize == Size(i))
      invariant forall d :: 0 <= d < i ==> descs[d] == Desc(Size(d), PerArena(d), [])
    {
      descs := descs + [Desc(blockSize, (4096 - ARENA) / blockSize, [])];
      blockSize := blockSize * 2 % 0x10000;
      i := i + 1;
    }
  }

  class Heap {
    const pm: PageManager
    const pf: PoolFlag
    const poolSize: nat
    var descs: seq<Desc>
    var arenas: map<int, Arena>
    // The sizes of the requests whose pointers are out, the pages as they would be without the heap, and the
    // state in which the heap began.
    ghost var live: map<int, nat>
    ghost var base: Base
    ghost const p0: Pages
    ghost const sh0: Shape

    /** The heap is valid with the pages in state `p`. */
    ghost predicate ValidIn(p: Pages, sh: Shape, young: int)
      reads this
    {
      && Agreement(p, sh)
      && HeapOk(descs, arenas, live, young)
      && Settled(base, p, sh, pf, arenas)
      && (TablesThere(p0, pf) ==> TablesThere(p, pf) && sh.reserved == base.reserved)
      && (pf.PfKernel? ==> p.kwin.start >= K_HEAP_START)
      && poolSize <= 0xFFFF0000
    }

    ghost predicate ValidBut(young: int)
      reads this, pm
    {
      ValidIn(pm.State(), pm.sh, young)
    }

    ghost predicate Valid()
      reads this, pm
    {
      ValidBut(-1)
    }

    /** What a valid heap says about the pages. */
    lemma ValidParts(p: Pages, sh: Shape, young: int)
      requires ValidIn(p, sh, young)
      ensures Agreement(p, sh) && Settled(base, p, sh, pf, arenas)
      ensures TablesThere(p0, pf) ==> TablesThere(p, pf) && sh.reserved == base.reserved
    {
      hide Agreement, Settled, TablesThere, HeapOk;
    }

    ghost function State(): Image
      reads this, pm
    {
      Image(descs, arenas, pm.State(), pm.sh)
    }

    constructor (pm: PageManager, pf: PoolFlag, poolSize: nat)
      requires (pf.PfKernel? ==> pm.kwin.start >= K_HEAP_START) && poolSize <= 0xFFFF0000
      ensures (Valid() <==> pm.Valid()) && live == map[] && this.pm == pm && this.pf == pf && this.poolSize == poolSize
      ensures p0 == pm.State() && sh0 == pm.sh && base == BaseOf(p0, sh0)
    {
      hide Agreement, Settled, TablesThere, ViewFor;
      var ds := BlockDescInit();
      this.pm, this.pf, this.poolSize, this.descs, this.arenas := pm, pf, poolSize, ds, map[];
      live, p0, sh0, base := map[], pm.State(), pm.sh, BaseOf(pm.State(), pm.sh);
      if pm.Valid() { SettledStart(pm.State(), pm.sh, pf); }
      EmptyOk(ds);
      hide HeapOk;
    }

    /** The search for the size class. */
    method FindClass(size: nat) returns (d: nat)
      requires DescsOk(descs) && size <= 1024
      ensures d == ClassOf(size)
    {
      d := 0;
      while d < DESC_CNT && size > descs[d].blockSize
        invariant 0 <= d <= DESC_CNT && (d > 0 ==> size > Size(d - 1))
      {
        d := d + 1;
      }
    }

    /** The branch of `sys_malloc` for more than 1024 bytes. */
    method MallocLarge(size: nat) returns (r: Grant)
      requires Valid() && 1024 < size < poolSize
      modifies this, pm
      ensures !r.Halted? ==> Valid()
      ensures r.Null? <==> old(Refused(pm.State(), pf, Need(descs, size)))
      ensures r.Null? ==> State() == old(State()) && live == old(live) && base == old(base)
      ensures r.Granted? ==>
                && LargeMet(old(State()), State(), pf, Need(old(descs), size), r.v)
                && r.v !in old(live) && live == old(live)[r.v := size] && base == old(base)
                && Stepped(old(pm.State()), old(pm.sh), pm.State(), pm.sh, pf)
      ensures r.Halted? <==> old(Stops(pm.State(), pm.sh, pf, Need(descs, size)))
    {
      hide Agreement, Settled, HeapOk, Home, TablesThere, Got, Refused, Stops, FrameCount.Missing, FrameCount.Counted,
           Stepped, Confined;
      var n := (size + ARENA + 4095) / 4096;
      ghost var p, sh := pm.State(), pm.sh;
      var g := pm.MallocPage(pf, n);
      if !g.Granted? { return g; }
      var a := g.v;
      OkApart(descs, arenas, live, -1);
      SettledGot(base, p, sh, pm.State(), pm.sh, pf, arenas, a, Large(n));
      GotSpot(p, sh, pm.State(), pm.sh, pf, a, n);
      GotStepped(p, sh, pm.State(), pm.sh, pf, a, n);
      NewLargeKeeps(descs, arenas, live, a, n, size);
      arenas := arenas[a := Large(n)];
      live := live[a + ARENA := size];
      return Granted(a + ARENA);
    }

    /** A new arena for an empty list: the page, and the loop that cuts it into blocks. */
    method NewArena(d: nat) returns (r: Grant)
      requires Valid() && d < DESC_CNT && descs[d].free == []
      modifies this, pm
      ensures r.Granted? ==> ValidBut(r.v) && Cut(old(State()), State(), pf, d, r.v)
      ensures r.Granted? ==> Stepped(old(pm.State()), old(pm.sh), pm.State(), pm.sh, pf)
      ensures r.Null? <==> old(Refused(pm.State(), pf, 1))
      ensures r.Null? ==> Valid() && State() == old(State())
      ensures live == old(live) && base == old(base)
      ensures r.Halted? <==> old(Stops(pm.State(), pm.sh, pf, 1))
    {
      hide Agreement, Settled, HeapOk, Home, TablesThere, Got, Refused, Stops, Blocks, PerArena,
           FrameCount.Missing, FrameCount.Counted, Stepped, Confined;
      ghost var p, sh := pm.State(), pm.sh;
      OkApart(descs, arenas, live, -1);
      var g := pm.MallocPage(pf, 1);
      if !g.Granted? { return g; }
      var a := g.v;
      SettledGot(base, p, sh, pm.State(), pm.sh, pf, arenas, a, Small(d, PerArena(d)));
      GotSpot(p, sh, pm.State(), pm.sh, pf, a, 1);
      GotStepped(p, sh, pm.State(), pm.sh, pf, a, 1);
      NewSmallKeeps(descs, arenas, live, d, a);
      var free, k := descs[d].free, 0;
      BlocksNone(a, d);
      while k < descs[d].perArena
        invariant 0 <= k <= descs[d].perArena && free == Blocks(a, d, k)
        modifies {}
      {
        BlocksMore(a, d, k);
        var b := Block(a, d, k);
        if b in free { return Halted; }
        free := free + [b];
        k := k + 1;
      }
      arenas := arenas[a := Small(d, descs[d].perArena)];
      descs := descs[d := descs[d].(free := free)];
      return Granted(a);
    }

    /** The first block of a list is handed out. */
    method Take(d: nat, size: nat, ghost young: int) returns (b: int)
      requires ValidBut(young) && d < DESC_CNT && descs[d].free != [] && size <= Size(d)
      requires young in arenas ==> Home(descs[d].free[0]) == young
      modifies this
      ensures Valid()
      ensures Handed(old(State()), State(), d, b) && b !in old(live) && live == old(live)[b := size]
              && base == old(base)
    {
      hide Agreement, Settled, HeapOk, Home, Size, TablesThere;
      OkApart(descs, arenas, live, young);
      PopKeeps(descs, arenas, live, young, d, size);
      b := descs[d].free[0];
      var a := Home(b);
      ghost var was := arenas;
      descs := descs[d := descs[d].(free := descs[d].free[1..])];
      arenas := arenas[a := arenas[a].(cnt := arenas[a].cnt - 1)];
      live := live[b := size];
      SettledRecount(base, pm.State(), pm.sh, pf, was, arenas, a);
    }

    /** `sys_malloc`.  NULL changes nothing.  A pointer is new, and holds the request: see `LivePlace` and
        `LiveDisjoint`.  A small request takes the first block of the list of its class, or of a new arena
        when the list is empty; a large one gets its own arena.  It stops at an assertion exactly if the request
        for pages does. */
    method SysMalloc(size: nat) returns (r: Grant)
      requires Valid()
      modifies this, pm
      ensures !r.Halted? ==> Valid()
      ensures Answered(r, size, poolSize, old(Need(descs, size)), old(pm.State()), old(pm.sh), pf)
      ensures r.Null? ==> State() == old(State()) && live == old(live) && base == old(base)
      ensures r.Granted? ==> r.v !in old(live) && live == old(live)[r.v := size] && base == old(base)
      ensures r.Granted? ==> Stepped(old(pm.State()), old(pm.sh), pm.State(), pm.sh, pf)
      ensures r.Granted? && size <= 1024 ==> SmallMet(old(State()), State(), pf, size, r.v)
      ensures r.Granted? && size > 1024 ==> LargeMet(old(State()), State(), pf, old(Need(descs, size)), r.v)
    {
      hide Agreement, Settled, HeapOk, Moved, Home, Refused, Stops, TablesThere, Blocks, PerArena, Got, Stepped;
      SteppedSame(pm.State(), pm.sh, pf);
      OkApart(descs, arenas, live, -1);
      if size == 0 || size >= poolSize {
        return Null;
      }
      if size > 1024 {
        r := MallocLarge(size);
        return;
      }
      var d := FindClass(size);
      ghost var young := -1;
      OkAligned(descs, arenas, live);
      if descs[d].free == [] {
        var g := NewArena(d);
        if !g.Granted? { return g; }
        young := g.v;
        assert Cut(old(State()), State(), pf, d, g.v);
        GotAligned(old(pm.State()), old(pm.sh), pm.State(), pm.sh, pf, g.v, 1);
        FirstBlock(g.v, d);
      }
      var b := Take(d, size, young);
      return Granted(b);
    }

    /** `mfree_page` of the pages of an arena. */
    method ReleaseArena(a: int) returns (ok: bool)
      requires pm.Valid() && Settled(base, pm.State(), pm.sh, pf, arenas) && ArenasApart(arenas) && a in arenas
      modifies pm
      ensures ok && pm.Valid() && pm.sh == old(pm.sh) && SameSpot(old(pm.kwin), pm.kwin)
      ensures Settled(base, pm.State(), pm.sh, pf, arenas - {a})
      ensures Stepped(old(pm.State()), old(pm.sh), pm.State(), pm.sh, pf)
      ensures Gave(old(pm.State()), pm.sh, pm.State(), pf, a, PageCount(arenas[a]))
      ensures old(TablesThere(pm.State(), pf)) ==> TablesThere(pm.State(), pf)
    {
      hide Agreement, Settled, Given, Gave, TablesThere, Covers, Stepped, Confined;
      ghost var p := pm.State();
      SettledReady(base, p, pm.sh, pf, arenas, a);
      PagesPositive(arenas, a);
      ok := pm.MfreePage(pf, a, PageCount(arenas[a]));
      SettledGave(base, p, pm.sh, pm.State(), pf, arenas, a);
      GaveSpot(p, pm.sh, pm.State(), pf, a, PageCount(arenas[a]));
      GaveStepped(p, pm.sh, pm.State(), pf, a, PageCount(arenas[a]));
    }

    /** The loop that takes all blocks of an unused arena off the list. */
    method Unlist(a: int, d: nat) returns (ok: bool)
      requires d < DESC_CNT && HeapOk(descs, arenas, live, a) && a in arenas && arenas[a].Small? && arenas[a].d == d
      requires arenas[a].cnt == PerArena(d)
      modifies `descs
      ensures ok
      ensures descs == old(descs)[d := old(descs)[d].(free := Without(old(descs)[d].free, BlockSet(a, d, PerArena(d))))]
    {
      hide PerArena, Block, Blocks, Without, BlockSet, HeapOk;
      OkApart(descs, arenas, live, a);
      ghost var was := descs[d].free;
      var free, k := descs[d].free, 0;
      UnlistStart(a, d, was);
      OkList(descs, arenas, live, a, d);
      while k < descs[d].perArena
        invariant 0 <= k <= descs[d].perArena && free == Without(was, BlockSet(a, d, k))
        modifies {}
      {
        AllListed(descs, arenas, live, a, k);
        UnlistStep(a, d, k, was);
        var b := Block(a, d, k);
        if b !in free { return false; }
        free := RemoveOne(free, b);
        k := k + 1;
      }
      descs := descs[d := descs[d].(free := free)];
      return true;
    }

    /** `sys_free` of a pointer that is out: no assertion fires, and lists, arenas and pages are as `Returned`
        says. */
    method SysFree(ptr: int) returns (ok: bool)
      requires Valid() && ptr in live
      modifies this, pm
      ensures ok && Valid() && live == old(live) - {ptr} && base == old(base)
      ensures Returned(old(State()), State(), pf, ptr)
      ensures Stepped(old(pm.State()), old(pm.sh), pm.State(), pm.sh, pf)
      ensures old(TablesThere(pm.State(), pf)) ==> TablesThere(pm.State(), pf)
    {
      hide Agreement, Settled, HeapOk, Home, TablesThere, Gave, PerArena, Without, BlockSet, Size, Stepped;
      SteppedSame(pm.State(), pm.sh, pf);
      OkApart(descs, arenas, live, -1);
      var a := Home(ptr);
      LivePlace(descs, arenas, live, ptr);
      SettledAbove(base, pm.State(), pm.sh, pf, arenas, a);
      if pf.PfKernel? && ptr < K_HEAP_START { return false; }
      if arenas[a].Large? {
        FreeLargeKeeps(descs, arenas, live, ptr);
        ok := ReleaseArena(a);
        arenas := arenas - {a};
        live := live - {ptr};
      } else {
        PushKeeps(descs, arenas, live, ptr);
        ghost var was := arenas;
        var d := arenas[a].d;
        descs := descs[d := descs[d].(free := descs[d].free + [ptr])];
        arenas := arenas[a := arenas[a].(cnt := arenas[a].cnt + 1)];
        live := live - {ptr};
        SettledRecount(base, pm.State(), pm.sh, pf, was, arenas, a);
        if arenas[a].cnt == descs[d].perArena {
          OkApart(descs, arenas, live, a);
          DropKeeps(descs, arenas, live, a);
          ok := Unlist(a, d);
          ok := ReleaseArena(a);
          arenas := arenas - {a};
        } else {
          OkApart(descs, arenas, live, a);
          NotUnused(descs, arenas, live, a);
          ok := true;
        }
      }
    }

    /** Others have worked on the pages, and have left those of the heap alone. */
    ghost method Adapt(p: Pages, sh: Shape)
      requires ValidIn(p, sh, -1) && pm.Valid() && Rely(base, p, sh, pm.State(), pm.sh, pf, arenas)
      modifies this`base
      ensures Valid() && base == Rebased(old(base), p, sh, pm.State(), pm.sh)
    {
      hide Agreement, Settled, HeapOk, TablesThere, ViewFor, Owned, IsTable;
      SettledRely(base, p, sh, pm.State(), pm.sh, pf, arenas);
      base := Rebased(base, p, sh, pm.State(), pm.sh);
    }

    /** When every pointer has been given back, in whatever order, there are no arenas, the lists are empty,
        and translations, bitmaps and pools are those of the base: what others have mapped is as they left it,
        all else is as it was when the heap began, but for tables; where no tables were missing then, exactly.
        If nobody else has changed anything, all is as it was when the heap began. */
    lemma AllReturned()
      requires Valid() && live == map[]
      ensures arenas == map[] && forall d :: 0 <= d < DESC_CNT ==> descs[d].free == []
      ensures ViewFor(pm.State(), pm.sh, PfKernel) == base.kview && ViewFor(pm.State(), pm.sh, PfUser) == base.uview
      ensures Restored(base, pm.State(), pm.sh)
      ensures TablesThere(p0, pf) ==> pm.kpool == base.kpool && pm.upool == base.upool
      ensures base == BaseOf(p0, sh0) ==>
                && ViewFor(pm.State(), pm.sh, PfKernel) == ViewFor(p0, sh0, PfKernel)
                && ViewFor(pm.State(), pm.sh, PfUser) == ViewFor(p0, sh0, PfUser)
                && pm.kwin == p0.kwin && pm.uwin == p0.uwin
                && (TablesThere(p0, pf) ==> pm.kpool == p0.kpool && pm.upool == p0.upool)
    {
      hide Agreement, Settled, HeapOk, TablesThere, PoolRestored, ViewFor, IsTable;
      NothingLive(descs, arenas, live);
      SettledEnd(base, pm.State(), pm.sh, pf);
    }

    /** Freeing every pointer that is out, in any order, gets there. */
    method FreeAll(order: seq<int>)
      requires Valid() && NoDup(order) && forall p :: p in live <==> p in order
      modifies this, pm
      ensures base == old(base)
      ensures Valid() && live == map[] && arenas == map[] && forall d :: 0 <= d < DESC_CNT ==> descs[d].free == []
      ensures ViewFor(pm.State(), pm.sh, PfKernel) == base.kview && ViewFor(pm.State(), pm.sh, PfUser) == base.uview
      ensures Restored(base, pm.State(), pm.sh)
      ensures TablesThere(p0, pf) ==> pm.kpool == base.kpool && pm.upool == base.upool
      ensures base == BaseOf(p0, sh0) ==>
                && ViewFor(pm.State(), pm.sh, PfKernel) == ViewFor(p0, sh0, PfKernel)
                && ViewFor(pm.State(), pm.sh, PfUser) == ViewFor(p0, sh0, PfUser)
                && pm.kwin == p0.kwin && pm.uwin == p0.uwin
                && (TablesThere(p0, pf) ==> pm.kpool == p0.kpool && pm.upool == p0.upool)
    {
      hide Agreement, Settled, HeapOk, Restored, Home, ViewFor, TablesThere, Gave, PerArena, Without, BlockSet, Stepped;
      var i := 0;
      while i < |order|
        invariant 0 <= i <= |order| && Valid() && base == old(base)
        invariant forall p :: p in live <==> p in order[i..]
      {
        NotLater(order[i..]);
        assert order[i..][1..] == order[i + 1..];
        assert order[i..] == [order[i]] + order[i + 1..];
        var ptr := order[i];
        assert ptr == order[i..][0] && ptr in order[i..];
        var ok := SysFree(ptr);
        i := i + 1;
      }
      NoKeys(live);
      AllReturned();
    }
  }

  lemma GotSpot(p: Pages, sh: Shape, p': Pages, sh': Shape, pf: PoolFlag, v: int, n: nat)
    requires Got(p, sh, p', sh', pf, v, n)
    ensures SameSpot(p.kwin, p'.kwin)
  {
    hide ViewFor, Fill, AllClear, Scan, At, Index, EntriesKept, BeyondKeeps, IsTable;
  }

  lemma GaveSpot(p: Pages, sh: Shape, p': Pages, pf: PoolFlag, v: int, n: nat)
    requires Gave(p, sh, p', pf, v, n)
    ensures SameSpot(p.kwin, p'.kwin)
  {
    hide ViewFor, Fill, At, Index, EntriesKept, BeyondKeeps, IsTable;
  }

  lemma NoKeys(m: map<int, nat>)
    requires forall k :: k !in m
    ensures m == map[]
  {
    forall k | k in m ensures false {}
  }

  lemma PagesPositive(arenas: map<int, Arena>, a: int)
    requires ArenasApart(arenas) && a in arenas
    ensures PageCount(arenas[a]) > 0
  {
    hide Covers;
  }

  lemma OkList(descs: seq<Desc>, arenas: map<int, Arena>, live: map<int, nat>, young: int, d: nat)
    requires HeapOk(descs, arenas, live, young) && d < DESC_CNT
    ensures NoDup(descs[d].free)
  {
    hide CountOk, LiveOk, ArenasApart, NoDup;
    assert ListOk(arenas, live, d, descs[d].free);
  }

  lemma UnlistStart(a: int, d: nat, q: seq<int>)
    requires d < DESC_CNT
    ensures Without(q, BlockSet(a, d, 0)) == q
  {
    assert BlockSet(a, d, 0) == {};
    WithoutNone(q);
  }

  lemma UnlistStep(a: int, d: nat, k: nat, q: seq<int>)
    requires d < DESC_CNT && NoDup(q) && Block(a, d, k) in q
    ensures Block(a, d, k) in Without(q, BlockSet(a, d, k))
    ensures RemoveOne(Without(q, BlockSet(a, d, k)), Block(a, d, k)) == Without(q, BlockSet(a, d, k + 1))
  {
    hide Block, Without, RemoveOne, NoDup;
    BlocksMore(a, d, k);
    WithoutIn(q, BlockSet(a, d, k), Block(a, d, k));
    RemoveMore(q, BlockSet(a, d, k), Block(a, d, k));
    assert BlockSet(a, d, k + 1) == BlockSet(a, d, k) + {Block(a, d, k)};
  }

  lemma OkAligned(descs: seq<Desc>, arenas: map<int, Arena>, live: map<int, nat>)
    requires HeapOk(descs, arenas, live, -1)
    ensures -1 !in arenas
  {
    hide CountOk, ListOk, LiveOk, DescsOk;
  }

  lemma GotAligned(p: Pages, sh: Shape, p': Pages, sh': Shape, pf: PoolFlag, v: int, n: nat)
    requires Agreement(p, sh) && Got(p, sh, p', sh', pf, v, n)
    ensures v % 4096 == 0
  {
    hide Agreement, ViewFor, Fill, AllClear, Moved, At;
    WindowAligned(p, sh, pf);
    AtAligned(Win(p, pf).start, Index(Win(p, pf).start, v));
  }

  lemma FirstBlock(a: int, d: nat)
    requires a % 4096 == 0 && d < DESC_CNT
    ensures Blocks(a, d, PerArena(d)) != [] && Home(Blocks(a, d, PerArena(d))[0]) == a
  {
    BlocksAt(a, d, PerArena(d), 0);
    HomeOfBlock(a, d, 0);
  }

  lemma BlocksNone(a: int, d: nat)
    requires d < DESC_CNT
    ensures Blocks(a, d, 0) == []
  {
  }

  lemma BlocksMore(a: int, d: nat, k: nat)
    requires d < DESC_CNT
    ensures Blocks(a, d, k + 1) == Blocks(a, d, k) + [Block(a, d, k)] && Block(a, d, k) !in Blocks(a, d, k)
  {
    hide Block;
    BlocksIn(a, d, k, Block(a, d, k));
    forall j | 0 <= j < k
      ensures Block(a, d, j) != Block(a, d, k)
    {
      BlocksApart(a, d, j, k);
    }
    hide Blocks;
  }

  lemma EmptyOk(descs: seq<Desc>)
    requires DescsOk(descs) && forall d :: 0 <= d < DESC_CNT ==> descs[d].free == []
    ensures HeapOk(descs, map[], map[], -1)
  {
    hide Size, PerArena, Block, Covers;
  }

  lemma OkApart(descs: seq<Desc>, arenas: map<int, Arena>, live: map<int, nat>, young: int)
    requires HeapOk(descs, arenas, live, young)
    ensures ArenasApart(arenas) && DescsOk(descs)
  {
    hide ArenasApart, CountOk, ListOk, LiveOk, DescsOk;
  }
}
