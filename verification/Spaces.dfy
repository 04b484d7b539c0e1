/**
 Address spaces that share the kernel half: each has a directory and a window of user addresses of its own, and
 takes its turn as the one in use (`userprog/process.c`).
 */
module Spaces {
  import opened Common
  import opened Paging
  import opened Bitmap
  import opened PageModel
  import opened PageSteps
  import opened FrameCount
  import opened PageManager
  import opened Process

  /** What the kernel keeps of an address space that is not in use. */
  datatype Space = Space(cr3: int, uwin: Window, uspan: nat)

  function Current(p: Pages, sh: Shape): Space {
    Space(p.cr3, p.uwin, sh.uspan)
  }

  /** The pages with `t` in use. */
  function PagesOf(p: Pages, t: Space): Pages {
    p.(cr3 := t.cr3, uwin := t.uwin)
  }

  ghost function UserView(m: Mem, t: Space): map<int, int> {
    View(m, t.cr3, t.uwin, t.uspan)
  }

  function Frames(view: map<int, int>): set<int> {
    set i | i in view :: view[i]
  }

  /** With `t` in use, the frames of its pages are not set aside, but those of the space that was in use are. */
  ghost function ShapeOf(p: Pages, sh: Shape, t: Space): Shape {
    Shape(sh.kspan, t.uspan, sh.reserved - Frames(UserView(p.m, t)) + Frames(ViewFor(p, sh, PfUser)))
  }

  /** The tables of the kernel half are all there. */
  ghost predicate FullKernel(m: Mem, cr3: int) {
    forall k :: 768 <= k < 1023 ==> Present(Entry(m, cr3, k))
  }

  ghost predicate Shared(m: Mem, a: int, b: int) {
    forall k :: 768 <= k < 1023 ==> Entry(m, a, k) == Entry(m, b, k)
  }

  /** No table of a user page of `s` is directory `d`, which is its own last table, or a table of it. */
  ghost predicate Private(m: Mem, s: Space, d: int) {
    forall k :: Under(s.uwin, 0, s.uspan, k) && Present(Entry(m, s.cr3, k)) ==>
      NotTable(m, d, Base(Entry(m, s.cr3, k)))
  }

  /** Two address spaces share the kernel half and nothing else. */
  ghost predicate Apart(m: Mem, s: Space, t: Space) {
    && Shared(m, s.cr3, t.cr3)
    && NotTable(m, t.cr3, s.cr3) && NotTable(m, s.cr3, t.cr3)
    && Private(m, s, t.cr3) && Private(m, t, s.cr3)
  }

  /** No table lies in the user pool. */
  ghost predicate LowTables(p: Pages) {
    forall k :: 0 <= k < 1023 && Present(Entry(p.m, p.cr3, k)) ==> !InPool(p.upool, Base(Entry(p.m, p.cr3, k)))
  }

  /** No table of a user page is one of the kernel half. */
  ghost predicate Halves(m: Mem, s: Space) {
    forall k, j :: Under(s.uwin, 0, s.uspan, k) && Present(Entry(m, s.cr3, k)) && 768 <= j < 1023 ==>
      Base(Entry(m, s.cr3, k)) != Base(Entry(m, s.cr3, j))
  }

  /** The kernel half of the address space in use is complete, begins behind the user window, and shares no table
      with the user half. */
  ghost predicate Tidy(p: Pages, sh: Shape) {
    KernelBehind(p, sh) && FullKernel(p.m, p.cr3) && LowTables(p) && Halves(p.m, Current(p, sh))
  }

  /** `t`, which is not in use, is in agreement, and apart from the space in use. */
  ghost predicate Neighbour(p: Pages, sh: Shape, t: Space) {
    && Agreement(PagesOf(p, t), ShapeOf(p, sh, t)) && Tidy(PagesOf(p, t), ShapeOf(p, sh, t))
    && Apart(p.m, Current(p, sh), t) && Frames(UserView(p.m, t)) <= sh.reserved
  }

  // ---------------------------------------------------------------------------------------
  // Frames
  // ---------------------------------------------------------------------------------------

  lemma FramesUsed(view: map<int, int>, f: int)
    ensures f in Frames(view) <==> Used(view, f)
  {
    if f in Frames(view) {
      var i :| i in view && view[i] == f;
      assert Used(view, f);
    }
  }

  /** The frames of mapped user pages are in the user pool and not set aside. */
  lemma FramesOf(p: Pages, sh: Shape, f: int)
    requires Agreement(p, sh) && f in Frames(ViewFor(p, sh, PfUser))
    ensures InPool(p.upool, f) && f !in sh.reserved && !InPool(p.kpool, f)
  {
    hide View, Geometry, DirOk, DirTaken, BitsOk, Beyond, InPool;
    var i :| i in ViewFor(p, sh, PfUser) && ViewFor(p, sh, PfUser)[i] == f;
    hide PoolOk;
    if InPool(p.kpool, f) { PoolsApart(p, f); }
  }

  /** A frame of the kernel pool is set aside for `t` exactly if it is for the space in use. */
  lemma KernelFrames(p: Pages, sh: Shape, t: Space, f: int)
    requires Agreement(p, sh) && Neighbour(p, sh, t) && !InPool(p.upool, f)
    ensures f in ShapeOf(p, sh, t).reserved <==> f in sh.reserved
  {
    hide Agreement, View, ViewFor, UserView, InPool, Tidy, Apart, Frames;
    var pt, sht := PagesOf(p, t), ShapeOf(p, sh, t);
    if f in Frames(ViewFor(p, sh, PfUser)) { FramesOf(p, sh, f); }
    if f in Frames(UserView(p.m, t)) { ViewOf(p, sh, t); FramesOf(pt, sht, f); }
  }

  lemma CurrentOf(p: Pages, sh: Shape, t: Space)
    ensures Current(PagesOf(p, t), ShapeOf(p, sh, t)) == t
  {
    hide Frames, UserView, ViewFor;
  }

  lemma ViewOf(p: Pages, sh: Shape, t: Space)
    ensures ViewFor(PagesOf(p, t), ShapeOf(p, sh, t), PfUser) == UserView(p.m, t)
  {
    hide View, Frames;
  }

  // ---------------------------------------------------------------------------------------
  // A step of the space in use, as the others see it
  // ---------------------------------------------------------------------------------------

  /** The space in use has worked on the pages of window `pf`, and if it has unmapped kernel pages, not that of
      directory `t`. */
  ghost predicate Beside(p: Pages, sh: Shape, p': Pages, sh': Shape, pf: PoolFlag, t: Space) {
    && Agreement(p, sh) && Agreement(p', sh') && Tidy(p, sh) && Neighbour(p, sh, t) && Stepped(p, sh, p', sh', pf)
    && (Used(ViewFor(p, sh, PfKernel), t.cr3) ==> Used(ViewFor(p', sh', PfKernel), t.cr3))
  }

  /** In the kernel half two spaces see the same. */
  lemma SameWalk(m: Mem, a: int, b: int, w: int)
    requires Shared(m, a, b) && 768 <= Dir(w) < 1023
    ensures Walk(m, a, w) == Walk(m, b, w)
  {
    hide Dir, Tab, Off, Base, Present;
  }

  lemma SameKernel(m: Mem, a: int, b: int, p: Pages, n: nat)
    requires Shared(m, a, b) && Geometry(p) && n <= |p.kwin.bits|
    ensures View(m, a, p.kwin, n) == View(m, b, p.kwin, n)
    ensures n < |p.kwin.bits| ==> PageModel.Beyond(m, a, p.kwin, n) == PageModel.Beyond(m, b, p.kwin, n)
  {
    forall i | 0 <= i < |p.kwin.bits|
      ensures Walk(m, a, Page(p.kwin, i)) == Walk(m, b, Page(p.kwin, i))
    {
      KernelPage(p, i);
      SameWalk(m, a, b, Page(p.kwin, i));
    }
    hide Walk, Shared, Geometry;
  }

  lemma KernelViewOf(p: Pages, sh: Shape, t: Space)
    requires Agreement(p, sh) && Shared(p.m, p.cr3, t.cr3)
    ensures ViewFor(PagesOf(p, t), ShapeOf(p, sh, t), PfKernel) == ViewFor(p, sh, PfKernel)
  {
    hide View, DirOk, PoolOk, BitsOk, DirTaken, PageModel.Beyond, Frames, UserView, Shared, Geometry;
    SpanInside(p, sh, PfKernel);
    SameKernel(p.m, p.cr3, t.cr3, p, sh.kspan);
  }

  /** A table that the space in use has just made is not one of `t`. */
  lemma NewForeign(p: Pages, sh: Shape, p': Pages, sh': Shape, pf: PoolFlag, t: Space, k: int)
    requires Beside(p, sh, p', sh', pf, t) && 0 <= k < 1023
    requires Present(Entry(p'.m, p.cr3, k)) && !Present(Entry(p.m, p.cr3, k))
    ensures NotTable(p.m, t.cr3, Base(Entry(p'.m, p.cr3, k)))
  {
    hide Agreement, View, ViewFor, UserView, InPool, Tidy, Apart, Frames, Base, Present, EntriesKept, Confined, IsTable,
         BeyondKeeps, Used;
    var f := Base(Entry(p'.m, p.cr3, k));
    assert f in sh'.reserved && f !in sh.reserved && InPool(p'.kpool, f) && p'.cr3 == p.cr3;
    NewFrame(p, sh, p', sh', f);
    KernelFrames(p, sh, t, f);
    assert Apart(p.m, Current(p, sh), t);
    SharedOf(p.m, Current(p, sh), t);
    KernelViewOf(p, sh, t);
    UsedNotReserved(p', sh', f);
    FreshForeign(PagesOf(p, t), ShapeOf(p, sh, t), f);
  }

  lemma SharedOf(m: Mem, s: Space, t: Space)
    requires Apart(m, s, t)
    ensures Shared(m, s.cr3, t.cr3)
  {
  }

  lemma NewFrame(p: Pages, sh: Shape, p': Pages, sh': Shape, f: int)
    requires Agreement(p, sh) && SamePlace(p.kpool, p'.kpool) && InPool(p'.kpool, f)
    ensures InPool(p.kpool, f) && !InPool(p.upool, f)
  {
    hide View, DirOk, PoolOk, BitsOk, DirTaken, PageModel.Beyond;
    PoolsApart(p, f);
  }

  lemma UsedNotReserved(p: Pages, sh: Shape, f: int)
    requires Agreement(p, sh) && f in sh.reserved
    ensures !Used(ViewFor(p, sh, PfKernel), f)
  {
    hide View, Geometry, DirOk, BitsOk, DirTaken, PageModel.Beyond, InPool;
  }

  /** A frame of the kernel pool that is in use for nothing is not a table of the space. */
  lemma FreshForeign(p: Pages, sh: Shape, f: int)
    requires Agreement(p, sh) && InPool(p.kpool, f) && f !in sh.reserved
    requires f == p.cr3 ==> !Used(ViewFor(p, sh, PfKernel), f)
    ensures NotTable(p.m, p.cr3, f)
  {
    hide View, Geometry, PoolOk, BitsOk, PageModel.Beyond, InPool, Used, TablesApart, NotTable;
    if f == p.cr3 { FreeNotDirectory(p, ViewFor(p, sh, PfKernel), sh.reserved, f); }
    FreeNotTable(p, sh.reserved, f);
  }

  /** Words of one frame. */
  lemma SameFrame(b: int, o: int, f: int)
    requires b % 4096 == 0 && f % 4096 == 0 && 0 <= o < 1024 && f <= b + 4 * o < f + 4096
    ensures b == f
  {
    if b != f { OutsideFrame(b, o, f); }
  }

  /** A frame that is neither the directory in use nor a table under window `pf` is not written to. */
  lemma FrameKept(p: Pages, sh: Shape, p': Pages, sh': Shape, pf: PoolFlag, t: Space, b: int, o: int)
    requires Beside(p, sh, p', sh', pf, t) && b % 4096 == 0 && 0 <= o < 1024 && b != p.cr3 && !NotTable(p.m, t.cr3, b)
    requires forall k :: Under(Win(p, pf), 0, Span(sh, pf), k) && Present(Entry(p.m, p.cr3, k)) ==>
               Base(Entry(p.m, p.cr3, k)) != b
    ensures Word(p'.m, b + 4 * o) == Word(p.m, b + 4 * o)
  {
    hide Agreement, ViewFor, Tidy, Neighbour, Base, Present, IsTable, BeyondKeeps, Used, Under, NotTable, NewTables,
         Word;
    if Word(p'.m, b + 4 * o) != Word(p.m, b + 4 * o) {
      var k :| Under(Win(p, pf), 0, Span(sh, pf), k) && Touches(p'.m, p'.cr3, k, b + 4 * o);
      UnderIndex(p, sh, pf);
      DirAligned(p, sh);
      if b + 4 * o == p.cr3 + 4 * k {
        Paging.Apart(b, o, p.cr3, k);
      } else {
        BaseAligned(Entry(p'.m, p.cr3, k));
        SameFrame(b, o, Base(Entry(p'.m, p.cr3, k)));
        if !Present(Entry(p.m, p.cr3, k)) { NewForeign(p, sh, p', sh', pf, t, k); }
      }
    }
  }

  lemma DirAligned(p: Pages, sh: Shape)
    requires Agreement(p, sh)
    ensures p.cr3 % 4096 == 0 && SelfMapped(p.m, p.cr3)
  {
    hide View, PoolOk, BitsOk, DirTaken, PageModel.Beyond, TablesApart, TablesKept, SelfMapped;
  }

  /** The directory of `t` is as before. */
  lemma DirKept(p: Pages, sh: Shape, p': Pages, sh': Shape, pf: PoolFlag, t: Space)
    requires Beside(p, sh, p', sh', pf, t)
    ensures forall k :: 0 <= k < 1024 ==> Entry(p'.m, t.cr3, k) == Entry(p.m, t.cr3, k)
  {
    hide Agreement, ViewFor, Tidy, Base, Present, Used, Under, Stepped, Shared, Private;
    DirAligned(PagesOf(p, t), ShapeOf(p, sh, t));
    SelfTable(p.m, t.cr3);
    DirAligned(p, sh);
    SelfTable(p.m, p.cr3);
    assert t.cr3 != p.cr3;
    UnderIndex(p, sh, pf);
    forall k | 0 <= k < 1024
      ensures Entry(p'.m, t.cr3, k) == Entry(p.m, t.cr3, k)
    {
      FrameKept(p, sh, p', sh', pf, t, t.cr3, k);
    }
  }

  lemma SelfTable(m: Mem, d: int)
    requires SelfMapped(m, d)
    ensures !NotTable(m, d, d)
  {
    hide Present, Base;
  }

  /** The user pages of `t` translate as before. */
  lemma UserKept(p: Pages, sh: Shape, p': Pages, sh': Shape, pf: PoolFlag, t: Space, i: nat)
    requires Beside(p, sh, p', sh', pf, t) && i < t.uspan
    ensures Walk(p'.m, t.cr3, Page(t.uwin, i)) == Walk(p.m, t.cr3, Page(t.uwin, i))
  {
    hide Agreement, ViewFor, Tidy, Base, Present, Used, Stepped, Shared, Page, Dir, Tab, Off, NotTable, Private;
    var v := Page(t.uwin, i);
    DirKept(p, sh, p', sh', pf, t);
    UserIndex(p, sh, t, i);
    if Present(Pde(p.m, t.cr3, v)) {
      var b := Base(Pde(p.m, t.cr3, v));
      assert Under(t.uwin, 0, t.uspan, Dir(v));
      hide Under;
      BaseAligned(Pde(p.m, t.cr3, v));
      TableOf(p.m, t.cr3, Dir(v));
      OtherTables(p, sh, pf, t, v);
      hide Neighbour;
      FrameKept(p, sh, p', sh', pf, t, b, Tab(v));
    }
  }

  lemma UserIndex(p: Pages, sh: Shape, t: Space, i: nat)
    requires Neighbour(p, sh, t) && i < t.uspan
    ensures var v := Page(t.uwin, i); 0 <= Dir(v) < 1023 && 0 <= Tab(v) < 1024
  {
    hide View, DirOk, PoolOk, BitsOk, DirTaken, PageModel.Beyond, Geometry, WindowPage, Tidy, Apart, Frames;
    var pt := PagesOf(p, t);
    SpanInside(pt, ShapeOf(p, sh, t), PfUser);
    PageIsWindowPage(pt, PfUser, i);
    WindowIndices(pt, Page(t.uwin, i));
  }

  lemma TableOf(m: Mem, d: int, k: int)
    requires 0 <= k < 1024 && Present(Entry(m, d, k))
    ensures !NotTable(m, d, Base(Entry(m, d, k)))
  {
    hide Present, Base;
  }

  /** The table of a user page of `t` is no table under a window of the space in use. */
  lemma OtherTables(p: Pages, sh: Shape, pf: PoolFlag, t: Space, v: int)
    requires Agreement(p, sh) && Neighbour(p, sh, t) && Present(Pde(p.m, t.cr3, v))
    requires 0 <= Dir(v) < 1023 && Under(t.uwin, 0, t.uspan, Dir(v))
    ensures Base(Pde(p.m, t.cr3, v)) != p.cr3
    ensures forall k :: Under(Win(p, pf), 0, Span(sh, pf), k) && Present(Entry(p.m, p.cr3, k)) ==>
              Base(Entry(p.m, p.cr3, k)) != Base(Pde(p.m, t.cr3, v))
  {
    hide Agreement, ViewFor, UserView, Tidy, Base, Present, Shared, Under, Dir, Frames;
    UnderIndex(p, sh, pf);
    assert NotTable(p.m, p.cr3, Base(Entry(p.m, t.cr3, Dir(v))));
  }

  // ---------------------------------------------------------------------------------------
  // The agreement of the others goes on
  // ---------------------------------------------------------------------------------------

  lemma UserViewKept(p: Pages, sh: Shape, p': Pages, sh': Shape, pf: PoolFlag, t: Space)
    requires Beside(p, sh, p', sh', pf, t)
    ensures UserView(p'.m, t) == UserView(p.m, t)
  {
    hide Beside, Walk, Page;
    forall i: nat | i < t.uspan
      ensures Walk(p'.m, t.cr3, Page(t.uwin, i)) == Walk(p.m, t.cr3, Page(t.uwin, i))
    {
      UserKept(p, sh, p', sh', pf, t, i);
    }
  }

  lemma SharedKept(p: Pages, sh: Shape, p': Pages, sh': Shape, pf: PoolFlag, t: Space)
    requires Beside(p, sh, p', sh', pf, t)
    ensures Shared(p'.m, p'.cr3, t.cr3) && FullKernel(p'.m, p'.cr3) && FullKernel(p'.m, t.cr3)
  {
    DirKept(p, sh, p', sh', pf, t);
    hide Agreement, ViewFor, UserView, KernelBehind, LowTables, Present, Confined, IsTable, BeyondKeeps, Used, Frames,
         NewTables, NotTable, Private, Entry;
  }

  /** The tables of the space in use stay foreign to `t`. */
  lemma OwnPrivate(p: Pages, sh: Shape, p': Pages, sh': Shape, pf: PoolFlag, t: Space)
    requires Beside(p, sh, p', sh', pf, t)
    ensures Private(p'.m, Current(p', sh'), t.cr3) && NotTable(p'.m, t.cr3, p'.cr3)
  {
    hide Agreement, ViewFor, UserView, Tidy, Base, Present, Used, Shared, Frames, Confined, IsTable, BeyondKeeps,
         InPool, NewTables, Under, Entry;
    DirKept(p, sh, p', sh', pf, t);
    UnderSame(p.uwin, p'.uwin, sh.uspan);
    UnderIndex(p', sh', PfUser);
    forall k | Under(p'.uwin, 0, sh'.uspan, k) && Present(Entry(p'.m, p.cr3, k))
      ensures NotTable(p'.m, t.cr3, Base(Entry(p'.m, p.cr3, k)))
    {
      assert Under(Win(p', PfUser), 0, Span(sh', PfUser), k);
      if !Present(Entry(p.m, p.cr3, k)) {
        NewForeign(p, sh, p', sh', pf, t, k);
      } else {
        assert Under(Current(p, sh).uwin, 0, Current(p, sh).uspan, k);
      }
    }
  }

  /** The tables of `t` stay foreign to the space in use. */
  lemma TheirPrivate(p: Pages, sh: Shape, p': Pages, sh': Shape, pf: PoolFlag, t: Space)
    requires Beside(p, sh, p', sh', pf, t)
    ensures Private(p'.m, t, p'.cr3) && NotTable(p'.m, p'.cr3, t.cr3)
  {
    hide Agreement, ViewFor, UserView, Tidy, Base, Present, Used, Shared, Frames, Confined, IsTable, BeyondKeeps,
         InPool, NewTables, Under, Entry;
    DirKept(p, sh, p', sh', pf, t);
    var pt, sht := PagesOf(p, t), ShapeOf(p, sh, t);
    UnderIndex(pt, sht, PfUser);
    forall k | Under(t.uwin, 0, t.uspan, k) && Present(Entry(p'.m, t.cr3, k))
      ensures NotTable(p'.m, p'.cr3, Base(Entry(p'.m, t.cr3, k)))
    {
      assert Under(Win(pt, PfUser), 0, Span(sht, PfUser), k);
      TableOf(p.m, t.cr3, k);
      StillForeign(p, sh, p', sh', pf, t, Base(Entry(p.m, t.cr3, k)));
    }
    DirAligned(pt, sht);
    SelfTable(p.m, t.cr3);
    StillForeign(p, sh, p', sh', pf, t, t.cr3);
  }

  lemma UnderSame(w: Window, w': Window, n: nat)
    requires w'.start == w.start
    ensures forall k :: Under(w', 0, n, k) <==> Under(w, 0, n, k)
  {
    hide Dir;
    forall k
      ensures Under(w', 0, n, k) <==> Under(w, 0, n, k)
    {
      if Under(w', 0, n, k) {
        var i :| 0 <= i < n && Dir(Page(w', i)) == k;
        assert Dir(Page(w, i)) == k;
      }
      if Under(w, 0, n, k) {
        var i :| 0 <= i < n && Dir(Page(w, i)) == k;
        assert Dir(Page(w', i)) == k;
      }
    }
  }

  /** What belongs to `t` is still foreign to the space in use. */
  lemma StillForeign(p: Pages, sh: Shape, p': Pages, sh': Shape, pf: PoolFlag, t: Space, f: int)
    requires Beside(p, sh, p', sh', pf, t) && NotTable(p.m, p.cr3, f) && !NotTable(p.m, t.cr3, f)
    ensures NotTable(p'.m, p'.cr3, f)
  {
    hide Agreement, ViewFor, Tidy, Neighbour, Base, Present, Used, Confined, IsTable, BeyondKeeps, InPool, NewTables;
    DirAligned(p, sh);
    forall k | 0 <= k < 1024 && Present(Entry(p'.m, p'.cr3, k))
      ensures Base(Entry(p'.m, p'.cr3, k)) != f
    {
      if !Present(Entry(p.m, p.cr3, k)) {
        assert k != 1023;
        NewForeign(p, sh, p', sh', pf, t, k);
      }
    }
  }

  /** User frames of `t` are set aside for the space in use, and not mapped by it. */
  lemma FramesApart(p: Pages, sh: Shape, p': Pages, sh': Shape, pf: PoolFlag, t: Space, f: int)
    requires Beside(p, sh, p', sh', pf, t) && f in Frames(UserView(p.m, t))
    ensures InPool(p'.upool, f) && f in sh'.reserved && f !in Frames(ViewFor(p', sh', PfUser)) && !InPool(p'.kpool, f)
  {
    hide Agreement, View, ViewFor, UserView, Tidy, Apart, Used, Frames, Confined, IsTable, BeyondKeeps, NewTables,
         EntriesKept;
    ViewOf(p, sh, t);
    FramesOf(PagesOf(p, t), ShapeOf(p, sh, t), f);
    if f in Frames(ViewFor(p', sh', PfUser)) { FramesOf(p', sh', f); }
  }

  /** Outside the user pool the same frames are set aside for `t` and for the space in use. */
  lemma ReservedKept(p: Pages, sh: Shape, p': Pages, sh': Shape, pf: PoolFlag, t: Space, f: int)
    requires Beside(p, sh, p', sh', pf, t) && !InPool(p.upool, f)
    ensures f in ShapeOf(p', sh', t).reserved <==> f in sh'.reserved
    ensures f in ShapeOf(p, sh, t).reserved ==> f in sh'.reserved
  {
    hide Agreement, View, ViewFor, UserView, Tidy, Apart, Used, Frames, Confined, IsTable, BeyondKeeps, NewTables,
         EntriesKept;
    UserViewKept(p, sh, p', sh', pf, t);
    SameUpool(p, p', f);
    KernelFrames(p, sh, t, f);
    if f in Frames(ViewFor(p', sh', PfUser)) { FramesOf(p', sh', f); }
    if f in Frames(UserView(p.m, t)) { FramesApart(p, sh, p', sh', pf, t, f); }
  }

  lemma SameUpool(p: Pages, p': Pages, f: int)
    requires SamePlace(p.upool, p'.upool)
    ensures InPool(p'.upool, f) <==> InPool(p.upool, f)
  {
  }

  /** The directory of `t` is in order. */
  lemma DirOkKept(p: Pages, sh: Shape, p': Pages, sh': Shape, pf: PoolFlag, t: Space)
    requires Beside(p, sh, p', sh', pf, t)
    ensures DirOk(PagesOf(p', t), ShapeOf(p', sh', t).reserved) && LowTables(PagesOf(p', t))
    ensures Geometry(PagesOf(p', t))
  {
    hide Agreement, View, ViewFor, UserView, Apart, Used, Frames, Confined, IsTable, BeyondKeeps, NewTables,
         EntriesKept, KernelBehind, FullKernel, Base, Present, InPool, WindowPage, ShapeOf, Dir;
    var pt, pt' := PagesOf(p, t), PagesOf(p', t);
    DirKept(p, sh, p', sh', pf, t);
    DirPart(pt, ShapeOf(p, sh, t));
    GeometryOf(p, p', t);
    forall f ensures InPool(p'.kpool, f) <==> InPool(p.kpool, f) { SamePools(p, p', f); }
    forall f ensures InPool(p'.upool, f) <==> InPool(p.upool, f) { SamePools(p, p', f); }
    forall v ensures WindowPage(pt', v) <==> WindowPage(pt, v) { SamePages(pt, pt', v); }
    forall k | 0 <= k < 1023 && Present(Entry(p'.m, t.cr3, k)) && InPool(p'.kpool, Base(Entry(p'.m, t.cr3, k)))
      ensures Base(Entry(p'.m, t.cr3, k)) in ShapeOf(p', sh', t).reserved
    {
      ReservedKept(p, sh, p', sh', pf, t, Base(Entry(p'.m, t.cr3, k)));
    }
    forall v | WindowPage(pt, v)
      ensures Entry(p'.m, t.cr3, Dir(v)) == Entry(p.m, t.cr3, Dir(v))
    {
      WindowIndices(pt, v);
    }
  }

  lemma DirPart(p: Pages, sh: Shape)
    requires Agreement(p, sh)
    ensures Geometry(p) && DirOk(p, sh.reserved)
  {
    hide View, PoolOk, BitsOk, DirTaken, PageModel.Beyond, DirOk, Geometry;
  }

  lemma GeometryOf(p: Pages, p': Pages, t: Space)
    requires Geometry(PagesOf(p, t)) && SamePlace(p.kpool, p'.kpool) && SamePlace(p.upool, p'.upool)
    requires SameSpot(p.kwin, p'.kwin)
    ensures Geometry(PagesOf(p', t))
  {
  }

  lemma SamePools(p: Pages, p': Pages, f: int)
    requires SamePlace(p.kpool, p'.kpool) && SamePlace(p.upool, p'.upool)
    ensures (InPool(p'.kpool, f) <==> InPool(p.kpool, f)) && (InPool(p'.upool, f) <==> InPool(p.upool, f))
  {
  }

  lemma SamePages(p: Pages, p': Pages, v: int)
    requires SameSpot(p.kwin, p'.kwin) && SameSpot(p.uwin, p'.uwin)
    ensures WindowPage(p', v) <==> WindowPage(p, v)
  {
  }

  // Windows and pools

  lemma BitsPart(p: Pages, sh: Shape, pf: PoolFlag)
    requires Agreement(p, sh)
    ensures WindowOk(p, sh, pf, 0, 0)
  {
    hide View, PoolOk, BitsOk, DirTaken, PageModel.Beyond, DirOk, Geometry;
  }

  lemma PoolPart(p: Pages, sh: Shape, pf: PoolFlag)
    requires Agreement(p, sh)
    ensures PoolOk(PoolFor(p, pf), ViewFor(p, sh, pf), sh.reserved)
    ensures DirTaken(p, ViewFor(p, sh, PfKernel), sh.reserved)
  {
    hide View, PoolOk, BitsOk, DirTaken, PageModel.Beyond, DirOk, Geometry;
  }

  lemma FromParts(p: Pages, sh: Shape)
    requires Geometry(p) && DirOk(p, sh.reserved) && DirTaken(p, ViewFor(p, sh, PfKernel), sh.reserved)
    requires WindowOk(p, sh, PfKernel, 0, 0) && WindowOk(p, sh, PfUser, 0, 0)
    requires PoolOk(p.kpool, ViewFor(p, sh, PfKernel), sh.reserved)
             && PoolOk(p.upool, ViewFor(p, sh, PfUser), sh.reserved)
    ensures Agreement(p, sh)
  {
    hide View, PoolOk, WindowOk, DirTaken, DirOk, Geometry;
  }

  /** The kernel window as `t` sees it. */
  lemma KernelBitsKept(p: Pages, sh: Shape, p': Pages, sh': Shape, pf: PoolFlag, t: Space)
    requires Beside(p, sh, p', sh', pf, t)
    ensures WindowOk(PagesOf(p', t), ShapeOf(p', sh', t), PfKernel, 0, 0)
  {
    SharedKept(p, sh, p', sh', pf, t);
    BitsPart(p', sh', PfKernel);
    KernelViewOf(p', sh', t);
    SpanInside(p', sh', PfKernel);
    DirPart(p', sh');
    SameKernel(p'.m, p'.cr3, t.cr3, p', sh'.kspan);
    hide Beside, View, PageModel.Beyond, Shared, FullKernel, Geometry, DirOk, UserView, Frames, Agreement, BitsOk;
    var pt' := PagesOf(p', t);
    BitsBeyond(p'.kwin, sh'.kspan, ViewFor(p', sh', PfKernel), PageModel.Beyond(p'.m, p'.cr3, p'.kwin, sh'.kspan),
               PageModel.Beyond(p'.m, t.cr3, p'.kwin, sh'.kspan), 0, 0);
  }

  /** The user window of `t`. */
  lemma UserBitsKept(p: Pages, sh: Shape, p': Pages, sh': Shape, pf: PoolFlag, t: Space)
    requires Beside(p, sh, p', sh', pf, t)
    ensures WindowOk(PagesOf(p', t), ShapeOf(p', sh', t), PfUser, 0, 0)
    ensures KernelBehind(PagesOf(p', t), ShapeOf(p', sh', t)) && KernelBehind(p', sh')
  {
    UserViewKept(p, sh, p', sh', pf, t);
    SharedKept(p, sh, p', sh', pf, t);
    ViewOf(p, sh, t);
    ViewOf(p', sh', t);
    hide View, UserView, Frames, Agreement, BitsOk, Shared, FullKernel, LowTables, Apart, Walk, Confined, EntriesKept,
         IsTable, NewTables, BeyondKeeps, Used, Steady;
    BitsPart(PagesOf(p, t), ShapeOf(p, sh, t), PfUser);
    BehindSteady(p, sh, p', sh');
    EndIndex();
    SameWalk(p'.m, p'.cr3, t.cr3, USER_END);
    BitsBeyond(t.uwin, t.uspan, UserView(p.m, t), PageModel.Beyond(p.m, t.cr3, t.uwin, t.uspan),
               PageModel.Beyond(p'.m, t.cr3, t.uwin, t.uspan), 0, 0);
  }

  /** Outside the user pool it does not matter which space is in use. */
  lemma OtherReserved(pool: Pool, view: map<int, int>, reserved: set<int>, reserved': set<int>)
    requires PoolOk(pool, view, reserved)
    requires forall f :: InPool(pool, f) ==> (f in reserved' <==> f in reserved)
    ensures PoolOk(pool, view, reserved')
  {
    forall j | 0 <= j < |pool.bits| ensures InPool(pool, Frame(pool, j)) { FrameInPool(pool, j); }
    hide InPool, Used;
  }

  /** The kernel pool as `t` sees it. */
  lemma KernelPoolKept(p: Pages, sh: Shape, p': Pages, sh': Shape, pf: PoolFlag, t: Space)
    requires Beside(p, sh, p', sh', pf, t)
    ensures PoolOk(p'.kpool, ViewFor(PagesOf(p', t), ShapeOf(p', sh', t), PfKernel), ShapeOf(p', sh', t).reserved)
  {
    hide View, ViewFor, UserView, Frames, Agreement, Shared, FullKernel, Tidy, Neighbour, Confined, EntriesKept,
         IsTable, NewTables, BeyondKeeps, Used, Geometry, DirOk, InPool, ShapeOf, PoolOk, DirTaken;
    SharedKept(p, sh, p', sh', pf, t);
    KernelViewOf(p', sh', t);
    PoolPart(p', sh', PfKernel);
    DirPart(p', sh');
    forall f | InPool(p'.kpool, f)
      ensures f in ShapeOf(p', sh', t).reserved <==> f in sh'.reserved
    {
      PoolsApart(p', f);
      SamePools(p, p', f);
      ReservedKept(p, sh, p', sh', pf, t, f);
    }
    OtherReserved(p'.kpool, ViewFor(p', sh', PfKernel), sh'.reserved, ShapeOf(p', sh', t).reserved);
  }

  /** The directory of `t` is still in use. */
  lemma TakenKept(p: Pages, sh: Shape, p': Pages, sh': Shape, pf: PoolFlag, t: Space)
    requires Beside(p, sh, p', sh', pf, t)
    ensures DirTaken(PagesOf(p', t), ViewFor(PagesOf(p', t), ShapeOf(p', sh', t), PfKernel),
                     ShapeOf(p', sh', t).reserved)
  {
    hide View, ViewFor, UserView, Frames, Agreement, Shared, FullKernel, Tidy, Private, NotTable, Confined, EntriesKept,
         IsTable, NewTables, BeyondKeeps, Used, InPool, ShapeOf, PoolOk;
    SharedKept(p, sh, p', sh', pf, t);
    KernelViewOf(p', sh', t);
    KernelViewOf(p, sh, t);
    PoolPart(PagesOf(p, t), ShapeOf(p, sh, t), PfKernel);
    SamePools(p, p', t.cr3);
    ReservedKept(p, sh, p', sh', pf, t, t.cr3);
  }

  /** The user pool as another space sees it, whose pages were set aside. */
  lemma OtherUser(pool: Pool, view: map<int, int>, reserved: set<int>, view': map<int, int>)
    requires PoolOk(pool, view, reserved)
    requires forall i :: i in view' ==> InPool(pool, view'[i]) && view'[i] in reserved
    requires forall i, j :: i in view' && j in view' && view'[i] == view'[j] ==> i == j
    ensures PoolOk(pool, view', reserved - Frames(view') + Frames(view))
  {
    forall f ensures (f in Frames(view) <==> Used(view, f)) { FramesUsed(view, f); }
    forall f ensures (f in Frames(view') <==> Used(view', f)) { FramesUsed(view', f); }
    forall i | i in view' ensures view'[i] in Frames(view') { InFrames(view', i); }
    forall f | f in Frames(view) ensures f !in reserved { var i :| i in view && view[i] == f; }
    hide InPool, Used, Frames;
  }

  /** The user pool as `t` sees it. */
  lemma UserPoolKept(p: Pages, sh: Shape, p': Pages, sh': Shape, pf: PoolFlag, t: Space)
    requires Beside(p, sh, p', sh', pf, t)
    ensures PoolOk(p'.upool, UserView(p'.m, t), ShapeOf(p', sh', t).reserved)
  {
    UserViewKept(p, sh, p', sh', pf, t);
    ViewOf(p, sh, t);
    PoolPart(p', sh', PfUser);
    PoolPart(PagesOf(p, t), ShapeOf(p, sh, t), PfUser);
    hide View, ViewFor, UserView, Frames, Agreement, Used, InPool, Beside;
    var view := UserView(p.m, t);
    forall i | i in view
      ensures InPool(p'.upool, view[i]) && view[i] in sh'.reserved
    {
      InFrames(view, i);
      FramesApart(p, sh, p', sh', pf, t, view[i]);
    }
    OtherUser(p'.upool, ViewFor(p', sh', PfUser), sh'.reserved, view);
  }

  lemma InFrames(view: map<int, int>, i: int)
    requires i in view
    ensures view[i] in Frames(view)
  {
  }

  /** Whatever the space in use maps or unmaps, a space that is not in use stays in agreement and apart. */
  lemma NeighbourKept(p: Pages, sh: Shape, p': Pages, sh': Shape, pf: PoolFlag, t: Space)
    requires Beside(p, sh, p', sh', pf, t)
    ensures Neighbour(p', sh', t) && Tidy(p', sh') && UserView(p'.m, t) == UserView(p.m, t)
  {
    hide View, ViewFor, UserView, Frames, Agreement, Shared, FullKernel, LowTables, Private, Walk, Confined,
         EntriesKept, IsTable, NewTables, BeyondKeeps, Used, Geometry, DirOk, InPool, ShapeOf, WindowOk, PoolOk,
         DirTaken, Beside,
         KernelBehind, NotTable, Halves;
    DirOkKept(p, sh, p', sh', pf, t);
    KernelBitsKept(p, sh, p', sh', pf, t);
    UserBitsKept(p, sh, p', sh', pf, t);
    KernelPoolKept(p, sh, p', sh', pf, t);
    TakenKept(p, sh, p', sh', pf, t);
    TheirHalves(p, sh, p', sh', pf, t);
    UserPoolKept(p, sh, p', sh', pf, t);
    ViewOf(p', sh', t);
    CurrentOf(p', sh', t);
    FromParts(PagesOf(p', t), ShapeOf(p', sh', t));
    UserViewKept(p, sh, p', sh', pf, t);
    SharedKept(p, sh, p', sh', pf, t);
    OwnPrivate(p, sh, p', sh', pf, t);
    TheirPrivate(p, sh, p', sh', pf, t);
    assert Tidy(p', sh') by { OwnTidy(p, sh, p', sh', pf, t); }
    FramesReserved(p, sh, p', sh', pf, t);
  }

  lemma OwnTidy(p: Pages, sh: Shape, p': Pages, sh': Shape, pf: PoolFlag, t: Space)
    requires Beside(p, sh, p', sh', pf, t)
    ensures Tidy(p', sh')
  {
    hide Agreement, ViewFor, Tidy, Neighbour, Steady, Confined, Used;
    TidyKept(p, sh, p', sh');
  }

  lemma FramesReserved(p: Pages, sh: Shape, p': Pages, sh': Shape, pf: PoolFlag, t: Space)
    requires Beside(p, sh, p', sh', pf, t)
    ensures Frames(UserView(p.m, t)) <= sh'.reserved
  {
    hide Frames, UserView, Beside;
    forall f | f in Frames(UserView(p.m, t)) ensures f in sh'.reserved { FramesApart(p, sh, p', sh', pf, t, f); }
  }

  /** The space in use stays tidy. */
  lemma TidyKept(p: Pages, sh: Shape, p': Pages, sh': Shape)
    requires Agreement(p, sh) && Agreement(p', sh') && Tidy(p, sh) && Steady(p, sh, p', sh')
    ensures Tidy(p', sh')
  {
    hide ViewFor, Agreement, LowTables, Halves, KernelBehind, IsTable, BeyondKeeps, NewTables, Present, InPool;
    BehindSteady(p, sh, p', sh');
    LowKept(p, sh, p', sh');
    HalvesKept(p, sh, p', sh');
  }

  lemma LowKept(p: Pages, sh: Shape, p': Pages, sh': Shape)
    requires Agreement(p', sh') && LowTables(p) && Steady(p, sh, p', sh')
    ensures LowTables(p')
  {
    hide View, Agreement, IsTable, BeyondKeeps, InPool, Base, Present;
    DirPart(p', sh');
    hide Geometry, DirOk;
    forall k | 0 <= k < 1023 && Present(Entry(p'.m, p'.cr3, k))
      ensures !InPool(p'.upool, Base(Entry(p'.m, p'.cr3, k)))
    {
      var f := Base(Entry(p'.m, p'.cr3, k));
      SamePools(p, p', f);
      if !Present(Entry(p.m, p.cr3, k)) { PoolsApart(p', f); }
    }
  }

  lemma HalvesKept(p: Pages, sh: Shape, p': Pages, sh': Shape)
    requires Agreement(p, sh) && Agreement(p', sh') && Steady(p, sh, p', sh')
    requires Halves(p.m, Current(p, sh)) && FullKernel(p.m, p.cr3)
    ensures Halves(p'.m, Current(p', sh'))
  {
    hide View, ViewFor, Agreement, IsTable, BeyondKeeps, InPool, Base, Present, Under, Entry;
    UnderSame(p.uwin, p'.uwin, sh.uspan);
    UserUnder(p', sh');
    forall k, j | Under(p'.uwin, 0, sh'.uspan, k) && Present(Entry(p'.m, p'.cr3, k)) && 768 <= j < 1023
      ensures Base(Entry(p'.m, p'.cr3, k)) != Base(Entry(p'.m, p'.cr3, j))
    {
      if !Present(Entry(p.m, p.cr3, k)) {
        KernelTable(p, sh, j, Base(Entry(p'.m, p'.cr3, k)), p');
      } else {
        assert Under(Current(p, sh).uwin, 0, Current(p, sh).uspan, k);
      }
    }
  }

  lemma TheirHalves(p: Pages, sh: Shape, p': Pages, sh': Shape, pf: PoolFlag, t: Space)
    requires Beside(p, sh, p', sh', pf, t)
    ensures Halves(p'.m, t)
  {
    DirKept(p, sh, p', sh', pf, t);
    hide Agreement, View, ViewFor, UserView, Frames, Stepped, Apart, KernelBehind, LowTables, FullKernel, Used, Base,
         Present, Under, Entry;
    CurrentOf(p, sh, t);
    UserUnder(PagesOf(p, t), ShapeOf(p, sh, t));
  }

  /** A frame of the kernel pool that was not set aside is not a table of the kernel half. */
  lemma KernelTable(p: Pages, sh: Shape, j: int, f: int, p': Pages)
    requires Agreement(p, sh) && 768 <= j < 1023 && Present(Entry(p.m, p.cr3, j)) && f !in sh.reserved
    requires InPool(p'.kpool, f) && SamePlace(p.kpool, p'.kpool)
    ensures Base(Entry(p.m, p.cr3, j)) != f
  {
    hide View, Geometry, PoolOk, BitsOk, PageModel.Beyond, DirTaken, TablesApart, Base, Present;
    assert InPool(p.kpool, f);
    hide InPool;
  }

  // ---------------------------------------------------------------------------------------
  // Stores
  // ---------------------------------------------------------------------------------------

  /** Stores in a frame that is not a table of directory `d` change nothing there. */
  lemma ElsewhereEntries(m: Mem, m': Mem, d: int, f: int)
    requires SelfMapped(m, d) && d % 4096 == 0 && f % 4096 == 0 && NotTable(m, d, f) && Elsewhere(m, m', f)
    ensures forall k :: 0 <= k < 1024 ==> Entry(m', d, k) == Entry(m, d, k)
  {
    SelfTable(m, d);
    hide Word, NotTable;
    forall k | 0 <= k < 1024 ensures Entry(m', d, k) == Entry(m, d, k) { OutsideFrame(d, k, f); }
  }

  lemma ElsewhereWalk(m: Mem, m': Mem, d: int, f: int, w: int)
    requires SelfMapped(m, d) && d % 4096 == 0 && f % 4096 == 0 && NotTable(m, d, f) && Elsewhere(m, m', f)
    requires 0 <= Dir(w) < 1024 && 0 <= Tab(w) < 1024
    ensures Walk(m', d, w) == Walk(m, d, w)
  {
    ElsewhereEntries(m, m', d, f);
    hide Word, Base, Present, Dir, Tab, Off;
    if Present(Pde(m, d, w)) {
      BaseAligned(Pde(m, d, w));
      OutsideFrame(Base(Pde(m, d, w)), Tab(w), f);
    }
  }

  lemma StoreWalk(p: Pages, sh: Shape, m': Mem, f: int, pf: PoolFlag, i: nat)
    requires Agreement(p, sh) && f % 4096 == 0 && NotTable(p.m, p.cr3, f) && Elsewhere(p.m, m', f)
    requires i < |Win(p, pf).bits|
    ensures Walk(m', p.cr3, Page(Win(p, pf), i)) == Walk(p.m, p.cr3, Page(Win(p, pf), i))
  {
    hide Agreement, NotTable, Elsewhere, SelfMapped, Geometry, DirOk, Page, Walk, WindowPage, Dir, Tab;
    DirAligned(p, sh);
    DirPart(p, sh);
    PageIsWindowPage(p, pf, i);
    WindowIndices(p, Page(Win(p, pf), i));
    ElsewhereWalk(p.m, m', p.cr3, f, Page(Win(p, pf), i));
  }

  lemma StoreWindow(p: Pages, sh: Shape, m': Mem, f: int, pf: PoolFlag)
    requires Agreement(p, sh) && f % 4096 == 0 && NotTable(p.m, p.cr3, f) && Elsewhere(p.m, m', f)
    ensures ViewFor(p.(m := m'), sh, pf) == ViewFor(p, sh, pf) && WindowOk(p.(m := m'), sh, pf, 0, 0)
  {
    hide Agreement, NotTable, Elsewhere, Page, Walk, BitsOk, WindowPage, Dir, Tab;
    BitsPart(p, sh, pf);
    SpanInside(p, sh, pf);
    forall i: nat | i < |Win(p, pf).bits|
      ensures Walk(m', p.cr3, Page(Win(p, pf), i)) == Walk(p.m, p.cr3, Page(Win(p, pf), i))
    {
      StoreWalk(p, sh, m', f, pf, i);
    }
    assert ViewFor(p.(m := m'), sh, pf) == ViewFor(p, sh, pf);
    hide View;
    var w, n := Win(p, pf), Span(sh, pf);
    BitsBeyond(w, n, ViewFor(p, sh, pf), PageModel.Beyond(p.m, p.cr3, w, n), PageModel.Beyond(m', p.cr3, w, n), 0, 0);
  }

  lemma StoreDir(p: Pages, sh: Shape, m': Mem, f: int)
    requires Agreement(p, sh) && f % 4096 == 0 && NotTable(p.m, p.cr3, f) && Elsewhere(p.m, m', f)
    ensures Geometry(p.(m := m')) && DirOk(p.(m := m'), sh.reserved)
  {
    DirAligned(p, sh);
    DirPart(p, sh);
    ElsewhereEntries(p.m, m', p.cr3, f);
    hide Agreement, NotTable, Elsewhere, Base, Present, InPool, WindowPage, Dir;
    var p' := p.(m := m');
    forall v | WindowPage(p', v)
      ensures WindowPage(p, v) && Entry(m', p.cr3, Dir(v)) == Entry(p.m, p.cr3, Dir(v))
    {
      SamePages(p, p', v);
      WindowIndices(p, v);
    }
  }

  /** Stores outside directory and tables keep the agreement. */
  lemma StoreAgreement(p: Pages, sh: Shape, m': Mem, f: int)
    requires Agreement(p, sh) && f % 4096 == 0 && NotTable(p.m, p.cr3, f) && Elsewhere(p.m, m', f)
    ensures Agreement(p.(m := m'), sh)
    ensures ViewFor(p.(m := m'), sh, PfKernel) == ViewFor(p, sh, PfKernel)
    ensures ViewFor(p.(m := m'), sh, PfUser) == ViewFor(p, sh, PfUser)
  {
    hide Agreement, NotTable, Elsewhere, ViewFor, WindowOk, PoolOk, Geometry, DirOk, InPool, Used;
    StoreWindow(p, sh, m', f, PfKernel);
    StoreWindow(p, sh, m', f, PfUser);
    StoreDir(p, sh, m', f);
    PoolPart(p, sh, PfKernel);
    PoolPart(p, sh, PfUser);
    FromParts(p.(m := m'), sh);
  }

  lemma StoreTidy(p: Pages, sh: Shape, m': Mem, f: int)
    requires Agreement(p, sh) && f % 4096 == 0 && NotTable(p.m, p.cr3, f) && Elsewhere(p.m, m', f) && Tidy(p, sh)
    ensures Tidy(p.(m := m'), sh)
  {
    DirAligned(p, sh);
    ElsewhereEntries(p.m, m', p.cr3, f);
    EndIndex();
    EndTab();
    ElsewhereWalk(p.m, m', p.cr3, f, USER_END);
    UnderIndex(p, sh, PfUser);
    hide Agreement, NotTable, Elsewhere, Base, Present, InPool, Walk, Dir, Tab, Under, Entry;
    forall k | Under(p.uwin, 0, sh.uspan, k) ensures 0 <= k < 1023 {
      assert Under(Win(p, PfUser), 0, Span(sh, PfUser), k);
    }
  }

  lemma EndTab()
    ensures Tab(USER_END) == 0
  {
  }

  /** Two directories whose entries stay are as far apart as before. */
  lemma ApartEntries(m: Mem, m': Mem, s: Space, t: Space)
    requires Apart(m, s, t)
    requires forall k :: 0 <= k < 1024 ==> Entry(m', s.cr3, k) == Entry(m, s.cr3, k)
    requires forall k :: 0 <= k < 1024 ==> Entry(m', t.cr3, k) == Entry(m, t.cr3, k)
    requires forall k :: Under(s.uwin, 0, s.uspan, k) ==> 0 <= k < 1023
    requires forall k :: Under(t.uwin, 0, t.uspan, k) ==> 0 <= k < 1023
    ensures Apart(m', s, t)
  {
    hide Entry, Present, Base, Under;
  }

  lemma UserUnder(p: Pages, sh: Shape)
    requires Agreement(p, sh)
    ensures forall k :: Under(p.uwin, 0, sh.uspan, k) ==> 0 <= k < 1023
  {
    hide Agreement, Under;
    UnderIndex(p, sh, PfUser);
    forall k | Under(p.uwin, 0, sh.uspan, k) ensures 0 <= k < 1023 {
      assert Under(Win(p, PfUser), 0, Span(sh, PfUser), k);
    }
  }

  /** Stores in a frame that is foreign to both spaces leave them neighbours. */
  lemma NeighbourStore(p: Pages, sh: Shape, m': Mem, f: int, t: Space)
    requires Agreement(p, sh) && Neighbour(p, sh, t) && f % 4096 == 0 && Elsewhere(p.m, m', f)
    requires NotTable(p.m, p.cr3, f) && NotTable(p.m, t.cr3, f)
    ensures Neighbour(p.(m := m'), sh, t) && UserView(m', t) == UserView(p.m, t)
  {
    hide Agreement, NotTable, Elsewhere, View, ViewFor, UserView, Frames, Tidy, Apart, Under, Entry, SelfMapped;
    var pt, sht := PagesOf(p, t), ShapeOf(p, sh, t);
    var p' := p.(m := m');
    StoreAgreement(p, sh, m', f);
    StoreAgreement(pt, sht, m', f);
    ViewOf(p, sh, t);
    UserViewOf(pt, sht, m', t);
    assert ShapeOf(p', sh, t) == sht;
    StoreTidy(pt, sht, m', f);
    DirAligned(p, sh);
    DirAligned(pt, sht);
    ElsewhereEntries(p.m, m', p.cr3, f);
    ElsewhereEntries(p.m, m', t.cr3, f);
    UserUnder(p, sh);
    UserUnder(pt, sht);
    ApartEntries(p.m, m', Current(p, sh), t);
  }

  lemma UserViewOf(pt: Pages, sht: Shape, m': Mem, t: Space)
    requires pt.cr3 == t.cr3 && pt.uwin == t.uwin && sht.uspan == t.uspan
    ensures ViewFor(pt.(m := m'), sht, PfUser) == UserView(m', t) && ViewFor(pt, sht, PfUser) == UserView(pt.m, t)
  {
    hide View;
  }
}
