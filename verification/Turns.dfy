/**
 Address spaces come into being, work, and take turns (`create_page_dir` and `page_dir_activate` of
 `userprog/process.c`): all of them stay in agreement with one set of pools and one kernel half.
 */
module Turns {
  import opened Common
  import opened Paging
  import opened Bitmap
  import opened PageModel
  import opened PageSteps
  import opened FrameCount
  import opened PageManager
  import opened Process
  import opened Spaces

  /** The address space in use and all others. */
  ghost predicate World(p: Pages, sh: Shape, ts: seq<Space>) {
    && Agreement(p, sh) && Tidy(p, sh)
    && (forall t :: t in ts ==> Neighbour(p, sh, t))
    && (forall i, j :: 0 <= i < j < |ts| ==> Strangers(p.m, ts[i], ts[j]))
  }

  /** Two spaces that are not in use. */
  ghost predicate Strangers(m: Mem, s: Space, t: Space) {
    Spaces.Apart(m, s, t) && Frames(UserView(m, s)) !! Frames(UserView(m, t))
  }

  // ---------------------------------------------------------------------------------------
  // Work of the space in use
  // ---------------------------------------------------------------------------------------

  /** The space in use has mapped or unmapped pages of window `pf`, but has unmapped no directory: all spaces go on. */
  lemma WorldStep(p: Pages, sh: Shape, p': Pages, sh': Shape, pf: PoolFlag, ts: seq<Space>)
    requires World(p, sh, ts) && Agreement(p', sh') && Stepped(p, sh, p', sh', pf)
    requires forall t :: t in ts && Used(ViewFor(p, sh, PfKernel), t.cr3) ==> Used(ViewFor(p', sh', PfKernel), t.cr3)
    ensures World(p', sh', ts)
  {
    hide Agreement, ViewFor, UserView, Tidy, Neighbour, Spaces.Apart, Steady, Confined, Used, Frames;
    TidyKept(p, sh, p', sh');
    forall t | t in ts
      ensures Neighbour(p', sh', t) && UserView(p'.m, t) == UserView(p.m, t)
      ensures forall k :: 0 <= k < 1024 ==> Entry(p'.m, t.cr3, k) == Entry(p.m, t.cr3, k)
    {
      assert Spaces.Beside(p, sh, p', sh', pf, t);
      NeighbourKept(p, sh, p', sh', pf, t);
      DirKept(p, sh, p', sh', pf, t);
    }
    StrangersKept(p, sh, p'.m, ts);
  }

  lemma StrangersKept(p: Pages, sh: Shape, m': Mem, ts: seq<Space>)
    requires World(p, sh, ts)
    requires forall t :: t in ts ==> UserView(m', t) == UserView(p.m, t)
    requires forall t, k :: t in ts && 0 <= k < 1024 ==> Entry(m', t.cr3, k) == Entry(p.m, t.cr3, k)
    ensures forall i, j :: 0 <= i < j < |ts| ==> Strangers(m', ts[i], ts[j])
  {
    hide Agreement, ViewFor, UserView, Tidy, Neighbour, Spaces.Apart, Frames, Under, Entry;
    forall i, j | 0 <= i < j < |ts|
      ensures Strangers(m', ts[i], ts[j])
    {
      assert Strangers(p.m, ts[i], ts[j]) && ts[i] in ts && ts[j] in ts;
      NeighbourUnder(p, sh, ts[i]);
      NeighbourUnder(p, sh, ts[j]);
      ApartEntries(p.m, m', ts[i], ts[j]);
    }
  }

  lemma NeighbourUnder(p: Pages, sh: Shape, t: Space)
    requires Neighbour(p, sh, t)
    ensures forall k :: Under(t.uwin, 0, t.uspan, k) ==> 0 <= k < 1023
  {
    hide Agreement, Tidy, Spaces.Apart, Under, Frames, UserView, ViewFor;
    CurrentOf(p, sh, t);
    UserUnder(PagesOf(p, t), ShapeOf(p, sh, t));
  }

  /** Stores in a frame that is foreign to all directories change nothing. */
  lemma WorldStore(p: Pages, sh: Shape, m': Mem, f: int, ts: seq<Space>)
    requires World(p, sh, ts) && f % 4096 == 0 && Elsewhere(p.m, m', f) && NotTable(p.m, p.cr3, f)
    requires forall t :: t in ts ==> NotTable(p.m, t.cr3, f)
    ensures World(p.(m := m'), sh, ts)
  {
    hide Agreement, ViewFor, UserView, Tidy, Spaces.Apart, Frames, NotTable, Elsewhere, Entry, SelfMapped;
    StoreAgreement(p, sh, m', f);
    StoreTidy(p, sh, m', f);
    forall t | t in ts
      ensures Neighbour(p.(m := m'), sh, t) && UserView(m', t) == UserView(p.m, t)
      ensures forall k :: 0 <= k < 1024 ==> Entry(m', t.cr3, k) == Entry(p.m, t.cr3, k)
    {
      NeighbourStore(p, sh, m', f, t);
      DirAligned(PagesOf(p, t), ShapeOf(p, sh, t));
      ElsewhereEntries(p.m, m', t.cr3, f);
    }
    hide Neighbour;
    StrangersKept(p, sh, m', ts);
  }

  /** A page of the kernel that is no directory, or of the space in use, is foreign to a space that is not. */
  lemma PageForeign(p: Pages, sh: Shape, pf: PoolFlag, i: int, t: Space)
    requires Agreement(p, sh) && Neighbour(p, sh, t) && i in ViewFor(p, sh, pf) && ViewFor(p, sh, pf)[i] != t.cr3
    ensures NotTable(p.m, t.cr3, ViewFor(p, sh, pf)[i])
  {
    hide Agreement, View, ViewFor, UserView, Spaces.Apart, Frames, NotTable, InPool, Used, PoolOk, DirTaken, ShapeOf;
    var f := ViewFor(p, sh, pf)[i];
    PoolPart(p, sh, pf);
    PageInPool(PoolFor(p, pf), ViewFor(p, sh, pf), sh.reserved, i);
    DirPart(p, sh);
    if pf.PfKernel? {
      hide Geometry;
      PoolsApart(p, f);
      KernelFrames(p, sh, t, f);
      FreshForeign(PagesOf(p, t), ShapeOf(p, sh, t), f);
    } else {
      UserForeign(PagesOf(p, t), ShapeOf(p, sh, t), f);
    }
  }

  lemma PageInPool(pool: Pool, view: map<int, int>, reserved: set<int>, i: int)
    requires PoolOk(pool, view, reserved) && i in view
    ensures InPool(pool, view[i]) && view[i] !in reserved
  {
    hide InPool, Used;
  }

  lemma UserForeign(p: Pages, sh: Shape, f: int)
    requires Agreement(p, sh) && LowTables(p) && InPool(p.upool, f) && f != p.cr3
    ensures NotTable(p.m, p.cr3, f)
  {
    hide View, PoolOk, BitsOk, DirTaken, PageModel.Beyond, TablesApart, TablesKept, InPool, Base, Present;
  }

  // ---------------------------------------------------------------------------------------
  // A new space
  // ---------------------------------------------------------------------------------------

  function NewSpace(f: int): Space {
    Space(f, UserWindow(), USER_PAGES)
  }

  /** The space of a new process is a neighbour. */
  lemma NewNeighbour(p: Pages, sh: Shape, i: int)
    requires Agreement(p, sh) && Tidy(p, sh) && i in ViewFor(p, sh, PfKernel)
    requires var f := ViewFor(p, sh, PfKernel)[i]; f != p.cr3 && Cloned(p.m, p.cr3, f)
    ensures var t := NewSpace(ViewFor(p, sh, PfKernel)[i]); Neighbour(p, sh, t) && UserView(p.m, t) == map[]
  {
    hide Agreement, View, ViewFor, Cloned, KernelBehind, FullKernel, LowTables, Halves, UserWindow, Spaces.Apart;
    var f := ViewFor(p, sh, PfKernel)[i];
    var t := NewSpace(f);
    ProcessAgreement(p, sh, i);
    UserViewOf(ProcessPages(p, f), ProcessShape(p, sh), p.m, t);
    assert PagesOf(p, t) == ProcessPages(p, f);
    assert Frames(UserView(p.m, t)) == {};
    assert ShapeOf(p, sh, t) == ProcessShape(p, sh);
    NewTidy(p, sh, f);
    NewNotTable(p, sh, i);
    NewSpaceApart(p, sh, f);
  }

  lemma NewTidy(p: Pages, sh: Shape, f: int)
    requires Tidy(p, sh) && Cloned(p.m, p.cr3, f)
    ensures var p' := ProcessPages(p, f);
            FullKernel(p'.m, p'.cr3) && LowTables(p') && Halves(p.m, NewSpace(f))
  {
    NotPresentZero();
    hide KernelBehind, Present, Base, InPool, UserWindow, Entry;
    forall k | Under(NewSpace(f).uwin, 0, USER_PAGES, k)
      ensures !Present(Entry(p.m, f, k))
    {
      NewUnder(p.m, p.cr3, f, k);
    }
    hide Under;
  }

  /** The user half of a new directory is empty. */
  lemma NewUnder(m: Mem, cr3: int, f: int, k: int)
    requires Cloned(m, cr3, f) && Under(NewSpace(f).uwin, 0, USER_PAGES, k)
    ensures !Present(Entry(m, f, k))
  {
    hide UserWindow, Dir, Present, Entry, Cloned;
    var i :| 0 <= i < USER_PAGES && Dir(Page(NewSpace(f).uwin, i)) == k;
    UserPage(i);
    UserHalf(m, cr3, f, Page(UserWindow(), i));
  }

  lemma NewNotTable(p: Pages, sh: Shape, i: int)
    requires Agreement(p, sh) && i in ViewFor(p, sh, PfKernel) && ViewFor(p, sh, PfKernel)[i] != p.cr3
    ensures NotTable(p.m, p.cr3, ViewFor(p, sh, PfKernel)[i]) && ViewFor(p, sh, PfKernel)[i] % 4096 == 0
  {
    hide Agreement, View, ViewFor, NotTable, InPool, Used, PoolOk, DirTaken, DirOk, Geometry;
    PoolPart(p, sh, PfKernel);
    PageInPool(p.kpool, ViewFor(p, sh, PfKernel), sh.reserved, i);
    DirPart(p, sh);
    PoolsApart(p, ViewFor(p, sh, PfKernel)[i]);
    FreeNotTable(p, sh.reserved, ViewFor(p, sh, PfKernel)[i]);
  }

  lemma NewSpaceApart(p: Pages, sh: Shape, f: int)
    requires Agreement(p, sh) && Tidy(p, sh) && Cloned(p.m, p.cr3, f) && f != p.cr3 && f % 4096 == 0
    requires NotTable(p.m, p.cr3, f)
    ensures Spaces.Apart(p.m, Current(p, sh), NewSpace(f))
  {
    hide Agreement, View, KernelBehind, LowTables, Present, Base, UserWindow, Under, Entry, InPool;
    var t := NewSpace(f);
    NewEntries(p.m, p.cr3, f);
    DirAligned(p, sh);
    SelfNotTable(p, sh);
    forall k | Under(t.uwin, 0, t.uspan, k) ensures !Present(Entry(p.m, f, k)) { NewUnder(p.m, p.cr3, f, k); }
    UserUnder(p, sh);
  }

  /** The entries of a new directory that are present are those of the kernel half and itself. */
  lemma NewEntries(m: Mem, cr3: int, f: int)
    requires Cloned(m, cr3, f) && f % 4096 == 0
    ensures forall k :: 0 <= k < 1024 && Present(Entry(m, f, k)) ==>
              if k < 1023 then k >= 768 && Entry(m, f, k) == Entry(m, cr3, k) else Base(Entry(m, f, k)) == f
  {
    NotPresentZero();
    FlagsOf(f);
    hide Present, Base, Entry;
  }

  lemma SelfNotTable(p: Pages, sh: Shape)
    requires Agreement(p, sh)
    ensures forall k :: 0 <= k < 1023 && Present(Entry(p.m, p.cr3, k)) ==> Base(Entry(p.m, p.cr3, k)) != p.cr3
  {
    hide View, PoolOk, BitsOk, DirTaken, PageModel.Beyond, TablesApart, InPool, Base, Present;
  }

  /** A new space is apart from those that are not in use. */
  lemma NewStranger(p: Pages, sh: Shape, i: int, s: Space)
    requires Agreement(p, sh) && Tidy(p, sh) && Neighbour(p, sh, s) && i in ViewFor(p, sh, PfKernel)
    requires var f := ViewFor(p, sh, PfKernel)[i]; f != p.cr3 && f != s.cr3 && Cloned(p.m, p.cr3, f)
    ensures Strangers(p.m, s, NewSpace(ViewFor(p, sh, PfKernel)[i]))
  {
    hide Agreement, View, ViewFor, KernelBehind, LowTables, Halves, Present, Base, UserWindow, Under, Entry, UserView,
         Frames, ShapeOf;
    var f := ViewFor(p, sh, PfKernel)[i];
    var t := NewSpace(f);
    NewNeighbour(p, sh, i);
    NewNotTable(p, sh, i);
    NewEntries(p.m, p.cr3, f);
    PageForeign(p, sh, PfKernel, i, s);
    NeighbourUnder(p, sh, s);
    DirAligned(PagesOf(p, s), ShapeOf(p, sh, s));
    forall k | Under(t.uwin, 0, t.uspan, k) ensures !Present(Entry(p.m, f, k)) { NewUnder(p.m, p.cr3, f, k); }
    NewShared(p.m, p.cr3, f, s.cr3);
    NoFrames();
    assert Spaces.Apart(p.m, s, t);
  }

  lemma NewShared(m: Mem, cr3: int, f: int, d: int)
    requires Cloned(m, cr3, f) && Shared(m, cr3, d)
    ensures Shared(m, d, f)
  {
    hide Entry;
  }

  lemma NoFrames()
    ensures Frames(map[]) == {}
  {
  }

  /** The spaces with a new one. */
  lemma WorldNew(p: Pages, sh: Shape, ts: seq<Space>, i: int)
    requires World(p, sh, ts) && i in ViewFor(p, sh, PfKernel)
    requires var f := ViewFor(p, sh, PfKernel)[i];
             f != p.cr3 && Cloned(p.m, p.cr3, f) && forall t :: t in ts ==> f != t.cr3
    ensures World(p, sh, ts + [NewSpace(ViewFor(p, sh, PfKernel)[i])])
  {
    hide Agreement, ViewFor, Tidy, Neighbour, Strangers, Cloned;
    var t := NewSpace(ViewFor(p, sh, PfKernel)[i]);
    hide NewSpace;
    NewNeighbour(p, sh, i);
    forall s | s in ts ensures Strangers(p.m, s, t) { NewStranger(p, sh, i, s); }
    var ts' := ts + [t];
    forall a, b | 0 <= a < b < |ts'|
      ensures Strangers(p.m, ts'[a], ts'[b])
    {
      if b == |ts| { assert ts'[a] in ts; }
    }
  }

  // ---------------------------------------------------------------------------------------
  // Switching
  // ---------------------------------------------------------------------------------------

  lemma ApartSwapped(m: Mem, s: Space, t: Space)
    requires Spaces.Apart(m, s, t)
    ensures Spaces.Apart(m, t, s)
  {
    hide Private, NotTable, Entry;
  }

  /** What is set aside for a third space does not depend on which of two others is in use. */
  lemma SameReserved(r: set<int>, c: set<int>, t: set<int>, s: set<int>)
    requires c !! r && t <= r && s <= r && s !! t
    ensures r - t + c - s + t == r - s + c
    ensures r - t + c - c + t == r && c <= r - t + c && s <= r - t + c
  {
  }

  /** The space that was in use is a neighbour of the one that is now. */
  lemma SwitchBack(p: Pages, sh: Shape, t: Space)
    requires Agreement(p, sh) && Tidy(p, sh) && Neighbour(p, sh, t)
    ensures Neighbour(PagesOf(p, t), ShapeOf(p, sh, t), Current(p, sh))
    ensures PagesOf(PagesOf(p, t), Current(p, sh)) == p
    ensures ShapeOf(PagesOf(p, t), ShapeOf(p, sh, t), Current(p, sh)) == sh
  {
    hide Agreement, View, UserView, Tidy, Spaces.Apart, Frames;
    var c, pt, sht := Current(p, sh), PagesOf(p, t), ShapeOf(p, sh, t);
    ViewOf(p, sh, t);
    UserViewOf(p, sh, p.m, c);
    CurrentOf(p, sh, t);
    ApartSwapped(p.m, c, t);
    OwnFrames(p, sh);
    SameReserved(sh.reserved, Frames(ViewFor(p, sh, PfUser)), Frames(UserView(p.m, t)), {});
  }

  lemma OwnFrames(p: Pages, sh: Shape)
    requires Agreement(p, sh)
    ensures Frames(ViewFor(p, sh, PfUser)) !! sh.reserved
  {
    hide Agreement, ViewFor, Frames, InPool;
    forall f | f in Frames(ViewFor(p, sh, PfUser)) ensures f !in sh.reserved { FramesOf(p, sh, f); }
  }

  /** A third space stays a neighbour. */
  lemma SwitchThird(p: Pages, sh: Shape, t: Space, s: Space)
    requires Agreement(p, sh) && Neighbour(p, sh, t) && Neighbour(p, sh, s) && Strangers(p.m, t, s)
    ensures Neighbour(PagesOf(p, t), ShapeOf(p, sh, t), s)
    ensures PagesOf(PagesOf(p, t), s) == PagesOf(p, s)
    ensures ShapeOf(PagesOf(p, t), ShapeOf(p, sh, t), s) == ShapeOf(p, sh, s)
  {
    hide Agreement, View, UserView, Tidy, Spaces.Apart, Frames;
    var pt, sht := PagesOf(p, t), ShapeOf(p, sh, t);
    ViewOf(p, sh, t);
    CurrentOf(p, sh, t);
    OwnFrames(p, sh);
    SameReserved(sh.reserved, Frames(ViewFor(p, sh, PfUser)), Frames(UserView(p.m, t)), Frames(UserView(p.m, s)));
    assert PagesOf(pt, s) == PagesOf(p, s);
    assert ShapeOf(pt, sht, s) == ShapeOf(p, sh, s);
  }

  /** Space `i` comes into use, and the one that was takes its place. */
  lemma WorldSwitch(p: Pages, sh: Shape, ts: seq<Space>, i: nat)
    requires World(p, sh, ts) && i < |ts|
    ensures World(PagesOf(p, ts[i]), ShapeOf(p, sh, ts[i]), ts[i := Current(p, sh)])
  {
    hide Agreement, View, ViewFor, UserView, Tidy, Neighbour, Strangers, ShapeOf;
    var t, c := ts[i], Current(p, sh);
    var pt, sht, ts' := PagesOf(p, t), ShapeOf(p, sh, t), ts[i := c];
    NeighbourParts(p, sh, t);
    forall s | s in ts' ensures Neighbour(pt, sht, s) {
      var j :| 0 <= j < |ts'| && ts'[j] == s;
      if j == i {
        SwitchBack(p, sh, t);
      } else {
        assert s == ts[j] && s in ts;
        StrangersEither(p, sh, ts, i, j);
        SwitchThird(p, sh, t, s);
      }
    }
    forall a, b | 0 <= a < b < |ts'|
      ensures Strangers(p.m, ts'[a], ts'[b])
    {
      if a == i {
        assert ts[b] in ts;
        CurrentStranger(p, sh, ts[b]);
      } else if b == i {
        assert ts[a] in ts;
        CurrentStranger(p, sh, ts[a]);
      }
    }
  }

  lemma NeighbourParts(p: Pages, sh: Shape, t: Space)
    requires Neighbour(p, sh, t)
    ensures Agreement(PagesOf(p, t), ShapeOf(p, sh, t)) && Tidy(PagesOf(p, t), ShapeOf(p, sh, t))
  {
    hide Agreement, Tidy, ShapeOf, Spaces.Apart, Frames, UserView;
  }

  lemma StrangersEither(p: Pages, sh: Shape, ts: seq<Space>, i: nat, j: nat)
    requires World(p, sh, ts) && i < |ts| && j < |ts| && i != j
    ensures Strangers(p.m, ts[i], ts[j])
  {
    hide Agreement, Tidy, Neighbour, Spaces.Apart, Frames, UserView;
    if j < i {
      assert Strangers(p.m, ts[j], ts[i]);
      ApartSwapped(p.m, ts[j], ts[i]);
    }
  }

  lemma CurrentStranger(p: Pages, sh: Shape, s: Space)
    requires Agreement(p, sh) && Neighbour(p, sh, s)
    ensures Strangers(p.m, Current(p, sh), s) && Strangers(p.m, s, Current(p, sh))
  {
    hide Agreement, Tidy, Spaces.Apart, Frames, View, UserView, ShapeOf;
    OwnFrames(p, sh);
    UserViewOf(p, sh, p.m, Current(p, sh));
    ApartSwapped(p.m, Current(p, sh), s);
  }

  // ---------------------------------------------------------------------------------------
  // create_page_dir
  // ---------------------------------------------------------------------------------------

  /** A page just mapped is not that of a directory. */
  lemma FreshNotDir(p: Pages, sh: Shape, p': Pages, sh': Shape, t: Space, i: int)
    requires Agreement(p, sh) && Neighbour(p, sh, t) && Agreement(p', sh') && Steady(p, sh, p', sh')
    requires i !in ViewFor(p, sh, PfKernel) && i in ViewFor(p', sh', PfKernel)
    requires Used(ViewFor(p, sh, PfKernel), t.cr3) ==>
               exists j :: j != i && j in ViewFor(p', sh', PfKernel) && ViewFor(p', sh', PfKernel)[j] == t.cr3
    ensures ViewFor(p', sh', PfKernel)[i] != t.cr3
  {
    hide Agreement, View, ViewFor, UserView, Frames, InPool, IsTable, EntriesKept, NewTables, BeyondKeeps, Tidy,
         Spaces.Apart, ShapeOf;
    PoolPart(p', sh', PfKernel);
    PoolPart(PagesOf(p, t), ShapeOf(p, sh, t), PfKernel);
    SharedOf(p.m, Current(p, sh), t);
    KernelViewOf(p, sh, t);
    KernelFrames(p, sh, t, t.cr3);
    SamePools(p, p', t.cr3);
  }

  /** The page of a new directory is mapped at `mid` and then written to: the spaces go on, with one more. */
  lemma WorldDirectory(p: Pages, sh: Shape, mid: Pages, sh': Shape, m': Mem, ts: seq<Space>, v: int, f: int)
    requires World(p, sh, ts) && Stepped(p, sh, mid, sh', PfKernel) && Agreement(mid, sh')
    requires Got(p, sh, mid.(m := m'), sh', PfKernel, v, 1)
    requires ViewFor(mid.(m := m'), sh', PfKernel) == ViewFor(mid, sh', PfKernel)
    requires var i := Index(p.kwin.start, v); i in ViewFor(mid, sh', PfKernel) && ViewFor(mid, sh', PfKernel)[i] == f
    requires f != mid.cr3 && f % 4096 == 0 && Elsewhere(mid.m, m', f) && Cloned(m', mid.cr3, f)
    ensures World(mid.(m := m'), sh', ts) && World(mid.(m := m'), sh', ts + [NewSpace(f)])
            && NotTable(mid.m, mid.cr3, f)
    ensures forall t :: t in ts ==>
              Spaces.Beside(p, sh, mid, sh', PfKernel, t) && Neighbour(mid, sh', t) && NotTable(mid.m, t.cr3, f)
  {
    hide Agreement, View, ViewFor, Tidy, Neighbour, Strangers, Steady, Confined, Used, Elsewhere, Cloned, NotTable,
         Index, NewSpace, Got;
    var i := Index(p.kwin.start, v);
    forall t | t in ts && Used(ViewFor(p, sh, PfKernel), t.cr3) ensures Used(ViewFor(mid, sh', PfKernel), t.cr3) {
      StillMapped(p, sh, mid.(m := m'), sh', v, t.cr3);
    }
    WorldStep(p, sh, mid, sh', PfKernel, ts);
    NewNotTable(mid, sh', i);
    forall t | t in ts
      ensures f != t.cr3 && NotTable(mid.m, t.cr3, f)
    {
      StillMapped(p, sh, mid.(m := m'), sh', v, t.cr3);
      FreshNotDir(p, sh, mid, sh', t, i);
      PageForeign(mid, sh', PfKernel, i, t);
    }
    WorldStore(mid, sh', m', f, ts);
    WorldNew(mid.(m := m'), sh', ts, i);
  }

  /** Frames that were mapped are, at other pages than the one just mapped. */
  lemma StillMapped(p: Pages, sh: Shape, p': Pages, sh': Shape, v: int, f: int)
    requires Agreement(p, sh) && Got(p, sh, p', sh', PfKernel, v, 1)
    ensures var i := Index(p.kwin.start, v); var view, view' := ViewFor(p, sh, PfKernel), ViewFor(p', sh', PfKernel);
            && i !in view
            && (Used(view, f) ==> Used(view', f) && exists j :: j != i && j in view' && view'[j] == f)
  {
    hide Agreement, ViewFor, Steady, Scan, Fill, At;
    var i := Index(p.kwin.start, v);
    var view, view' := ViewFor(p, sh, PfKernel), ViewFor(p', sh', PfKernel);
    NotYetMapped(p, sh, i);
    if Used(view, f) {
      var j :| j in view && view[j] == f;
      assert j != i && j in view' && view'[j] == f;
    }
  }
}
