/**
 The memory of the machine as all threads and processes use it: one kernel heap, and for each process an address
 space and a heap of its own.  Every operation, by whomever, leaves everything else as it was.
 */
module Memory {
  import opened Common
  import opened Paging
  import opened Bitmap
  import opened PageModel
  import opened PageSteps
  import opened FrameCount
  import opened PageManager
  import opened MemoryInit
  import opened HeapModel
  import opened Process
  import opened Spaces
  import opened Turns
  import opened HeapTurns
  import HP = HeapPages
  import H = Heap
  import KH = KernelHeap

  /** The pages when an address space was last in use. */
  datatype Snapshot = Snapshot(p: Pages, sh: Shape)

  /** The heap of process `t`, valid when it was last in use, will be when it is again. */
  ghost predicate Waits(h: H.Heap?, s: Snapshot, p: Pages, sh: Shape, t: Space)
    reads h
  {
    h != null ==>
      && h.pf == PfUser && h.ValidIn(s.p, s.sh, -1)
      && HP.Rely(h.base, s.p, s.sh, PagesOf(p, t), ShapeOf(p, sh, t), PfUser, h.arenas)
  }

  lemma WaitsOn(h: H.Heap?, s: Snapshot, p: Pages, sh: Shape, p': Pages, sh': Shape, pf: PoolFlag, t: Space)
    requires Waits(h, s, p, sh, t) && Beside(p, sh, p', sh', pf, t)
    ensures Waits(h, s, p', sh', t)
  {
    hide Beside, HP.Rely, ShapeOf;
    if h != null { ParkedRely(h.base, s.p, s.sh, p, sh, p', sh', pf, t, h.arenas); }
  }

  class Memory {
    const heap: H.Heap
    // The heap of the process in use, and the address spaces that are not in use with their heaps.
    var user: H.Heap?
    var parked: seq<Space>
    var users: seq<H.Heap?>
    ghost var since: seq<Snapshot>

    ghost function Own(): set<object> reads this {
      if user == null then {} else {user}
    }

    /** One object for each heap, all on the same pages. */
    ghost predicate Distinct()
      reads this
    {
      && |users| == |parked| == |since| && (user != null ==> user != heap && user.pm == heap.pm)
      && (forall j :: 0 <= j < |users| && users[j] != null ==>
            users[j] != heap && users[j] != user && users[j].pm == heap.pm)
      && (forall i, j :: 0 <= i < j < |users| && users[i] != null ==> users[i] != users[j])
    }

    ghost predicate Waiting()
      reads this, heap, heap.pm, set h: H.Heap? | h in users
    {
      |users| == |parked| == |since|
      && forall j :: 0 <= j < |users| ==> Waits(users[j], since[j], heap.pm.State(), heap.pm.sh, parked[j])
    }

    /** The kernel heap under the directory in use. */
    ghost predicate KernelValid()
      reads this, heap, heap.pm
    {
      && heap.Valid() && heap.pf == PfKernel && TablesThere(heap.p0, PfKernel)
      && World(heap.pm.State(), heap.pm.sh, parked) && AllHeld(heap.base, heap.pm.State(), parked)
    }

    ghost predicate UserValid()
      reads this, heap, heap.pm, Own()
    {
      user != null ==> user.pm == heap.pm && user.pf == PfUser && user.Valid()
    }

    ghost predicate Valid()
      reads this, heap, heap.pm, Own(), set h: H.Heap? | h in users
    {
      Distinct() && KernelValid() && UserValid() && Waiting()
    }

    /** After `mem_init`: one address space, that of the kernel. */
    constructor (m: Mem, allMem: int, guard: bool)
      requires BootMemory(m) && Addr(allMem)
      ensures Valid() <==> Blank(m, BootShape(allMem, guard).kspan)
      ensures heap.live == map[] && heap.pm.State() == InitPages(m, allMem, guard) && user == null && parked == []
    {
      hide BootMemory, InitPages, BootShape, Blank, World, TablesThere, H.Heap.Valid;
      var h := KH.MemInit(m, allMem, guard);
      heap, user, parked, users, since := h, null, [], [], [];
      new;
      if Blank(m, BootShape(allMem, guard).kspan) { BootWorld(m, allMem, guard); }
    }

    /** The others wait on while the space in use works on window `pf`. */
    lemma WaitOn(p: Pages, sh: Shape, pf: PoolFlag)
      requires |users| == |parked| == |since|
      requires forall j :: 0 <= j < |users| ==> Waits(users[j], since[j], p, sh, parked[j])
      requires forall t :: t in parked ==> Beside(p, sh, heap.pm.State(), heap.pm.sh, pf, t)
      ensures Waiting()
    {
      hide Waits, Beside;
      forall j | 0 <= j < |users|
        ensures Waits(users[j], since[j], heap.pm.State(), heap.pm.sh, parked[j])
      {
        WaitsOn(users[j], since[j], p, sh, heap.pm.State(), heap.pm.sh, pf, parked[j]);
      }
    }

    /** `sys_malloc` by a kernel thread, or by a process for the kernel as in `inode_open`. */
    method KernelMalloc(size: nat) returns (r: Grant)
      requires Valid()
      modifies heap, heap.pm, Own()
      ensures Kept(user)
      ensures H.Answered(r, size, heap.poolSize, old(H.Need(heap.descs, size)), old(heap.pm.State()), old(heap.pm.sh),
                         PfKernel)
      ensures r.Null? ==> heap.live == old(heap.live)
      ensures r.Granted? ==> r.v !in old(heap.live) && heap.live == old(heap.live)[r.v := size]
      ensures !r.Halted? ==> Valid()
    {
      hide Agreement, ViewFor, HP.Settled, HeapOk, H.Answered, TablesThere, World, AllHeld, Waits, Stepped, Beside,
           HP.Rely, HP.Rebased, Home, H.SmallMet, H.LargeMet, ClassOf, H.Need;
      ghost var p, sh, arenas := heap.pm.State(), heap.pm.sh, heap.arenas;
      if user != null { assert user.ValidIn(p, sh, -1); }
      r := heap.SysMalloc(size);
      if r.Granted? {
        KernelWork(heap.base, p, sh, arenas, heap.pm.State(), heap.pm.sh, heap.arenas, parked);
        if user != null {
          RelyStepped(user.base, p, sh, heap.pm.State(), heap.pm.sh, PfUser, user.arenas);
          user.Adapt(p, sh);
        }
        WaitOn(p, sh, PfKernel);
      }
    }

    /** `sys_free` of a pointer of the kernel heap. */
    method KernelFree(ptr: int) returns (ok: bool)
      requires Valid() && ptr in heap.live
      modifies heap, heap.pm, Own()
      ensures ok && Kept(user) && heap.live == old(heap.live) - {ptr} && Valid()
    {
      hide Agreement, ViewFor, HP.Settled, HeapOk, TablesThere, World, AllHeld, Waits, Stepped, Beside, HP.Rely,
           HP.Rebased, Home, H.Returned;
      ghost var p, sh, arenas := heap.pm.State(), heap.pm.sh, heap.arenas;
      if user != null { assert user.ValidIn(p, sh, -1); }
      ok := heap.SysFree(ptr);
      KernelWork(heap.base, p, sh, arenas, heap.pm.State(), heap.pm.sh, heap.arenas, parked);
      if user != null {
        RelyStepped(user.base, p, sh, heap.pm.State(), heap.pm.sh, PfUser, user.arenas);
        user.Adapt(p, sh);
      }
      WaitOn(p, sh, PfKernel);
    }

    /** The system call `malloc` of the process in use. */
    method UserMalloc(size: nat) returns (r: Grant)
      requires Valid() && user != null
      modifies heap, heap.pm, Own()
      ensures Kept(heap) && user == old(user)
      ensures H.Answered(r, size, user.poolSize, old(H.Need(user.descs, size)), old(heap.pm.State()), old(heap.pm.sh),
                         PfUser)
      ensures r.Null? ==> user.live == old(user.live)
      ensures r.Granted? ==> r.v !in old(user.live) && user.live == old(user.live)[r.v := size]
      ensures !r.Halted? ==> Valid()
    {
      hide Agreement, ViewFor, HP.Settled, HeapOk, H.Answered, TablesThere, World, AllHeld, Waits, Stepped, Beside,
           HP.Rely, HP.Rebased, Home, H.SmallMet, H.LargeMet, ClassOf, H.Need;
      ghost var p, sh := heap.pm.State(), heap.pm.sh;
      assert heap.ValidIn(p, sh, -1);
      r := user.SysMalloc(size);
      if r.Granted? {
        UserWork(p, sh);
        heap.Adapt(p, sh);
        WaitOn(p, sh, PfUser);
      }
    }

    /** The system call `free` of the process in use. */
    method UserFree(ptr: int) returns (ok: bool)
      requires Valid() && user != null && ptr in user.live
      modifies heap, heap.pm, Own()
      ensures ok && Kept(heap) && user == old(user) && user.live == old(user.live) - {ptr} && Valid()
    {
      hide Agreement, ViewFor, HP.Settled, HeapOk, TablesThere, World, AllHeld, Waits, Stepped, Beside, HP.Rely,
           HP.Rebased, Home, H.Returned;
      ghost var p, sh := heap.pm.State(), heap.pm.sh;
      assert heap.ValidIn(p, sh, -1);
      ok := user.SysFree(ptr);
      UserWork(p, sh);
      heap.Adapt(p, sh);
      WaitOn(p, sh, PfUser);
    }

    /** The process in use has worked on its pages. */
    lemma UserWork(p: Pages, sh: Shape)
      requires heap.ValidIn(p, sh, -1) && heap.pf == PfKernel && TablesThere(heap.p0, PfKernel)
      requires World(p, sh, parked) && AllHeld(heap.base, p, parked) && heap.pm.Valid()
      requires Stepped(p, sh, heap.pm.State(), heap.pm.sh, PfUser)
      ensures HP.Rely(heap.base, p, sh, heap.pm.State(), heap.pm.sh, PfKernel, heap.arenas)
      ensures World(heap.pm.State(), heap.pm.sh, parked)
      ensures AllHeld(HP.Rebased(heap.base, p, sh, heap.pm.State(), heap.pm.sh), heap.pm.State(), parked)
      ensures forall t :: t in parked ==> Beside(p, sh, heap.pm.State(), heap.pm.sh, PfUser, t)
    {
      hide Agreement, ViewFor, HP.Settled, HeapOk, TablesThere, World, AllHeld, Beside, HP.Rely, HP.Rebased, Steady,
           Confined, Used;
      RelyStepped(heap.base, p, sh, heap.pm.State(), heap.pm.sh, PfKernel, heap.arenas);
      OthersWork(heap.base, p, sh, heap.arenas, heap.pm.State(), heap.pm.sh, PfUser, parked);
    }

    /** `get_kernel_pages` and `get_user_pages`, as in `thread_start` and `process_execute`. */
    method GetPages(pf: PoolFlag, n: nat) returns (r: Grant)
      requires Valid()
      modifies heap, heap.pm, Own()
      ensures Kept(heap) && Kept(user)
      ensures r.Null? <==> old(Refused(heap.pm.State(), pf, n))
      ensures r.Halted? <==> old(Stops(heap.pm.State(), heap.pm.sh, pf, n))
      ensures r.Granted? ==> Got(old(heap.pm.State()), old(heap.pm.sh), heap.pm.State(), heap.pm.sh, pf, r.v, n)
      ensures !r.Halted? ==> Valid()
    {
      hide Agreement, ViewFor, HP.Settled, HeapOk, TablesThere, World, AllHeld, Waits, Stepped, Beside, HP.Rely,
           HP.Rebased, HP.Grew, Got, Refused, Stops, Index;
      ghost var p, sh, base := heap.pm.State(), heap.pm.sh, heap.base;
      if user != null { assert user.ValidIn(p, sh, -1); }
      r := KH.GetPages(heap, pf, n);
      if r.Granted? {
        KH.OthersGot(base, p, sh, heap.pm.State(), heap.pm.sh, PfKernel, heap.arenas, pf, r.v, n);
        GotAllUsed(p, sh, heap.pm.State(), heap.pm.sh, pf, r.v, n, parked);
        OthersWork(base, p, sh, heap.arenas, heap.pm.State(), heap.pm.sh, pf, parked);
        if user != null {
          KH.OthersGot(user.base, p, sh, heap.pm.State(), heap.pm.sh, PfUser, user.arenas, pf, r.v, n);
          user.Adapt(p, sh);
        }
        WaitOn(p, sh, pf);
      }
    }

    /** One more address space, without a heap yet. */
    method Enlist(t: Space, ghost s: Snapshot)
      requires Distinct() && Waiting() && Waits(null, s, heap.pm.State(), heap.pm.sh, t)
      modifies this
      ensures Distinct() && Waiting() && user == old(user)
      ensures parked == old(parked) + [t] && users == old(users) + [null]
    {
      hide Waits;
      parked, users, since := parked + [t], users + [null], since + [s];
    }

    /** The address space in use and its heap change places with those at `i`. */
    method Trade(i: nat, c: Space, ghost s: Snapshot)
      requires Distinct() && i < |users|
      requires var ts, us, ss := parked[i := c], users[i := user], since[i := s];
               forall j :: 0 <= j < |us| ==> Waits(us[j], ss[j], heap.pm.State(), heap.pm.sh, ts[j])
      modifies this
      ensures Distinct() && Waiting() && user == old(users)[i]
      ensures parked == old(parked)[i := c] && users == old(users)[i := old(user)]
    {
      hide Waits;
      var h := users[i];
      parked, users, since := parked[i := c], users[i := user], since[i := s];
      user := h;
    }

    /** `create_page_dir` in `process_execute`: one more address space, not in use, whose user half is empty. */
    method NewProcess() returns (r: Grant, ghost f: int)
      requires Valid()
      modifies this, heap, heap.pm, Own()
      ensures user == old(user) && Kept(heap) && Kept(user)
      ensures r.Null? <==> old(Refused(heap.pm.State(), PfKernel, 1))
      ensures r.Halted? <==> old(Stops(heap.pm.State(), heap.pm.sh, PfKernel, 1))
      ensures r.Granted? ==> parked == old(parked) + [NewSpace(f)] && users == old(users) + [null]
      ensures r.Null? ==> parked == old(parked) && users == old(users)
      ensures !r.Halted? ==> Valid()
    {
      hide Agreement, ViewFor, H.Heap.ValidIn, HP.Settled, TablesThere, World, Held, Waits, Stepped, Beside, HP.Rely,
           HP.Rebased, HP.Grew, Got, Refused, Stops, Index, Tidy, Neighbour, Elsewhere, Cloned, NotTable, At, NewSpace,
           AllHeld;
      ghost var p, sh, base := heap.pm.State(), heap.pm.sh, heap.base;
      heap.ValidParts(p, sh, -1);
      if user != null { user.ValidParts(p, sh, -1); }
      KernelBehindOf(p, sh, parked);
      ghost var mid;
      r, f, mid := KH.NewDirectory(heap);
      if !r.Granted? { return; }
      ghost var p', sh' := heap.pm.State(), heap.pm.sh;
      heap.ValidParts(p', sh', -1);
      WorldDirectory(p, sh, mid, sh', heap.pm.mem, parked, r.v, f);
      KH.OthersGot(base, p, sh, p', sh', PfKernel, heap.arenas, PfKernel, r.v, 1);
      HeldAll(base, p, sh, p', sh', heap.arenas, parked);
      GrewHas(base, heap.base, PfKernel, Index(p.kwin.start, r.v), ViewFor(p', sh', PfKernel));
      HeldNew(heap.base, p', sh', parked, Index(p.kwin.start, r.v), f);
      if user != null {
        KH.OthersGot(user.base, p, sh, p', sh', PfUser, user.arenas, PfKernel, r.v, 1);
        user.Adapt(p, sh);
      }
      WaitOnDirectory(p, sh, mid, f);
      WaitsNone(Snapshot(p', sh'), p', sh', NewSpace(f));
      PageAddress(p, sh, p', sh', r.v);
      var dir := AddrV2P(heap.pm.mem, heap.pm.cr3, r.v);
      if !dir.Done? { return Halted, f; }
      Enlist(NewSpace(dir.value), Snapshot(p', sh'));
    }

    /** The others wait on while the page of a new directory is mapped and written to. */
    lemma WaitOnDirectory(p: Pages, sh: Shape, mid: Pages, f: int)
      requires |users| == |parked| == |since|
      requires forall j :: 0 <= j < |users| ==> Waits(users[j], since[j], p, sh, parked[j])
      requires forall t :: t in parked ==>
                 && Beside(p, sh, mid, heap.pm.sh, PfKernel, t) && Neighbour(mid, heap.pm.sh, t)
                 && NotTable(mid.m, t.cr3, f)
      requires Agreement(mid, heap.pm.sh) && NotTable(mid.m, mid.cr3, f) && f % 4096 == 0
      requires heap.pm.State() == mid.(m := heap.pm.mem) && Elsewhere(mid.m, heap.pm.mem, f)
      ensures Waiting()
    {
      hide Waits, Beside, Neighbour, NotTable, Agreement, Elsewhere;
      forall j | 0 <= j < |users|
        ensures Waits(users[j], since[j], heap.pm.State(), heap.pm.sh, parked[j])
      {
        WaitsOn(users[j], since[j], p, sh, mid, heap.pm.sh, PfKernel, parked[j]);
        WaitsStore(users[j], since[j], mid, heap.pm.sh, heap.pm.mem, f, parked[j]);
      }
    }

    /** The others wait on while space `i` comes into use. */
    lemma WaitOnSwitch(p: Pages, sh: Shape, i: nat)
      requires World(p, sh, parked) && i < |parked| && |users| == |parked| == |since|
      requires forall j :: 0 <= j < |users| ==> Waits(users[j], since[j], p, sh, parked[j])
      requires user != null ==> user.pf == PfUser && user.ValidIn(p, sh, -1)
      ensures var p', sh' := PagesOf(p, parked[i]), ShapeOf(p, sh, parked[i]);
              var ts, us, ss := parked[i := Current(p, sh)], users[i := user], since[i := Snapshot(p, sh)];
              forall j :: 0 <= j < |us| ==> Waits(us[j], ss[j], p', sh', ts[j])
    {
      hide World, Neighbour, Agreement, Tidy, Strangers, HP.Rely, HP.Settled, HeapOk, TablesThere, ShapeOf;
      var ts, us, ss := parked[i := Current(p, sh)], users[i := user], since[i := Snapshot(p, sh)];
      WorldOne(p, sh, parked, i);
      forall j | 0 <= j < |us|
        ensures Waits(us[j], ss[j], PagesOf(p, parked[i]), ShapeOf(p, sh, parked[i]), ts[j])
      {
        if j == i {
          WaitsNow(user, p, sh, parked[i]);
        } else {
          WorldOne(p, sh, parked, j);
          StrangersEither(p, sh, parked, i, j);
          SwitchThird(p, sh, parked[i], parked[j]);
        }
      }
    }

    /** The directory of space `i` is loaded: the kernel heap goes on under it. */
    method Load(i: nat)
      requires KernelValid() && i < |parked|
      modifies heap`base, heap.pm
      ensures heap.Valid() && heap.pf == PfKernel && TablesThere(heap.p0, PfKernel)
      ensures heap.pm.State() == old(PagesOf(heap.pm.State(), parked[i]))
      ensures heap.pm.sh == old(ShapeOf(heap.pm.State(), heap.pm.sh, parked[i]))
      ensures var ts := parked[i := old(Current(heap.pm.State(), heap.pm.sh))];
              World(heap.pm.State(), heap.pm.sh, ts) && AllHeld(heap.base, heap.pm.State(), ts)
    {
      hide Agreement, ViewFor, HP.Settled, HeapOk, TablesThere, World, Held, HP.Rely, HP.Rebased, Tidy, Neighbour,
           ShapeOf, KernelBehind, AllHeld;
      ghost var p, sh, base := heap.pm.State(), heap.pm.sh, heap.base;
      var t := parked[i];
      ghost var c := Current(p, sh);
      ghost var sh' := ShapeOf(p, sh, t);
      WorldSwitch(p, sh, parked, i);
      WorldOne(p, sh, parked, i);
      NeighbourParts(p, sh, t);
      HeldOne(base, p, parked, i);
      RelySwitch(base, p, sh, heap.arenas, t);
      HeldCurrent(base, p, sh, PfKernel, heap.arenas);
      HeldUpdate(base, p, parked, i, c);
      heap.pm.Update(heap.pm.State().(cr3 := t.cr3, uwin := t.uwin));
      heap.pm.sh := sh';
      heap.Adapt(p, sh);
      HeldAll(base, p, sh, heap.pm.State(), sh', heap.arenas, parked[i := c]);
    }

    /** `page_dir_activate` for the address space at place `i`: the one in use takes its place. */
    method Switch(i: nat)
      requires Valid() && i < |parked|
      modifies this, heap`base, heap.pm, users[i]
      ensures parked == old(parked)[i := old(Current(heap.pm.State(), heap.pm.sh))]
              && users == old(users)[i := old(user)]
      ensures user == old(users)[i] && Kept(user) && Current(heap.pm.State(), heap.pm.sh) == old(parked)[i]
      ensures Valid()
    {
      hide Agreement, ViewFor, H.Heap.ValidIn, TablesThere, World, HP.Rely, HP.Rebased, ShapeOf, AllHeld, Waits;
      ghost var p, sh := heap.pm.State(), heap.pm.sh;
      ghost var s := since[i];
      var h := users[i];
      WorldCurrent(p, sh, parked);
      var c := Space(heap.pm.cr3, heap.pm.uwin, |heap.pm.uwin.bits| - 1);
      CurrentOf(p, sh, parked[i]);
      WaitOnSwitch(p, sh, i);
      if h != null { WaitsParts(h, s, p, sh, parked[i]); }
      Load(i);
      heap.ValidParts(heap.pm.State(), heap.pm.sh, -1);
      Trade(i, c, Snapshot(p, sh));
      if h != null { h.Adapt(s.p, s.sh); }
    }

    /** A new process begins (`start_process`): the page of its stack is mapped, and its heap is empty.  It stops
        exactly if there is no frame for the page or for the table it lacks. */
    method StartProcess(poolSize: nat) returns (r: Grant)
      requires Valid() && user == null && heap.pm.uwin == UserWindow() && poolSize <= 0xFFFF0000
      modifies this, heap`base, heap.pm
      ensures parked == old(parked) && users == old(users) && !r.Null?
      ensures r.Halted? <==> old(Short(heap.pm.State(), PfUser, USER_PAGES - 1, USER_PAGES))
      ensures r.Granted? ==>
                && user != null && fresh(user) && user.live == map[] && user.poolSize == poolSize
                && USER_PAGES - 1 in user.base.uview && Valid()
    {
      hide Agreement, ViewFor, HP.Settled, HeapOk, TablesThere, World, AllHeld, Waits, Stepped, Beside, HP.Rely,
           HP.Rebased, HP.Grew, Short, Missing, Counted, Moved, Index, UserWindow, At;
      ghost var p, sh, base := heap.pm.State(), heap.pm.sh, heap.base;
      WorldCurrent(p, sh, parked);
      StackPage(p, sh);
      r := KH.GetPage(heap, PfUser, true, USER_END - 4096);
      if !r.Granted? { return; }
      ghost var p', sh' := heap.pm.State(), heap.pm.sh;
      SteppedUser(p, sh, p', sh');
      RelyStepped(base, p, sh, p', sh', PfKernel, heap.arenas);
      OthersWork(base, p, sh, heap.arenas, p', sh', PfUser, parked);
      MovedHas(p, sh, p', sh', PfUser, USER_PAGES - 1);
      WaitOn(p, sh, PfUser);
      var h := new H.Heap(heap.pm, PfUser, poolSize);
      user := h;
    }

    /** While its stack is mapped, the requests of a process never reach behind its window. */
    lemma StackGuarded(n: nat)
      requires Valid() && user != null && USER_PAGES - 1 in user.base.uview && |heap.pm.uwin.bits| == USER_PAGES + 1
      requires n >= 1
      ensures heap.pm.sh.uspan == USER_PAGES
      ensures var found := Scan(heap.pm.uwin.bits, USER_PAGES, n); found.Found? ==> found.start + n <= USER_PAGES
    {
      hide Agreement, ViewFor, HeapOk, TablesThere, World, AllHeld, Waits, Scan, HP.Owns, HP.Beside;
      var p, sh := heap.pm.State(), heap.pm.sh;
      WorldCurrent(p, sh, parked);
      BaseIn(p.uwin.start, sh.uspan, user.arenas, ViewFor(p, sh, PfUser), user.base.uview, USER_PAGES - 1);
      BitIsView(p, sh, PfUser, USER_PAGES - 1);
      StackGuards(p.uwin.bits, n);
    }
  }

  /** The requests to a heap are as before. */
  twostate predicate Kept(h: H.Heap?)
    reads h
  {
    h != null ==> h.live == old(h.live) && h.arenas == old(h.arenas) && h.descs == old(h.descs)
  }

  lemma BootWorld(m: Mem, allMem: int, guard: bool)
    requires BootMemory(m) && Addr(allMem) && Blank(m, BootShape(allMem, guard).kspan)
    ensures World(InitPages(m, allMem, guard), BootShape(allMem, guard), [])
  {
    hide Agreement, BootMemory, InitPages, BootShape, Blank, TablesThere, ViewFor, KernelBehind, FullKernel,
         Spaces.LowTables;
    var p, sh := InitPages(m, allMem, guard), BootShape(allMem, guard);
    BootAgreement(m, allMem, guard);
    BootFields(m, allMem, guard);
    KH.BootBehind(m);
    KH.BehindBoot(p, sh);
    BootFull(m, p);
  }

  lemma BootFull(m: Mem, p: Pages)
    requires BootMemory(m) && p.m == m && p.cr3 == BOOT_DIR && p.upool.start >= USED_MEM
    ensures FullKernel(m, BOOT_DIR) && Spaces.LowTables(p)
  {
    forall k | 0 <= k < 1023
      ensures k >= 768 ==> Present(Entry(m, BOOT_DIR, k))
      ensures Present(Entry(m, BOOT_DIR, k)) ==> !InPool(p.upool, Base(Entry(m, BOOT_DIR, k)))
    {
      BootBase(k);
    }
  }

  lemma GotAllUsed(p: Pages, sh: Shape, p': Pages, sh': Shape, pf: PoolFlag, v: int, n: nat, ts: seq<Space>)
    requires Agreement(p, sh) && Got(p, sh, p', sh', pf, v, n)
    ensures forall t :: t in ts && Used(ViewFor(p, sh, PfKernel), t.cr3) ==> Used(ViewFor(p', sh', PfKernel), t.cr3)
  {
    hide Agreement, ViewFor, Moved, Scan, Fill, AllClear, At, Used;
    var start := Index(Win(p, pf).start, v);
    HP.ClearUnmapped(p, sh, pf, start, n);
    forall t | t in ts && Used(ViewFor(p, sh, PfKernel), t.cr3) ensures Used(ViewFor(p', sh', PfKernel), t.cr3) {
      GotUsed(p, sh, p', sh', pf, start, n, t.cr3);
    }
  }

  lemma KernelBehindOf(p: Pages, sh: Shape, ts: seq<Space>)
    requires World(p, sh, ts)
    ensures KernelBehind(p, sh)
  {
    hide Agreement, KernelBehind, FullKernel, Spaces.LowTables, Halves, Neighbour, Strangers;
  }

  /** All directories stay with others. */
  lemma HeldAll(base: HP.Base, p: Pages, sh: Shape, p': Pages, sh': Shape, arenas: map<int, Arena>, ts: seq<Space>)
    requires Agreement(p, sh) && HP.Settled(base, p, sh, PfKernel, arenas) && AllHeld(base, p, ts)
    requires World(p', sh', ts) && HP.Rely(base, p, sh, p', sh', PfKernel, arenas) && sh.reserved == base.reserved
    ensures AllHeld(HP.Rebased(base, p, sh, p', sh'), p', ts)
  {
    hide Agreement, ViewFor, HP.Settled, Held, HP.Rely, HP.Rebased, Tidy, Neighbour, Strangers;
    forall t | t in ts ensures Held(HP.Rebased(base, p, sh, p', sh'), p', t) {
      HeldRebased(base, p, sh, p', sh', arenas, t);
    }
  }

  /** The page of a new directory belongs to others. */
  lemma HeldNew(base: HP.Base, p: Pages, sh: Shape, ts: seq<Space>, i: int, f: int)
    requires AllHeld(base, p, ts) && Agreement(p, sh) && i in ViewFor(p, sh, PfKernel)
             && ViewFor(p, sh, PfKernel)[i] == f
    requires i in base.kview && base.kview[i] == f
    ensures AllHeld(base, p, ts + [NewSpace(f)])
  {
    hide Agreement, View, ViewFor, InPool, UserWindow, PoolOk, Geometry, DirOk;
    PoolPart(p, sh, PfKernel);
    PageInPool(p.kpool, ViewFor(p, sh, PfKernel), sh.reserved, i);
    DirPart(p, sh);
    PoolsApart(p, f);
    assert Used(base.kview, f);
  }

  lemma GrewHas(base: HP.Base, base': HP.Base, pf: PoolFlag, i: int, view: map<int, int>)
    requires HP.Grew(base, base', pf, i, 1, view)
    ensures i in HP.BaseView(base', pf) && i in view && HP.BaseView(base', pf)[i] == view[i]
  {
    assert InRange(i, i, 1);
  }

  lemma WaitsStore(h: H.Heap?, s: Snapshot, p: Pages, sh: Shape, m': Mem, f: int, t: Space)
    requires Waits(h, s, p, sh, t) && Agreement(p, sh) && Neighbour(p, sh, t) && f % 4096 == 0 && Elsewhere(p.m, m', f)
    requires NotTable(p.m, p.cr3, f) && NotTable(p.m, t.cr3, f)
    ensures Waits(h, s, p.(m := m'), sh, t)
  {
    hide Agreement, Neighbour, Elsewhere, NotTable, HP.Rely, ShapeOf, HP.Settled, HeapOk, TablesThere;
    if h != null { ParkedStore(h.base, s.p, s.sh, p, sh, m', f, t, h.arenas); }
  }

  lemma HeldOne(base: HP.Base, p: Pages, ts: seq<Space>, i: nat)
    requires AllHeld(base, p, ts) && i < |ts|
    ensures Held(base, p, ts[i])
  {
    hide Held;
  }

  lemma HeldUpdate(base: HP.Base, p: Pages, ts: seq<Space>, i: nat, c: Space)
    requires AllHeld(base, p, ts) && i < |ts| && Held(base, p, c)
    ensures AllHeld(base, p, ts[i := c])
  {
    hide Held;
  }

  lemma WaitsNone(s: Snapshot, p: Pages, sh: Shape, t: Space)
    ensures Waits(null, s, p, sh, t)
  {
  }

  lemma WaitsParts(h: H.Heap?, s: Snapshot, p: Pages, sh: Shape, t: Space)
    requires Waits(h, s, p, sh, t) && h != null
    ensures h.pf == PfUser && h.ValidIn(s.p, s.sh, -1)
    ensures HP.Rely(h.base, s.p, s.sh, PagesOf(p, t), ShapeOf(p, sh, t), PfUser, h.arenas)
  {
    hide HP.Rely, HP.Settled, HeapOk, TablesThere, ShapeOf, Agreement;
  }

  /** A space goes out of use. */
  lemma WaitsNow(h: H.Heap?, p: Pages, sh: Shape, t: Space)
    requires Agreement(p, sh) && Tidy(p, sh) && Neighbour(p, sh, t)
    requires h != null ==> h.pf == PfUser && h.ValidIn(p, sh, -1)
    ensures Waits(h, Snapshot(p, sh), PagesOf(p, t), ShapeOf(p, sh, t), Current(p, sh))
  {
    hide Agreement, Tidy, Neighbour, HP.Rely, HP.Settled, HeapOk, TablesThere, ShapeOf;
    SwitchBack(p, sh, t);
    if h != null { RelySame(h.base, p, sh, PfUser, h.arenas); }
  }

  lemma WorldOne(p: Pages, sh: Shape, ts: seq<Space>, i: nat)
    requires World(p, sh, ts) && i < |ts|
    ensures Agreement(p, sh) && Tidy(p, sh) && Neighbour(p, sh, ts[i])
  {
    hide Agreement, Tidy, Neighbour, Strangers;
  }

  /** A user window has one guard bit. */
  lemma WorldCurrent(p: Pages, sh: Shape, ts: seq<Space>)
    requires World(p, sh, ts)
    ensures |p.uwin.bits| > 0 && sh.uspan == |p.uwin.bits| - 1
  {
    hide Agreement, FullKernel, Spaces.LowTables, Halves, Neighbour, Strangers, PageModel.Beyond;
    SpanInside(p, sh, PfUser);
  }

  /** Where the page of the stack is. */
  lemma StackPage(p: Pages, sh: Shape)
    requires Agreement(p, sh) && p.uwin == UserWindow() && sh.uspan == |p.uwin.bits| - 1
    ensures Index(p.uwin.start, USER_END - 4096) == USER_PAGES - 1 && sh.uspan == USER_PAGES
    ensures USER_END - 4096 == At(p.uwin.start, USER_PAGES - 1) && USER_PAGES - 1 !in ViewFor(p, sh, PfUser)
  {
    hide Agreement, ViewFor;
    BitIsView(p, sh, PfUser, USER_PAGES - 1);
  }

  /** Where its table is missing, the stack takes one frame of each pool. */
  lemma StackFrames(p: Pages, sh: Shape)
    requires Agreement(p, sh) && p.uwin == UserWindow() && !Present(Entry(p.m, p.cr3, 767))
    ensures Short(p, PfUser, USER_PAGES - 1, USER_PAGES) <==>
              FreeFrames(p.upool.bits) == 0 || FreeFrames(p.kpool.bits) == 0
  {
    StackEntry(p);
    hide Agreement, FreeFrames, UserWindow, Present, Dir, Entry;
    var missing := Missing(p, PfUser, USER_PAGES - 1, USER_PAGES);
    var lo := USER_PAGES - 1;
    forall k ensures (Under(p.uwin, lo, USER_PAGES, k) <==> k == 767) {
      if k == 767 { assert Dir(Page(p.uwin, lo)) == k; }
    }
    hide Under;
    assert missing == {767};
  }

  lemma StackEntry(p: Pages)
    requires p.uwin == UserWindow()
    ensures Dir(Page(p.uwin, USER_PAGES - 1)) == 767
  {
  }

  lemma SteppedUser(p: Pages, sh: Shape, p': Pages, sh': Shape)
    requires Stepped(p, sh, p', sh', PfUser)
    ensures ViewFor(p', sh', PfKernel) == ViewFor(p, sh, PfKernel)
  {
    hide ViewFor, Steady, Confined;
  }

  lemma MovedHas(p: Pages, sh: Shape, p': Pages, sh': Shape, pf: PoolFlag, i: int)
    requires Moved(p, sh, p', sh', pf, i, 1, false)
    ensures i in ViewFor(p', sh', pf)
  {
    hide ViewFor, Steady;
  }
}
