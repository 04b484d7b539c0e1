/**
 What holds in every run of the step system of `Kernel`, from boot on and under every interleaving.
 */
module KernelRuns {
  import opened Common
  import opened Scheduler
  import opened Kernel
  import opened KernelProofs

  /** The state after `thread_init`, with `lock_init` done for every lock, `sema_init(.., 0)` for the
      semaphore of every channel, and interrupts enabled. */
  function Boot(mainTid: Tid, idleTid: Tid, locks: set<LockId>, channels: map<ChannelId, LockId>): (k: State)
    requires mainTid != idleTid
  {
    var names := (set l | l in locks :: LockSema(l)) + (set c | c in channels :: DiskSema(c));
    State(
      ThreadInit(mainTid, idleTid).(intrOn := true),
      map[mainTid := Thread(Free, map[]), idleTid := Thread(Free, map[])],
      map s | s in names :: Sema(if s.LockSema? then 1 else 0, []),
      map l | l in locks :: Lock(None, 0),
      map c | c in channels :: Channel(channels[c], false, 0, 0, 0))
  }

  /** When no thread is in a semaphore, a lock or a channel, fresh ones satisfy their invariants. */
  lemma FreshRecords(tasks: map<Tid, Task>, threads: map<Tid, Thread>, s: SemaId, l: LockId, c: ChannelId, n: nat,
                     m: LockId)
    requires forall t :: t in threads ==> threads[t] == Thread(Free, map[])
    requires n <= 1
    ensures SemaInv(tasks, threads, Sema(n, []), s)
    ensures LockInv(threads, Lock(None, 0), 1, l)
    ensures ChannelInv(threads, Channel(m, false, 0, 0, 0), 0, c)
  {
  }

  lemma BootTasks(mainTid: Tid, idleTid: Tid, locks: set<LockId>, channels: map<ChannelId, LockId>)
    requires mainTid != idleTid
    ensures TaskInv(Boot(mainTid, idleTid, locks, channels))
  {
  }

  lemma FreshSemas(tasks: map<Tid, Task>, threads: map<Tid, Thread>, semas: map<SemaId, Sema>)
    requires forall t :: t in threads ==> threads[t] == Thread(Free, map[])
    requires forall s :: s in semas ==> semas[s] == Sema(if s.LockSema? then 1 else 0, [])
    ensures SemasInv(tasks, threads, semas)
  {
    hide SemaInv;
    forall s | s in semas ensures SemaInv(tasks, threads, semas[s], s) {
      FreshRecords(tasks, threads, s, 0, 0, semas[s].value, 0);
    }
  }

  lemma FreshLocks(threads: map<Tid, Thread>, semas: map<SemaId, Sema>, locks: map<LockId, Lock>,
                   channels: map<ChannelId, Channel>)
    requires forall t :: t in threads ==> threads[t] == Thread(Free, map[])
    requires forall s :: s in semas ==> semas[s] == Sema(if s.LockSema? then 1 else 0, [])
    requires forall l :: l in locks ==> LockSema(l) in semas && locks[l] == Lock(None, 0)
    requires forall c :: c in channels ==>
      DiskSema(c) in semas && channels[c].lock in locks && channels[c] == Channel(channels[c].lock, false, 0, 0, 0)
    ensures LocksInv(threads, locks, semas) && ChannelsInv(threads, channels, locks.Keys, semas)
  {
    hide LockInv, ChannelInv;
    forall l | l in locks ensures LockInv(threads, locks[l], semas[LockSema(l)].value, l) {
      FreshRecords(map[], threads, LockSema(l), l, 0, 0, 0);
    }
    forall c | c in channels ensures ChannelInv(threads, channels[c], semas[DiskSema(c)].value, c) {
      FreshRecords(map[], threads, DiskSema(c), 0, c, 0, channels[c].lock);
    }
  }

  lemma BootInv(mainTid: Tid, idleTid: Tid, locks: set<LockId>, channels: map<ChannelId, LockId>)
    requires mainTid != idleTid && channels.Values <= locks
    ensures Inv(Boot(mainTid, idleTid, locks, channels))
  {
    hide SemasInv, LocksInv, ChannelsInv, TaskInv;
    var k := Boot(mainTid, idleTid, locks, channels);
    BootTasks(mainTid, idleTid, locks, channels);
    assert forall c :: c in channels ==> channels[c] in channels.Values;
    FreshSemas(k.sched.tasks, k.threads, k.semas);
    FreshLocks(k.threads, k.semas, k.locks, k.channels);
  }

  /** `trace` is a run that takes the steps `acts`. */
  ghost predicate IsRun(trace: seq<State>, acts: seq<Action>) {
    && |trace| == |acts| + 1
    && forall i :: 0 <= i < |acts| ==> Enabled(trace[i], acts[i]) && Step(trace[i], acts[i]) == Done(trace[i + 1])
  }

  /** A state that some run from boot reaches. */
  ghost predicate Reachable(k: State) {
    exists m, idle, locks, channels, trace, acts ::
      RunTo(m, idle, locks, channels, trace, acts, k)
  }

  ghost predicate RunTo(m: Tid, idle: Tid, locks: set<LockId>, channels: map<ChannelId, LockId>,
                        trace: seq<State>, acts: seq<Action>, k: State) {
    && m != idle && channels.Values <= locks
    && IsRun(trace, acts) && trace[0] == Boot(m, idle, locks, channels) && trace[|acts|] == k
  }

  lemma {:induction false} RunInv(trace: seq<State>, acts: seq<Action>, i: nat)
    requires IsRun(trace, acts) && Inv(trace[0]) && i <= |acts|
    ensures Inv(trace[i])
  {
    hide Inv, Enabled, Step;
    if i > 0 {
      RunInv(trace, acts, i - 1);
      StepKeeps(trace[i - 1], acts[i - 1]);
    }
  }

  lemma ReachableInv(k: State)
    requires Reachable(k)
    ensures Inv(k)
  {
    hide Inv, Boot;
    var m, idle, locks, channels, trace, acts :| RunTo(m, idle, locks, channels, trace, acts, k);
    BootInv(m, idle, locks, channels);
    RunInv(trace, acts, |acts|);
  }

  /** No assertion of `schedule`, `thread_yield`, `thread_block`, `thread_unblock`, `sema_down`,
      `sema_up`, `lock_acquire` or `lock_release` fires in any run. */
  lemma NoAssertionFires(k: State, a: Action)
    requires Reachable(k) && Enabled(k, a)
    ensures Step(k, a).Done?
  {
    hide Inv, Reachable, Enabled, Step;
    ReachableInv(k);
    StepKeeps(k, a);
  }

  /** Exactly one thread is running; a thread is ready iff its tag is in the ready list, where it is
      once; a tag is in at most one list. */
  lemma OneTagOneList(k: State, t: Tid)
    requires Reachable(k) && t in k.sched.tasks
    ensures k.sched.tasks[t].status.Running? <==> t == k.sched.cur
    ensures k.sched.tasks[t].status.Ready? <==> t in k.sched.ready
    ensures multiset(k.sched.ready)[t] <= 1
    ensures forall s :: s in k.semas ==> multiset(k.semas[s].waiters)[t] <= 1
    ensures forall s :: s in k.semas && t in k.semas[s].waiters ==> t !in k.sched.ready
    ensures forall s, z :: s in k.semas && z in k.semas && t in k.semas[s].waiters && t in k.semas[z].waiters ==> s == z
  {
    hide Reachable, LocksInv, ChannelsInv, DepthsOk, PcsOk, IdsOk;
    ReachableInv(k);
    OnceInNoDup(k.sched.ready, t);
    forall s | s in k.semas
      ensures multiset(k.semas[s].waiters)[t] <= 1
      ensures t in k.semas[s].waiters <==> Parked(k.sched.tasks, k.threads, s, t)
    {
      assert SemaInv(k.sched.tasks, k.threads, k.semas[s], s);
      OnceInNoDup(k.semas[s].waiters, t);
    }
  }

  lemma {:induction false} OnceInNoDup(q: seq<Tid>, t: Tid)
    requires NoDup(q)
    ensures multiset(q)[t] <= 1
  {
    if q != [] {
      assert q == [q[0]] + q[1..];
      OnceInNoDup(q[1..], t);
      assert q[0] !in q[1..];
    }
  }

  /** At most one thread is between its successful `sema_down` and its `sema_up` of a lock, there is
      one exactly when the semaphore is taken, and wherever it is, also waiting for the disk or another lock,
      `holder` and `holder_repeat_nr` are what its position and its nesting depth say. */
  lemma MutualExclusion(k: State, l: LockId)
    requires Reachable(k) && l in k.locks
    ensures LockSema(l) in k.semas && k.semas[LockSema(l)].value <= 1
    ensures forall t, u ::
              t in k.threads && u in k.threads && InSection(k.threads[t], l) && InSection(k.threads[u], l) ==> t == u
    ensures k.semas[LockSema(l)].value == 0 <==> exists t :: t in k.threads && InSection(k.threads[t], l)
    ensures k.locks[l].holder.Some? ==>
              k.locks[l].holder.value in k.threads && InSection(k.threads[k.locks[l].holder.value], l)
    ensures forall t :: t in k.threads && InSection(k.threads[t], l) ==>
              k.locks[l] == Lock(if Owns(k.threads[t], l) then Some(t) else None, Repeat(k.threads[t], l))
  {
    hide Reachable, TaskInv, ChannelsInv, DepthsOk, LocksInv;
    ReachableInv(k);
    GetLock(k, l);
    assert SemaInv(k.sched.tasks, k.threads, k.semas[LockSema(l)], LockSema(l));
    hide SemasInv;
    forall t | t in k.threads && InSection(k.threads[t], l)
      ensures k.locks[l] == Lock(if Owns(k.threads[t], l) then Some(t) else None, Repeat(k.threads[t], l))
    {
      SectionRecord(k.threads, t, k.locks[l], k.semas[LockSema(l)].value, l);
    }
  }

  /** If the semaphore is free while threads wait, then a woken thread has yet to retest: it is ready
      or running inside the loop, even if another thread takes the value first. */
  lemma NoLostWakeup(k: State, s: SemaId)
    requires Reachable(k) && s in k.semas
    ensures k.semas[s].value <= 1
    ensures k.semas[s].value == 1 && k.semas[s].waiters != [] ==>
              exists t :: t in k.threads && t in k.sched.tasks && k.threads[t].pc == Retest(s) &&
                          (t in k.sched.ready || t == k.sched.cur)
  {
    hide Reachable, LocksInv, ChannelsInv, DepthsOk;
    ReachableInv(k);
    assert SemaInv(k.sched.tasks, k.threads, k.semas[s], s);
    if k.semas[s].value == 1 && k.semas[s].waiters != [] {
      var t :| Woken(k.sched.tasks, k.threads, s, t);
      assert t in k.sched.ready || t == k.sched.cur;
    }
  }

  /** Commands sent minus waits returned is `expecting_intr` plus the semaphore value, which is 0 or
      1; every returned wait has consumed one accepted interrupt; and it is 1 exactly while one
      thread, the holder of the channel's lock, waits. */
  lemma DiskHandshake(k: State, c: ChannelId)
    requires Reachable(k) && c in k.channels
    ensures DiskSema(c) in k.semas
    ensures var ch := k.channels[c]; var done := k.semas[DiskSema(c)].value;
            && ch.issued - ch.completed == Bit(ch.expecting) + done
            && Bit(ch.expecting) + done <= 1
            && ch.accepted == ch.completed + done
            && (ch.issued > ch.completed <==> exists t :: t in k.threads && Pending(k.threads[t], c))
    ensures forall t, u :: t in k.threads && u in k.threads && Pending(k.threads[t], c) && Pending(k.threads[u], c) ==>
              t == u
  {
    hide Reachable, TaskInv, SemasInv, DepthsOk, LocksInv, ChannelsInv, LockInv;
    ReachableInv(k);
    GetChannel(k, c);
    var ch := k.channels[c];
    GetLock(k, ch.lock);
    forall t, u | t in k.threads && u in k.threads && Pending(k.threads[t], c) && Pending(k.threads[u], c)
      ensures t == u
    {
      OnlyHolderWaits(k.threads, t, ch, k.semas[DiskSema(c)].value, c, k.locks[ch.lock],
                      k.semas[LockSema(ch.lock)].value);
    }
  }

  // ---------------------------------------------------------------------------------------
  // Bounded waiting
  // ---------------------------------------------------------------------------------------

  /** The step is a timer interrupt or gives up the processor. */
  predicate Progress(k: State, a: Action)
    requires Enabled(k, a)
  {
    match a
    case Tick => true
    case Yield => true
    case Sleep(_) => true
    case Advance => (Me(k).pc.Down? || Me(k).pc.Retest?) && k.semas[Me(k).pc.s].value == 0
    case _ => false
  }

  /** The thread that `sema_up` on `s` would unblock. */
  function FirstWaiter(k: State, s: SemaId): Option<Tid> {
    if s in k.semas && k.semas[s].waiters != [] then Some(k.semas[s].waiters[0]) else None
  }

  /** The thread that the step unblocks, if any. */
  function Unblocks(k: State, a: Action): Option<Tid>
    requires Enabled(k, a)
  {
    match a
    case Wake(t) => Some(t)
    case DiskIntr(c) => if k.channels[c].expecting then FirstWaiter(k, DiskSema(c)) else None
    case Advance => if Me(k).pc.RelUp? then FirstWaiter(k, LockSema(Me(k).pc.l)) else None
    case _ => None
  }

  /** What an unblocked thread may add to the wait of the threads it overtakes. */
  function Overtake(k: State, a: Action): nat
    requires Enabled(k, a)
  {
    var u := Unblocks(k, a);
    if u.Some? && u.value in k.sched.tasks then k.sched.tasks[u.value].priority + 1 else 0
  }

  lemma WaitUp(k: State, s: SemaId, t: Tid)
    requires TaskInv(k) && SemasInv(k.sched.tasks, k.threads, k.semas) && s in k.semas && t in k.sched.ready
    requires k.semas[s].value == 0
    ensures SemaUp(k, s).Done? && Pointers(SemaUp(k, s).value.sched)
    ensures var u := FirstWaiter(k, s);
            && (u.Some? ==> u.value in k.sched.tasks)
            && WaitBound(SemaUp(k, s).value.sched, t)
               <= WaitBound(k.sched, t) + (if u.Some? then k.sched.tasks[u.value].priority + 1 else 0)
  {
    hide SemasInv, PcsOk, IdsOk, Ahead;
    if k.semas[s].waiters != [] {
      UpSemas(k.sched, k.threads, s, k.semas);
      WaitUnblock(k.sched, k.semas[s].waiters[0], t);
    }
  }

  /** A step that leaves the scheduler alone. */
  lemma WaitSame(k: State, a: Action)
    requires Inv(k) && Enabled(k, a) && Step(k, a).Done? && !Progress(k, a)
    requires a.BeginAcquire? || a.BeginRelease? || a.BeginCommand? || (a.Advance? && !Me(k).pc.RelUp?)
    ensures Step(k, a).value.sched.(intrOn := true) == k.sched.(intrOn := true)
  {
    hide SemasInv, LocksInv, ChannelsInv, SchedInv, DepthsOk, PcsOk, IdsOk;
  }

  lemma WaitAdvance(k: State, t: Tid)
    requires Inv(k) && Enabled(k, Advance) && Step(k, Advance).Done?
    requires t in k.sched.ready && t in Step(k, Advance).value.sched.ready && Pointers(Step(k, Advance).value.sched)
    ensures WaitBound(Step(k, Advance).value.sched, t) + Bit(Progress(k, Advance))
            <= WaitBound(k.sched, t) + Overtake(k, Advance)
  {
    hide LocksInv, ChannelsInv, SchedInv, SemasInv, PcsOk, IdsOk, Ahead, ThreadBlock, LockMove, AfterDown;
    var pc := Me(k).pc;
    if pc.RelUp? {
      var th := Thread(Free, Me(k).depth[pc.l := 0]);
      SemasMove(k.sched.tasks, k.threads, k.sched.cur, th, k.semas);
      ReleaseUpTasks(k, pc.l);
      hide SemaUp, TaskInv;
      WaitUp(SetMe(k, th), LockSema(pc.l), t);
    } else if Progress(k, Advance) {
      WaitBlock(k.sched, Blocked, t);
    } else {
      WaitSame(k, Advance);
    }
  }

  lemma ReleaseUpTasks(k: State, l: LockId)
    requires Inv(k) && Enabled(k, Advance) && Me(k).pc == RelUp(l)
    ensures LockSema(l) in k.semas && k.semas[LockSema(l)].value == 0
    ensures TaskInv(SetMe(k, Thread(Free, Me(k).depth[l := 0])))
  {
    hide LocksInv, ChannelsInv, SchedInv, SemasInv, LockInv;
    assert DepthOk(Me(k));
    hide DepthsOk;
    GiveEffect(Me(k), l);
    GetLock(k, l);
    SectionRecord(k.threads, k.sched.cur, k.locks[l], k.semas[LockSema(l)].value, l);
    ZeroValue(k, LockSema(l));
  }

  lemma WaitDisk(k: State, c: ChannelId, t: Tid)
    requires Inv(k) && Enabled(k, DiskIntr(c)) && Step(k, DiskIntr(c)).Done?
    requires t in k.sched.ready && Pointers(Step(k, DiskIntr(c)).value.sched)
    ensures WaitBound(Step(k, DiskIntr(c)).value.sched, t) <= WaitBound(k.sched, t) + Overtake(k, DiskIntr(c))
  {
    hide LocksInv, ChannelsInv, SchedInv, SemasInv, PcsOk, IdsOk, Ahead, SemaUp;
    var ch := k.channels[c];
    if ch.expecting {
      var k1 := k.(channels := k.channels[c := ch.(expecting := false, accepted := ch.accepted + 1)]);
      assert k1.channels.Keys == k.channels.Keys;
      GetChannel(k, c);
      DiskZero(k.threads, ch, k.semas[DiskSema(c)].value, c);
      assert TaskInv(k1);
      WaitUp(k1, DiskSema(c), t);
    }
  }

  /** Every timer interrupt and every rescheduling lowers the bound of a thread that stays ready;
      only an unblocked thread raises it, by at most its slice and one. */
  lemma WaitStep(k: State, a: Action, t: Tid)
    requires Inv(k) && Enabled(k, a) && Step(k, a).Done? && Pointers(Step(k, a).value.sched)
    requires t in k.sched.ready && t in Step(k, a).value.sched.ready
    ensures WaitBound(Step(k, a).value.sched, t) + Bit(Progress(k, a)) <= WaitBound(k.sched, t) + Overtake(k, a)
  {
    hide LocksInv, ChannelsInv, SemasInv, DepthsOk, PcsOk, IdsOk, SchedInv, Ahead,
         ThreadYield, ThreadBlock, ThreadUnblock, TimerTick, ThreadStart, SemaUp, SemaDown, LockMove;
    match a
    case Tick => WaitTick(k.sched, t);
    case Yield => WaitYield(k.sched, t);
    case Sleep(st) => WaitBlock(k.sched, st, t);
    case Wake(u) => WaitUnblock(k.sched, u, t);
    case Spawn(u, prio) => WaitStart(k.sched, u, prio, t);
    case DiskIntr(c) => WaitDisk(k, c, t);
    case Advance => WaitAdvance(k, t);
    case BeginAcquire(l) => WaitSame(k, a);
    case BeginRelease(l) => WaitSame(k, a);
    case BeginCommand(c) => WaitSame(k, a);
  }

  /** The number of timer interrupts and reschedulings in the first `n` steps of a run. */
  ghost function Elapsed(trace: seq<State>, acts: seq<Action>, n: nat): nat
    requires IsRun(trace, acts) && n <= |acts|
  {
    if n == 0 then 0 else Elapsed(trace, acts, n - 1) + Bit(Progress(trace[n - 1], acts[n - 1]))
  }

  /** The slices, plus one each, of the threads unblocked in the first `n` steps of a run. */
  ghost function Overtaken(trace: seq<State>, acts: seq<Action>, n: nat): nat
    requires IsRun(trace, acts) && n <= |acts|
  {
    if n == 0 then 0 else Overtaken(trace, acts, n - 1) + Overtake(trace[n - 1], acts[n - 1])
  }

  lemma {:induction false} WaitRun(trace: seq<State>, acts: seq<Action>, t: Tid, n: nat)
    requires IsRun(trace, acts) && Inv(trace[0]) && n <= |acts|
    requires forall i :: 0 <= i <= n ==> t in trace[i].sched.ready
    ensures Pointers(trace[0].sched) && Pointers(trace[n].sched)
    ensures WaitBound(trace[n].sched, t) + Elapsed(trace, acts, n)
            <= WaitBound(trace[0].sched, t) + Overtaken(trace, acts, n)
  {
    hide LocksInv, ChannelsInv, SemasInv, DepthsOk, PcsOk, IdsOk, Enabled, Step, WaitBound, Progress, Overtake;
    RunInv(trace, acts, n);
    if n > 0 {
      WaitRun(trace, acts, t, n - 1);
      RunInv(trace, acts, n - 1);
      WaitStep(trace[n - 1], acts[n - 1], t);
    }
  }

  /** Bounded waiting: while a thread stays ready, the timer interrupts and reschedulings number less
      than its initial bound plus the slices, each plus one, of the threads unblocked meanwhile. */
  lemma BoundedWaiting(trace: seq<State>, acts: seq<Action>, t: Tid)
    requires IsRun(trace, acts) && Reachable(trace[0])
    requires forall k :: k in trace ==> t in k.sched.ready
    ensures Pointers(trace[0].sched)
    ensures Elapsed(trace, acts, |acts|) < WaitBound(trace[0].sched, t) + Overtaken(trace, acts, |acts|)
  {
    hide Inv, Reachable, Enabled, Step, Elapsed, Overtaken;
    ReachableInv(trace[0]);
    WaitRun(trace, acts, t, |acts|);
  }
}
