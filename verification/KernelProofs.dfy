/**
 Every step from a state satisfying the invariant of `Kernel` is free of failed assertions and
 leads to a state satisfying it again.
 */
module KernelProofs {
  import opened Common
  import opened Scheduler
  import opened Kernel

  // ---------------------------------------------------------------------------------------
  // What a change of one thread leaves alone
  // ---------------------------------------------------------------------------------------

  lemma SemasFrame(tasks: map<Tid, Task>, threads: map<Tid, Thread>,
                   tasks': map<Tid, Task>, threads': map<Tid, Thread>, semas: map<SemaId, Sema>)
    requires SemasInv(tasks, threads, semas)
    requires forall s, t :: Parked(tasks', threads', s, t) <==> Parked(tasks, threads, s, t)
    requires forall s, t :: Woken(tasks, threads, s, t) ==> Woken(tasks', threads', s, t)
    ensures SemasInv(tasks', threads', semas)
  {
    forall s | s in semas
      ensures SemaInv(tasks', threads', semas[s], s)
    {
      assert SemaInv(tasks, threads, semas[s], s);
    }
  }

  /** Seen from lock `l`, `th` and `th'` are at the same place. */
  ghost predicate SameAtLock(th: Thread, th': Thread, l: LockId) {
    && InSection(th', l) == InSection(th, l)
    && Owns(th', l) == Owns(th, l)
    && Repeat(th', l) == Repeat(th, l)
  }

  lemma LockFrame(threads: map<Tid, Thread>, me: Tid, th: Thread, lk: Lock, value: nat, l: LockId)
    requires me in threads && LockInv(threads, lk, value, l) && SameAtLock(threads[me], th, l)
    ensures LockInv(threads[me := th], lk, value, l)
  {
    var threads' := threads[me := th];
    if t :| t in threads && InSection(threads[t], l) {
      assert InSection(threads'[t], l);
    }
  }

  /** The running thread moves at lock `l` only. */
  lemma LocksMove(threads: map<Tid, Thread>, me: Tid, th: Thread, locks: map<LockId, Lock>, semas: map<SemaId, Sema>,
                  semas': map<SemaId, Sema>, l: LockId, lk: Lock)
    requires LocksInv(threads, locks, semas) && me in threads && l in locks
    requires forall m :: m in locks && m != l ==> SameAtLock(threads[me], th, m)
    requires semas'.Keys == semas.Keys
    requires forall m :: m in locks && m != l && LockSema(m) in semas ==>
               semas'[LockSema(m)].value == semas[LockSema(m)].value
    requires LockSema(l) in semas' && LockInv(threads[me := th], lk, semas'[LockSema(l)].value, l)
    ensures LocksInv(threads[me := th], locks[l := lk], semas')
  {
    hide LockInv, SameAtLock;
    forall m | m in locks && m != l
      ensures LockSema(m) in semas' && LockInv(threads[me := th], locks[m], semas'[LockSema(m)].value, m)
    {
      LockFrame(threads, me, th, locks[m], semas[LockSema(m)].value, m);
    }
  }

  /** The running thread moves at no lock. */
  lemma LocksFrame(threads: map<Tid, Thread>, me: Tid, th: Thread, locks: map<LockId, Lock>, semas: map<SemaId, Sema>,
                   semas': map<SemaId, Sema>)
    requires LocksInv(threads, locks, semas) && me in threads
    requires forall m :: m in locks ==> SameAtLock(threads[me], th, m)
    requires semas'.Keys == semas.Keys
    requires forall m :: m in locks && LockSema(m) in semas ==> semas'[LockSema(m)].value == semas[LockSema(m)].value
    ensures LocksInv(threads[me := th], locks, semas')
  {
    hide LockInv, SameAtLock;
    forall m | m in locks
      ensures LockSema(m) in semas' && LockInv(threads[me := th], locks[m], semas'[LockSema(m)].value, m)
    {
      LockFrame(threads, me, th, locks[m], semas[LockSema(m)].value, m);
    }
  }

  lemma ChannelFrame(threads: map<Tid, Thread>, me: Tid, th: Thread, ch: Channel, done: nat, c: ChannelId)
    requires me in threads && ChannelInv(threads, ch, done, c)
    requires Pending(th, c) == Pending(threads[me], c)
    requires Pending(th, c) ==> Depth(th, ch.lock) > 0
    ensures ChannelInv(threads[me := th], ch, done, c)
  {
    var threads' := threads[me := th];
    if t :| t in threads && Pending(threads[t], c) {
      assert Pending(threads'[t], c);
    }
  }

  /** The running thread moves at no channel but `only`, if that is given. */
  lemma ChannelsMove(threads: map<Tid, Thread>, me: Tid, th: Thread, channels: map<ChannelId, Channel>,
                     channels': map<ChannelId, Channel>, locks: set<LockId>,
                     semas: map<SemaId, Sema>, semas': map<SemaId, Sema>, only: Option<ChannelId>)
    requires ChannelsInv(threads, channels, locks, semas) && me in threads
    requires semas'.Keys == semas.Keys && channels'.Keys == channels.Keys
    requires forall c :: c in channels && Some(c) != only ==>
      && channels'[c] == channels[c]
      && (DiskSema(c) in semas ==> semas'[DiskSema(c)].value == semas[DiskSema(c)].value)
      && Pending(th, c) == Pending(threads[me], c)
      && (Pending(th, c) ==> Depth(th, channels[c].lock) > 0)
    requires only.Some? && only.value in channels ==>
      && channels'[only.value].lock == channels[only.value].lock && DiskSema(only.value) in semas'
      && ChannelInv(threads[me := th], channels'[only.value], semas'[DiskSema(only.value)].value, only.value)
    ensures ChannelsInv(threads[me := th], channels', locks, semas')
  {
    hide ChannelInv, Pending;
    forall c | c in channels
      ensures DiskSema(c) in semas' && channels'[c].lock in locks
      ensures ChannelInv(threads[me := th], channels'[c], semas'[DiskSema(c)].value, c)
    {
      if Some(c) != only {
        ChannelFrame(threads, me, th, channels[c], semas[DiskSema(c)].value, c);
      }
    }
  }

  // ---------------------------------------------------------------------------------------
  // Steps that only change the scheduler
  // ---------------------------------------------------------------------------------------

  /** Threads inside `sema_down` are blocked, ready or running. */
  ghost predicate InLoopOk(threads: map<Tid, Thread>, s: Sched) {
    forall t :: t in threads && t in s.tasks && threads[t].pc.Retest? ==>
      !s.tasks[t].status.Waiting? && !s.tasks[t].status.Hanging? && !s.tasks[t].status.Died?
  }

  /** Threads inside `sema_down` stay as blocked, or as awake, as they were. */
  ghost predicate SameWaiting(threads: map<Tid, Thread>, s: Sched, s': Sched) {
    && s'.idle == s.idle
    && s'.tasks.Keys == s.tasks.Keys
    && InLoopOk(threads, s')
    && forall t :: t in threads && t in s.tasks && threads[t].pc.Retest? ==>
      s'.tasks[t].status.Blocked? == s.tasks[t].status.Blocked?
  }

  lemma SameWaitingSemas(threads: map<Tid, Thread>, s: Sched, s': Sched, semas: map<SemaId, Sema>)
    requires SemasInv(s.tasks, threads, semas) && SameWaiting(threads, s, s')
    ensures SemasInv(s'.tasks, threads, semas)
  {
    SemasFrame(s.tasks, threads, s'.tasks, threads, semas);
  }

  lemma SchedStepKeeps(k: State, s': Sched)
    requires Inv(k) && SchedInv(s') && SameWaiting(k.threads, k.sched, s')
    ensures Resume(k, Done(s')).Done? && Inv(Resume(k, Done(s')).value)
  {
    hide SemasInv, DepthsOk, LocksInv, ChannelsInv, PcsOk, IdsOk;
    SameWaitingSemas(k.threads, k.sched, s', k.semas);
  }

  lemma TickWaiting(threads: map<Tid, Thread>, s: Sched)
    requires SchedInv(s) && InLoopOk(threads, s)
    ensures TimerTick(s).Done? && SchedInv(TimerTick(s).value) && SameWaiting(threads, s, TimerTick(s).value)
  {
    hide TimerTick;
    TickKeeps(s);
  }

  lemma YieldWaiting(threads: map<Tid, Thread>, s: Sched)
    requires SchedInv(s) && InLoopOk(threads, s)
    ensures ThreadYield(s).Done? && SchedInv(ThreadYield(s).value) && SameWaiting(threads, s, ThreadYield(s).value)
  {
    hide ThreadYield;
    YieldKeeps(s);
  }

  lemma BlockWaiting(threads: map<Tid, Thread>, s: Sched, st: Status)
    requires SchedInv(s) && InLoopOk(threads, s) && Sleeping(st)
    requires s.cur in threads && s.idle in threads && threads[s.cur].pc.Free? && threads[s.idle].pc.Free?
    ensures ThreadBlock(s, st).Done? && SchedInv(ThreadBlock(s, st).value)
    ensures SameWaiting(threads, s, ThreadBlock(s, st).value)
  {
    hide ThreadBlock;
    BlockKeeps(s, st);
  }

  lemma UnblockWaiting(threads: map<Tid, Thread>, s: Sched, t: Tid)
    requires SchedInv(s) && InLoopOk(threads, s) && t in s.tasks && Sleeping(s.tasks[t].status)
    requires t in threads && threads[t].pc.Free?
    ensures ThreadUnblock(s, t).Done? && SchedInv(ThreadUnblock(s, t).value)
    ensures SameWaiting(threads, s, ThreadUnblock(s, t).value)
  {
    hide ThreadUnblock;
    UnblockKeeps(s, t);
  }

  lemma TickStepKeeps(k: State)
    requires Inv(k) && Enabled(k, Tick)
    ensures Step(k, Tick).Done? && Inv(Step(k, Tick).value)
  {
    hide SemasInv, DepthsOk, LocksInv, ChannelsInv, TimerTick, SameWaiting;
    TickWaiting(k.threads, k.sched);
    SchedStepKeeps(k, TimerTick(k.sched).value);
  }

  lemma YieldStepKeeps(k: State)
    requires Inv(k) && Enabled(k, Yield)
    ensures Step(k, Yield).Done? && Inv(Step(k, Yield).value)
  {
    hide SemasInv, DepthsOk, LocksInv, ChannelsInv, ThreadYield, SameWaiting;
    YieldWaiting(k.threads, k.sched);
    SchedStepKeeps(k, ThreadYield(k.sched).value);
  }

  lemma SleepStepKeeps(k: State, st: Status)
    requires Inv(k) && Enabled(k, Sleep(st))
    ensures Step(k, Sleep(st)).Done? && Inv(Step(k, Sleep(st)).value)
  {
    hide SemasInv, DepthsOk, LocksInv, ChannelsInv, ThreadBlock, SameWaiting;
    BlockWaiting(k.threads, k.sched, st);
    SchedStepKeeps(k, ThreadBlock(k.sched, st).value);
  }

  lemma WakeStepKeeps(k: State, t: Tid)
    requires Inv(k) && Enabled(k, Wake(t))
    ensures Step(k, Wake(t)).Done? && Inv(Step(k, Wake(t)).value)
  {
    hide SemasInv, DepthsOk, LocksInv, ChannelsInv, ThreadUnblock, SameWaiting;
    UnblockWaiting(k.threads, k.sched, t);
    SchedStepKeeps(k, ThreadUnblock(k.sched, t).value);
  }

  lemma SpawnLock(threads: map<Tid, Thread>, t: Tid, lk: Lock, value: nat, l: LockId)
    requires t !in threads && LockInv(threads, lk, value, l)
    ensures LockInv(threads[t := Thread(Free, map[])], lk, value, l)
  {
    var threads' := threads[t := Thread(Free, map[])];
    if u :| u in threads && InSection(threads[u], l) {
      assert InSection(threads'[u], l);
    }
  }

  lemma SpawnChannel(threads: map<Tid, Thread>, t: Tid, ch: Channel, done: nat, c: ChannelId)
    requires t !in threads && ChannelInv(threads, ch, done, c)
    ensures ChannelInv(threads[t := Thread(Free, map[])], ch, done, c)
  {
    var threads' := threads[t := Thread(Free, map[])];
    if u :| u in threads && Pending(threads[u], c) {
      assert Pending(threads'[u], c);
    }
  }

  /** A new thread is at no lock and no channel. */
  lemma SpawnFrame(threads: map<Tid, Thread>, t: Tid, locks: map<LockId, Lock>, semas: map<SemaId, Sema>,
                   channels: map<ChannelId, Channel>)
    requires t !in threads && LocksInv(threads, locks, semas) && ChannelsInv(threads, channels, locks.Keys, semas)
    ensures LocksInv(threads[t := Thread(Free, map[])], locks, semas)
    ensures ChannelsInv(threads[t := Thread(Free, map[])], channels, locks.Keys, semas)
  {
    hide LockInv, ChannelInv;
    forall l | l in locks
      ensures LockInv(threads[t := Thread(Free, map[])], locks[l], semas[LockSema(l)].value, l)
    {
      SpawnLock(threads, t, locks[l], semas[LockSema(l)].value, l);
    }
    forall c | c in channels
      ensures ChannelInv(threads[t := Thread(Free, map[])], channels[c], semas[DiskSema(c)].value, c)
    {
      SpawnChannel(threads, t, channels[c], semas[DiskSema(c)].value, c);
    }
  }

  lemma SpawnTasks(tasks: map<Tid, Task>, threads: map<Tid, Thread>, t: Tid, task: Task, semas: map<SemaId, Sema>)
    requires SemasInv(tasks, threads, semas) && t !in tasks && t !in threads
    ensures SemasInv(tasks[t := task], threads[t := Thread(Free, map[])], semas)
  {
    hide SemasInv;
    SemasFrame(tasks, threads, tasks[t := task], threads[t := Thread(Free, map[])], semas);
  }

  lemma SpawnTaskInv(k: State, t: Tid, prio: nat)
    requires TaskInv(k) && Enabled(k, Spawn(t, prio))
    ensures Step(k, Spawn(t, prio)).Done? && TaskInv(Step(k, Spawn(t, prio)).value)
  {
    hide IdsOk, QueueInv;
    StartKeeps(k.sched, t, prio);
    var k' := Step(k, Spawn(t, prio)).value;
    assert PcsOk(k'.threads, k.semas.Keys, k.locks.Keys, k.channels.Keys);
  }

  lemma SpawnStepKeeps(k: State, t: Tid, prio: nat)
    requires Inv(k) && Enabled(k, Spawn(t, prio))
    ensures Step(k, Spawn(t, prio)).Done? && Inv(Step(k, Spawn(t, prio)).value)
  {
    hide SemasInv, LocksInv, ChannelsInv, SchedInv, TaskInv, DepthOk;
    SpawnTaskInv(k, t, prio);
    assert t !in k.threads;
    SpawnFrame(k.threads, t, k.locks, k.semas, k.channels);
    SpawnTasks(k.sched.tasks, k.threads, t, Task(Ready, prio % 256, prio % 256), k.semas);
    assert DepthOk(Thread(Free, map[])) by { FreshDepth(); }
  }

  lemma FreshDepth()
    ensures DepthOk(Thread(Free, map[]))
  {
  }

  // ---------------------------------------------------------------------------------------
  // Steps in which the running thread moves on without rescheduling
  // ---------------------------------------------------------------------------------------

  /** In `k'` the running thread has moved to `th`; tasks and semaphores are those of `k`. */
  ghost predicate Moves(k: State, k': State, th: Thread) {
    && k.sched.cur in k.threads
    && k'.threads == k.threads[k.sched.cur := th]
    && k'.sched == k.sched && k'.semas == k.semas
    && k'.locks.Keys == k.locks.Keys && k'.channels.Keys == k.channels.Keys
    && !th.pc.Retest? && !k.threads[k.sched.cur].pc.Retest?
    && PcOk(th.pc, k.semas.Keys, k.locks.Keys, k.channels.Keys)
    && (k.sched.cur == k.sched.idle ==> th.pc.Free?)
    && DepthOk(th)
  }

  lemma SemasMove(tasks: map<Tid, Task>, threads: map<Tid, Thread>, me: Tid, th: Thread, semas: map<SemaId, Sema>)
    requires SemasInv(tasks, threads, semas) && me in threads
    requires !threads[me].pc.Retest? && !th.pc.Retest?
    ensures SemasInv(tasks, threads[me := th], semas)
  {
    hide SemasInv;
    SemasFrame(tasks, threads, tasks, threads[me := th], semas);
  }

  lemma MovesKeeps(k: State, k': State, th: Thread)
    requires Inv(k) && Moves(k, k', th)
    requires LocksInv(k'.threads, k'.locks, k'.semas) && ChannelsInv(k'.threads, k'.channels, k'.locks.Keys, k'.semas)
    ensures Inv(k')
  {
    hide SemasInv, LocksInv, ChannelsInv, SchedInv, PcOk, DepthOk, IdsOk;
    SemasMove(k.sched.tasks, k.threads, k.sched.cur, th, k.semas);
  }

  /** The program counter is inside `lock_acquire` or `lock_release` of `l`. */
  predicate AtLock(pc: Pc, l: LockId) {
    match pc
    case Free => false
    case Down(s) => false
    case Retest(s) => false
    case _ => pc.l == l
  }

  lemma GetLock(k: State, l: LockId)
    requires Inv(k) && l in k.locks
    ensures LockSema(l) in k.semas && LockInv(k.threads, k.locks[l], k.semas[LockSema(l)].value, l)
  {
    hide TaskInv, SemasInv, LockInv, ChannelsInv, DepthsOk;
  }

  lemma GetChannel(k: State, c: ChannelId)
    requires Inv(k) && c in k.channels
    ensures DiskSema(c) in k.semas && k.channels[c].lock in k.locks
    ensures ChannelInv(k.threads, k.channels[c], k.semas[DiskSema(c)].value, c)
  {
    hide TaskInv, SemasInv, LocksInv, ChannelInv, DepthsOk;
  }

  /** A step of `lock_acquire` or `lock_release` on `l` other than the semaphore operations. */
  lemma LockMoveKeeps(k: State, k': State, th: Thread, l: LockId, lk: Lock)
    requires Inv(k) && Moves(k, k', th) && l in k.locks
    requires k'.channels == k.channels && k'.locks == k.locks[l := lk]
    requires forall m :: m != l ==> SameAtLock(k.threads[k.sched.cur], th, m)
    requires LockSema(l) in k.semas && LockInv(k'.threads, lk, k.semas[LockSema(l)].value, l)
    requires forall c :: !Pending(th, c) && !Pending(k.threads[k.sched.cur], c)
    ensures Inv(k')
  {
    hide TaskInv, SemasInv, LockInv, ChannelInv, DepthsOk, SameAtLock;
    LocksMove(k.threads, k.sched.cur, th, k.locks, k.semas, k.semas, l, lk);
    ChannelsMove(k.threads, k.sched.cur, th, k.channels, k.channels, k.locks.Keys, k.semas, k.semas, None);
    MovesKeeps(k, k', th);
  }

  /** Entering `lock_acquire`, `lock_release` or `sema_down` from ordinary code changes nothing that a
      lock can see. */
  lemma EnterEffect(th: Thread, pc: Pc)
    requires th.pc.Free? && (pc.Down? || pc.AcqAgain? || pc.RelTest?)
    ensures forall m :: SameAtLock(th, th.(pc := pc), m)
  {
  }

  lemma EnterLockKeeps(k: State, l: LockId, pc: Pc)
    requires Inv(k) && l in k.locks && Me(k).pc.Free? && k.sched.cur != k.sched.idle
    requires pc == Down(LockSema(l)) || pc == AcqAgain(l) || pc == RelTest(l)
    requires DepthOk(Me(k).(pc := pc))
    ensures Inv(SetMe(k, Me(k).(pc := pc)))
  {
    hide SemasInv, ChannelsInv, LocksInv, LockInv, DepthsOk, SchedInv, InSection, Owns, Repeat, DepthOk, SameAtLock;
    GetLock(k, l);
    var th := Me(k).(pc := pc);
    EnterEffect(Me(k), pc);
    LockFrame(k.threads, k.sched.cur, th, k.locks[l], k.semas[LockSema(l)].value, l);
    LockMoveKeeps(k, SetMe(k, th), th, l, k.locks[l]);
  }

  /** The lock record tells a thread outside `lock_acquire` and `lock_release` its own depth. */
  lemma HolderDepth(threads: map<Tid, Thread>, me: Tid, lk: Lock, value: nat, l: LockId)
    requires me in threads && LockInv(threads, lk, value, l) && threads[me].pc.Free?
    ensures lk.holder == Some(me) <==> Depth(threads[me], l) > 0
    ensures Depth(threads[me], l) > 0 ==> lk.repeat == Depth(threads[me], l)
  {
    if Depth(threads[me], l) > 0 {
      assert InSection(threads[me], l) && Owns(threads[me], l);
    }
  }

  lemma AcquireKeeps(k: State, l: LockId)
    requires Inv(k) && Enabled(k, BeginAcquire(l))
    ensures Step(k, BeginAcquire(l)).Done? && Inv(Step(k, BeginAcquire(l)).value)
  {
    hide SemasInv, ChannelsInv, LocksInv, LockInv, DepthsOk, SchedInv;
    GetLock(k, l);
    HolderDepth(k.threads, k.sched.cur, k.locks[l], k.semas[LockSema(l)].value, l);
    EnterLockKeeps(k, l, if k.locks[l].holder != Some(k.sched.cur) then Down(LockSema(l)) else AcqAgain(l));
  }

  lemma ReleaseKeeps(k: State, l: LockId)
    requires Inv(k) && Enabled(k, BeginRelease(l))
    ensures Step(k, BeginRelease(l)).Done? && Inv(Step(k, BeginRelease(l)).value)
  {
    hide SemasInv, ChannelsInv, LocksInv, LockInv, DepthsOk, SchedInv;
    GetLock(k, l);
    HolderDepth(k.threads, k.sched.cur, k.locks[l], k.semas[LockSema(l)].value, l);
    EnterLockKeeps(k, l, RelTest(l));
  }

  /** The thread in the section of `l` moves inside it, together with `holder` and `holder_repeat_nr`. */
  lemma SectionMove(threads: map<Tid, Thread>, me: Tid, th: Thread, lk: Lock, lk': Lock, value: nat, l: LockId)
    requires me in threads && LockInv(threads, lk, value, l) && InSection(threads[me], l) && InSection(th, l)
    requires lk'.repeat == Repeat(th, l)
    requires lk'.holder == if Owns(th, l) then Some(me) else None
    ensures LockInv(threads[me := th], lk', value, l)
  {
    var threads' := threads[me := th];
    assert InSection(threads'[me], l);
    assert forall t :: t in threads && t != me ==> !InSection(threads'[t], l) && !Owns(threads'[t], l);
  }

  /** In the section the lock record is what the position of the thread says. */
  lemma SectionRecord(threads: map<Tid, Thread>, me: Tid, lk: Lock, value: nat, l: LockId)
    requires me in threads && LockInv(threads, lk, value, l) && InSection(threads[me], l)
    ensures lk == Lock(if Owns(threads[me], l) then Some(me) else None, Repeat(threads[me], l)) && value != 1
  {
  }

  /** What the steps of `LockMove` do to the thread and the lock record. */
  lemma LockMoveEffect(me: Tid, th: Thread, lk: Lock, l: LockId)
    requires AtLock(th.pc, l) && !th.pc.RelUp? && DepthOk(th)
    requires lk == Lock(if Owns(th, l) then Some(me) else None, Repeat(th, l))
    ensures InSection(th, l) && LockMove(me, th, lk).Done?
    ensures var (th', lk') := LockMove(me, th, lk).value;
            && lk' == Lock(if Owns(th', l) then Some(me) else None, Repeat(th', l))
            && InSection(th', l) && DepthOk(th') && (th'.pc.Free? || AtLock(th'.pc, l))
            && (forall m :: m != l ==> SameAtLock(th, th', m))
  {
  }

  lemma LockAdvanceKeeps(k: State, l: LockId)
    requires Inv(k) && Enabled(k, Advance) && AtLock(Me(k).pc, l) && !Me(k).pc.RelUp?
    ensures Step(k, Advance).Done? && Inv(Step(k, Advance).value)
  {
    hide SemasInv, ChannelsInv, LocksInv, SchedInv, LockInv, InSection, Owns, Repeat, DepthOk, SameAtLock;
    var me := k.sched.cur;
    GetLock(k, l);
    assert DepthOk(Me(k));
    hide DepthsOk;
    assert InSection(Me(k), l) by { AtLockInSection(Me(k), l); }
    SectionRecord(k.threads, me, k.locks[l], k.semas[LockSema(l)].value, l);
    LockMoveEffect(me, Me(k), k.locks[l], l);
    hide LockMove;
    var k' := Step(k, Advance).value;
    var th := k'.threads[me];
    SectionMove(k.threads, me, th, k.locks[l], k'.locks[l], k.semas[LockSema(l)].value, l);
    LockMoveKeeps(k, k', th, l, k'.locks[l]);
  }

  lemma AtLockInSection(th: Thread, l: LockId)
    requires AtLock(th.pc, l) && DepthOk(th)
    ensures InSection(th, l)
  {
  }

  /** Only the holder of a channel's lock can be waiting on the channel. */
  lemma OnlyHolderWaits(threads: map<Tid, Thread>, me: Tid, ch: Channel, done: nat, c: ChannelId, lk: Lock, value: nat)
    requires LockInv(threads, lk, value, ch.lock) && ChannelInv(threads, ch, done, c)
    requires me in threads && Depth(threads[me], ch.lock) > 0
    ensures forall t :: t in threads && Pending(threads[t], c) ==> t == me
  {
    assert InSection(threads[me], ch.lock);
    forall t | t in threads && Pending(threads[t], c)
      ensures t == me
    {
      assert InSection(threads[t], ch.lock);
    }
  }

  lemma CommandChannel(threads: map<Tid, Thread>, me: Tid, th: Thread, ch: Channel, done: nat, c: ChannelId)
    requires me in threads && ChannelInv(threads, ch, done, c) && !Pending(threads[me], c)
    requires forall t :: t in threads && Pending(threads[t], c) ==> t == me
    requires Pending(th, c) && Depth(th, ch.lock) > 0
    ensures ChannelInv(threads[me := th], ch.(expecting := true, issued := ch.issued + 1), done, c)
  {
    assert Pending(threads[me := th][me], c);
  }

  lemma CommandKeeps(k: State, c: ChannelId)
    requires Inv(k) && Enabled(k, BeginCommand(c))
    ensures Step(k, BeginCommand(c)).Done? && Inv(Step(k, BeginCommand(c)).value)
  {
    hide SemasInv, LockInv, LocksInv, ChannelInv, ChannelsInv, DepthsOk, SchedInv;
    var me := k.sched.cur;
    var ch := k.channels[c];
    var k' := Step(k, BeginCommand(c)).value;
    var th := k'.threads[me];
    GetChannel(k, c);
    GetLock(k, ch.lock);
    OnlyHolderWaits(k.threads, me, ch, k.semas[DiskSema(c)].value, c, k.locks[ch.lock],
                    k.semas[LockSema(ch.lock)].value);
    CommandChannel(k.threads, me, th, ch, k.semas[DiskSema(c)].value, c);
    LocksFrame(k.threads, me, th, k.locks, k.semas, k.semas);
    ChannelsMove(k.threads, me, th, k.channels, k'.channels, k.locks.Keys, k.semas, k.semas, Some(c));
    MovesKeeps(k, k', th);
  }

  // ---------------------------------------------------------------------------------------
  // Semaphore operations
  // ---------------------------------------------------------------------------------------

  /** Threads other than `me` inside `sema_down` stay as blocked, or as awake, as they were. */
  ghost predicate SameOthers(threads: map<Tid, Thread>, tasks: map<Tid, Task>, tasks': map<Tid, Task>, me: Tid) {
    && tasks'.Keys == tasks.Keys
    && forall t :: t in threads && t in tasks && t != me && threads[t].pc.Retest? ==>
      && tasks'[t].status.Blocked? == tasks[t].status.Blocked?
      && !tasks'[t].status.Waiting? && !tasks'[t].status.Hanging? && !tasks'[t].status.Died?
  }

  lemma ParkOne(tasks: map<Tid, Task>, tasks': map<Tid, Task>, threads: map<Tid, Thread>, me: Tid, th: Thread,
                s: SemaId, sm: Sema, z: SemaId)
    requires SemaInv(tasks, threads, sm, z) && me in threads && me in tasks
    requires SameOthers(threads, tasks, tasks', me) && tasks[me].status.Running? && tasks'[me].status.Blocked?
    requires (threads[me].pc == Down(s) || threads[me].pc == Retest(s)) && th.pc == Retest(s)
    requires z == s ==> sm.value == 0
    ensures SemaInv(tasks', threads[me := th], if z == s then sm.(waiters := sm.waiters + [me]) else sm, z)
  {
    var threads' := threads[me := th];
    assert me !in sm.waiters;
    assert forall t :: t in sm.waiters + [me] <==> t in sm.waiters || t == me;
    assert forall t :: t != me ==> (Parked(tasks', threads', z, t) <==> Parked(tasks, threads, z, t));
    if z != s {
      if t :| Woken(tasks, threads, z, t) {
        assert Woken(tasks', threads', z, t);
      }
    }
  }

  lemma ParkSemas(tasks: map<Tid, Task>, tasks': map<Tid, Task>, threads: map<Tid, Thread>, me: Tid, th: Thread,
                  s: SemaId, semas: map<SemaId, Sema>)
    requires SemasInv(tasks, threads, semas) && me in threads && me in tasks && s in semas && semas[s].value == 0
    requires SameOthers(threads, tasks, tasks', me) && tasks[me].status.Running? && tasks'[me].status.Blocked?
    requires (threads[me].pc == Down(s) || threads[me].pc == Retest(s)) && th.pc == Retest(s)
    ensures SemasInv(tasks', threads[me := th], semas[s := semas[s].(waiters := semas[s].waiters + [me])])
    ensures me !in semas[s].waiters
  {
    assert SemaInv(tasks, threads, semas[s], s);
    assert me !in semas[s].waiters;
    hide SemaInv, SameOthers;
    forall z | z in semas
      ensures SemaInv(tasks', threads[me := th],
                      if z == s then semas[s].(waiters := semas[s].waiters + [me]) else semas[z], z)
    {
      ParkOne(tasks, tasks', threads, me, th, s, semas[z], z);
    }
  }

  /** What blocking in `sema_down` does to the scheduler. */
  lemma BlockOthers(threads: map<Tid, Thread>, s: Sched)
    requires SchedInv(s) && InLoopOk(threads, s)
    requires s.cur != s.idle && s.idle in threads && threads[s.idle].pc.Free?
    ensures ThreadBlock(s, Blocked).Done?
    ensures var s' := ThreadBlock(s, Blocked).value;
            && SchedInv(s') && Pointers(s') && s'.idle == s.idle && SameOthers(threads, s.tasks, s'.tasks, s.cur)
            && s'.cur != s.cur && s'.tasks[s.cur].status.Blocked?
  {
    hide ThreadBlock;
    BlockKeeps(s, Blocked);
  }

  /** `sema_down` on a zero semaphore keeps the thread's place at every lock and channel. */
  lemma LoopEffect(th: Thread, s: SemaId)
    requires th.pc == Down(s) || th.pc == Retest(s)
    ensures forall m :: SameAtLock(th, th.(pc := Retest(s)), m)
    ensures forall c :: Pending(th.(pc := Retest(s)), c) == Pending(th, c)
    ensures forall m :: Depth(th.(pc := Retest(s)), m) == Depth(th, m)
    ensures DepthOk(th) ==> DepthOk(th.(pc := Retest(s)))
  {
  }

  /** The task part of a blocking `sema_down`. */
  lemma DownBlocksTasks(k: State, s: SemaId)
    requires Inv(k) && s in k.semas && SemaOk(s, k.locks.Keys, k.channels.Keys) && k.semas[s].value == 0
    requires Me(k).pc == Down(s) || Me(k).pc == Retest(s)
    ensures SemaDown(k, s).Done?
    ensures var k' := SemaDown(k, s).value;
            && TaskInv(k') && SemasInv(k'.sched.tasks, k'.threads, k'.semas)
            && k'.threads == k.threads[k.sched.cur := Me(k).(pc := Retest(s))]
            && k'.semas == k.semas[s := k.semas[s].(waiters := k.semas[s].waiters + [k.sched.cur])]
            && k'.locks == k.locks && k'.channels == k.channels
  {
    hide LocksInv, ChannelsInv, DepthsOk, SemasInv, IdsOk, ThreadBlock, QueueInv;
    var me := k.sched.cur;
    assert InLoopOk(k.threads, k.sched) by { InLoop(k); }
    BlockOthers(k.threads, k.sched);
    var s' := ThreadBlock(k.sched, Blocked).value;
    FlagFree(s');
    ParkSemas(k.sched.tasks, s'.tasks, k.threads, me, Me(k).(pc := Retest(s)), s, k.semas);
    assert PcsOk(k.threads[me := Me(k).(pc := Retest(s))], k.semas.Keys, k.locks.Keys, k.channels.Keys);
    assert k.semas[s := k.semas[s].(waiters := k.semas[s].waiters + [me])].Keys == k.semas.Keys;
  }

  /** The interrupt flag plays no part in the scheduler's invariant. */
  lemma FlagFree(s: Sched)
    requires SchedInv(s)
    ensures Pointers(s) && SchedInv(s.(intrOn := true)) && SchedInv(s.(intrOn := false))
  {
  }

  lemma InLoop(k: State)
    requires TaskInv(k)
    ensures InLoopOk(k.threads, k.sched)
  {
  }

  lemma DownBlocks(k: State, s: SemaId)
    requires Inv(k) && s in k.semas && SemaOk(s, k.locks.Keys, k.channels.Keys) && k.semas[s].value == 0
    requires Me(k).pc == Down(s) || Me(k).pc == Retest(s)
    ensures SemaDown(k, s).Done? && Inv(SemaDown(k, s).value)
  {
    hide LockInv, ChannelInv, SemasInv, SchedInv, SameAtLock, DepthOk, Pending, Depth, SemaDown;
    var me := k.sched.cur;
    var th := Me(k).(pc := Retest(s));
    DownBlocksTasks(k, s);
    hide TaskInv;
    LoopEffect(Me(k), s);
    var k' := SemaDown(k, s).value;
    LocksFrame(k.threads, me, th, k.locks, k.semas, k'.semas);
    assert forall c :: c in k.channels && Pending(Me(k), c) ==> Depth(Me(k), k.channels[c].lock) > 0 by {
      PendingDepth(k.threads, me, k.channels, k.locks.Keys, k.semas);
    }
    ChannelsMove(k.threads, me, th, k.channels, k.channels, k.locks.Keys, k.semas, k'.semas, None);
  }

  lemma PendingDepth(threads: map<Tid, Thread>, me: Tid, channels: map<ChannelId, Channel>, locks: set<LockId>,
                     semas: map<SemaId, Sema>)
    requires ChannelsInv(threads, channels, locks, semas) && me in threads
    ensures forall c :: c in channels && Pending(threads[me], c) ==> Depth(threads[me], channels[c].lock) > 0
  {
  }

  // A successful sema_down

  lemma TakeOne(tasks: map<Tid, Task>, threads: map<Tid, Thread>, me: Tid, th: Thread, s: SemaId, sm: Sema, z: SemaId)
    requires SemaInv(tasks, threads, sm, z) && me in threads && me in tasks && tasks[me].status.Running?
    requires (threads[me].pc == Down(s) || threads[me].pc == Retest(s)) && !th.pc.Retest?
    ensures SemaInv(tasks, threads[me := th], if z == s then sm.(value := 0) else sm, z)
  {
    var threads' := threads[me := th];
    assert forall t :: Parked(tasks, threads', z, t) <==> Parked(tasks, threads, z, t);
    if z != s {
      if t :| Woken(tasks, threads, z, t) {
        assert Woken(tasks, threads', z, t);
      }
    }
  }

  lemma TakeSemas(tasks: map<Tid, Task>, threads: map<Tid, Thread>, me: Tid, th: Thread, s: SemaId,
                  semas: map<SemaId, Sema>)
    requires SemasInv(tasks, threads, semas) && me in threads && me in tasks && tasks[me].status.Running? && s in semas
    requires (threads[me].pc == Down(s) || threads[me].pc == Retest(s)) && !th.pc.Retest?
    ensures SemasInv(tasks, threads[me := th], semas[s := semas[s].(value := 0)])
    ensures semas[s].value <= 1
  {
    assert SemaInv(tasks, threads, semas[s], s);
    hide SemaInv;
    forall z | z in semas
      ensures SemaInv(tasks, threads[me := th], if z == s then semas[s].(value := 0) else semas[z], z)
    {
      TakeOne(tasks, threads, me, th, s, semas[z], z);
    }
  }

  /** The task part of a successful `sema_down`. */
  lemma DownTakesTasks(k: State, s: SemaId)
    requires Inv(k) && s in k.semas && SemaOk(s, k.locks.Keys, k.channels.Keys) && k.semas[s].value != 0
    requires Me(k).pc == Down(s) || Me(k).pc == Retest(s)
    ensures SemaDown(k, s).Done? && k.semas[s].value == 1
    ensures var k' := SemaDown(k, s).value;
            var th := Me(k).(pc := if s.LockSema? then AcqGot(s.l) else Free);
            && TaskInv(k') && SemasInv(k'.sched.tasks, k'.threads, k'.semas)
            && k'.threads == k.threads[k.sched.cur := th]
            && k'.semas == k.semas[s := k.semas[s].(value := 0)] && k'.locks == k.locks
            && (s.LockSema? ==> k'.channels == k.channels)
            && (s.DiskSema? ==>
                  k'.channels == k.channels[s.c := k.channels[s.c].(completed := k.channels[s.c].completed + 1)])
  {
    hide LocksInv, ChannelsInv, DepthsOk, SemasInv, IdsOk, QueueInv;
    var th := Me(k).(pc := if s.LockSema? then AcqGot(s.l) else Free);
    FlagFree(k.sched);
    TakeSemas(k.sched.tasks, k.threads, k.sched.cur, th, s, k.semas);
    assert PcsOk(k.threads[k.sched.cur := th], k.semas.Keys, k.locks.Keys, k.channels.Keys);
    assert k.semas[s := k.semas[s].(value := 0)].Keys == k.semas.Keys;
    if s.DiskSema? {
      assert k.channels[s.c := k.channels[s.c].(completed := k.channels[s.c].completed + 1)].Keys == k.channels.Keys;
    }
  }

  /** Taking the semaphore of `l` puts the thread in the section that was empty. */
  lemma TakeLock(threads: map<Tid, Thread>, me: Tid, th: Thread, lk: Lock, l: LockId)
    requires me in threads && LockInv(threads, lk, 1, l) && th.pc == AcqGot(l) && Depth(th, l) == 0
    ensures LockInv(threads[me := th], lk, 0, l)
  {
    var threads' := threads[me := th];
    assert InSection(threads'[me], l);
    assert forall t :: t in threads && t != me ==> !InSection(threads'[t], l);
  }

  lemma TakeEffect(th: Thread, s: SemaId)
    requires (th.pc == Down(s) || th.pc == Retest(s)) && DepthOk(th)
    ensures var th' := th.(pc := if s.LockSema? then AcqGot(s.l) else Free);
            && DepthOk(th')
            && (forall m :: s != LockSema(m) ==> SameAtLock(th, th', m))
            && (forall c :: s != DiskSema(c) ==> Pending(th', c) == Pending(th, c) == false)
            && (forall c :: !Pending(th', c))
            && (s.LockSema? ==> Depth(th', s.l) == 0)
  {
  }

  lemma DownTakesLock(k: State, l: LockId)
    requires Inv(k) && LockSema(l) in k.semas && l in k.locks && k.semas[LockSema(l)].value != 0
    requires Me(k).pc == Down(LockSema(l)) || Me(k).pc == Retest(LockSema(l))
    ensures SemaDown(k, LockSema(l)).Done? && Inv(SemaDown(k, LockSema(l)).value)
  {
    hide LockInv, ChannelInv, SemasInv, SchedInv, SameAtLock, DepthOk, Pending, Depth, SemaDown, LocksInv, ChannelsInv;
    var me := k.sched.cur;
    var th := Me(k).(pc := AcqGot(l));
    var semas' := k.semas[LockSema(l) := k.semas[LockSema(l)].(value := 0)];
    DownTakesTasks(k, LockSema(l));
    assert DepthOk(Me(k));
    hide TaskInv;
    TakeEffect(Me(k), LockSema(l));
    GetLock(k, l);
    TakeLock(k.threads, me, th, k.locks[l], l);
    assert k.locks == k.locks[l := k.locks[l]];
    LocksMove(k.threads, me, th, k.locks, k.semas, semas', l, k.locks[l]);
    ChannelsMove(k.threads, me, th, k.channels, k.channels, k.locks.Keys, k.semas, semas', None);
  }

  /** The one waiting thread returns from its wait and consumes the accepted interrupt. */
  lemma TakeDisk(threads: map<Tid, Thread>, me: Tid, th: Thread, ch: Channel, c: ChannelId)
    requires me in threads && ChannelInv(threads, ch, 1, c) && !Pending(th, c)
    requires forall t :: t in threads && Pending(threads[t], c) ==> t == me
    ensures ChannelInv(threads[me := th], ch.(completed := ch.completed + 1), 0, c)
  {
  }

  lemma DownTakesDisk(k: State, c: ChannelId)
    requires Inv(k) && DiskSema(c) in k.semas && c in k.channels && k.semas[DiskSema(c)].value != 0
    requires Me(k).pc == Down(DiskSema(c)) || Me(k).pc == Retest(DiskSema(c))
    ensures SemaDown(k, DiskSema(c)).Done? && Inv(SemaDown(k, DiskSema(c)).value)
  {
    hide LockInv, ChannelInv, SemasInv, SchedInv, SameAtLock, DepthOk, Depth, SemaDown, LocksInv, ChannelsInv;
    var me := k.sched.cur;
    var th := Me(k).(pc := Free);
    var ch := k.channels[c];
    var semas' := k.semas[DiskSema(c) := k.semas[DiskSema(c)].(value := 0)];
    DownTakesTasks(k, DiskSema(c));
    assert DepthOk(Me(k));
    hide TaskInv;
    TakeEffect(Me(k), DiskSema(c));
    GetChannel(k, c);
    GetLock(k, ch.lock);
    PendingDepth(k.threads, me, k.channels, k.locks.Keys, k.semas);
    OnlyHolderWaits(k.threads, me, ch, 1, c, k.locks[ch.lock], k.semas[LockSema(ch.lock)].value);
    TakeDisk(k.threads, me, th, ch, c);
    LocksFrame(k.threads, me, th, k.locks, k.semas, semas');
    ChannelsMove(k.threads, me, th, k.channels, k.channels[c := ch.(completed := ch.completed + 1)], k.locks.Keys,
                 k.semas, semas', Some(c));
  }

  // sema_up

  lemma UpOne(tasks: map<Tid, Task>, tasks': map<Tid, Task>, threads: map<Tid, Thread>, s: SemaId, sm: Sema, w: Tid,
              z: SemaId)
    requires SemaInv(tasks, threads, sm, z) && w in tasks && w in threads && threads[w].pc == Retest(s)
    requires tasks' == tasks[w := tasks[w].(status := Ready)] && tasks[w].status.Blocked?
    requires z == s ==> sm.waiters != [] && sm.waiters[0] == w
    ensures SemaInv(tasks', threads, if z == s then Sema(1, sm.waiters[1..]) else sm, z)
  {
    assert forall t :: t != w ==> (Parked(tasks', threads, z, t) <==> Parked(tasks, threads, z, t));
    assert forall t :: Woken(tasks, threads, z, t) ==> Woken(tasks', threads, z, t);
    if z == s {
      assert Woken(tasks', threads, z, w);
      assert sm.waiters == [w] + sm.waiters[1..];
      assert forall t :: t in sm.waiters <==> t == w || t in sm.waiters[1..];
      assert w !in sm.waiters[1..];
    } else {
      assert !Parked(tasks, threads, z, w);
    }
  }

  lemma UpSemas(s: Sched, threads: map<Tid, Thread>, z: SemaId, semas: map<SemaId, Sema>)
    requires SchedInv(s) && SemasInv(s.tasks, threads, semas) && z in semas && semas[z].waiters != []
    ensures var w := semas[z].waiters[0];
            && w in s.tasks && w in threads && threads[w].pc == Retest(z) && s.tasks[w].status.Blocked?
            && ThreadUnblock(s, w).Done?
            && var s' := ThreadUnblock(s, w).value;
               && SchedInv(s') && s'.cur == s.cur && s'.idle == s.idle && s'.intrOn == s.intrOn
               && s'.tasks == s.tasks[w := s.tasks[w].(status := Ready)]
               && SemasInv(s'.tasks, threads, semas[z := Sema(1, semas[z].waiters[1..])])
  {
    var w := semas[z].waiters[0];
    assert SemaInv(s.tasks, threads, semas[z], z);
    assert w in semas[z].waiters;
    assert Parked(s.tasks, threads, z, w);
    UnblockKeeps(s, w);
    var s' := ThreadUnblock(s, w).value;
    hide SemaInv, SchedInv;
    forall y | y in semas
      ensures SemaInv(s'.tasks, threads, if y == z then Sema(1, semas[z].waiters[1..]) else semas[y], y)
    {
      UpOne(s.tasks, s'.tasks, threads, z, semas[y], w, y);
    }
  }

  lemma UpSemasEmpty(tasks: map<Tid, Task>, threads: map<Tid, Thread>, z: SemaId, semas: map<SemaId, Sema>)
    requires SemasInv(tasks, threads, semas) && z in semas && semas[z].waiters == []
    ensures SemasInv(tasks, threads, semas[z := semas[z].(value := 1)])
  {
    assert SemaInv(tasks, threads, semas[z], z);
    assert SemaInv(tasks, threads, semas[z].(value := 1), z);
    hide SemaInv;
  }

  /** `sema_up` keeps the task lists in order and leaves a woken thread if any still wait. */
  lemma UpTasks(k: State, s: SemaId)
    requires TaskInv(k) && s in k.semas && k.semas[s].value == 0 && SemasInv(k.sched.tasks, k.threads, k.semas)
    ensures SemaUp(k, s).Done?
    ensures var k' := SemaUp(k, s).value;
            && TaskInv(k') && SemasInv(k'.sched.tasks, k'.threads, k'.semas)
            && k' == k.(sched := k'.sched, semas := k'.semas)
            && k'.semas == k.semas[s := k'.semas[s]] && k'.semas[s].value == 1
  {
    hide SemasInv, PcsOk, IdsOk, QueueInv;
    if k.semas[s].waiters != [] {
      UpSemas(k.sched, k.threads, s, k.semas);
      hide ThreadUnblock;
      FlagFree(ThreadUnblock(k.sched, k.semas[s].waiters[0]).value);
      assert k.semas[s := Sema(1, k.semas[s].waiters[1..])].Keys == k.semas.Keys;
    } else {
      UpSemasEmpty(k.sched.tasks, k.threads, s, k.semas);
      assert k.semas[s := k.semas[s].(value := 1)].Keys == k.semas.Keys;
    }
  }

  /** Leaving the section empties it. */
  lemma GiveLock(threads: map<Tid, Thread>, me: Tid, th: Thread, lk: Lock, value: nat, l: LockId)
    requires me in threads && LockInv(threads, lk, value, l) && threads[me].pc == RelUp(l) && InSection(threads[me], l)
    requires !InSection(th, l)
    ensures LockInv(threads[me := th], lk, 1, l)
  {
    var threads' := threads[me := th];
    assert forall t :: t in threads' ==> !InSection(threads'[t], l);
    SectionRecord(threads, me, lk, value, l);
  }

  lemma GiveEffect(th: Thread, l: LockId)
    requires th.pc == RelUp(l) && DepthOk(th)
    ensures var th' := Thread(Free, th.depth[l := 0]);
            && InSection(th, l) && !InSection(th', l) && DepthOk(th')
            && (forall m :: m != l ==> SameAtLock(th, th', m))
            && (forall c :: !Pending(th', c) && !Pending(th, c))
  {
  }

  lemma ZeroValue(k: State, s: SemaId)
    requires Inv(k) && s in k.semas && k.semas[s].value != 1
    ensures k.semas[s].value == 0
  {
    hide TaskInv, LocksInv, ChannelsInv;
    assert SemaInv(k.sched.tasks, k.threads, k.semas[s], s);
  }

  lemma ReleaseUpKeeps(k: State, l: LockId)
    requires Inv(k) && Enabled(k, Advance) && Me(k).pc == RelUp(l)
    ensures Step(k, Advance).Done? && Inv(Step(k, Advance).value)
  {
    hide LockInv, ChannelInv, SemasInv, SchedInv, SameAtLock, DepthOk, Pending, InSection, LocksInv, ChannelsInv,
         SemaUp;
    var me := k.sched.cur;
    var th := Thread(Free, Me(k).depth[l := 0]);
    var k1 := SetMe(k, th);
    assert DepthOk(Me(k));
    GiveEffect(Me(k), l);
    GetLock(k, l);
    SectionRecord(k.threads, me, k.locks[l], k.semas[LockSema(l)].value, l);
    ZeroValue(k, LockSema(l));
    SemasMove(k.sched.tasks, k.threads, me, th, k.semas);
    assert TaskInv(k1);
    UpTasks(k1, LockSema(l));
    hide TaskInv;
    var k' := SemaUp(k1, LockSema(l)).value;
    GiveLock(k.threads, me, th, k.locks[l], 0, l);
    assert k.locks == k.locks[l := k.locks[l]];
    LocksMove(k.threads, me, th, k.locks, k.semas, k'.semas, l, k.locks[l]);
    ChannelsMove(k.threads, me, th, k.channels, k.channels, k.locks.Keys, k.semas, k'.semas, None);
  }

  /** The handler turns the expectation into a unit of the semaphore. */
  lemma AcceptDisk(threads: map<Tid, Thread>, ch: Channel, c: ChannelId)
    requires ChannelInv(threads, ch, 0, c) && ch.expecting
    ensures ChannelInv(threads, ch.(expecting := false, accepted := ch.accepted + 1), 1, c)
  {
  }

  lemma DiskStepKeeps(k: State, c: ChannelId)
    requires Inv(k) && Enabled(k, DiskIntr(c))
    ensures Step(k, DiskIntr(c)).Done? && Inv(Step(k, DiskIntr(c)).value)
  {
    hide LockInv, ChannelInv, SemasInv, SchedInv, LocksInv, ChannelsInv, SemaUp, DepthsOk;
    var ch := k.channels[c];
    if ch.expecting {
      var me := k.sched.cur;
      var ch' := ch.(expecting := false, accepted := ch.accepted + 1);
      var k1 := k.(channels := k.channels[c := ch']);
      assert k1.channels.Keys == k.channels.Keys;
      GetChannel(k, c);
      DiskZero(k.threads, ch, k.semas[DiskSema(c)].value, c);
      assert TaskInv(k1);
      UpTasks(k1, DiskSema(c));
      hide TaskInv;
      AcceptDisk(k.threads, ch, c);
      var k' := SemaUp(k1, DiskSema(c)).value;
      assert k.threads == k.threads[me := k.threads[me]];
      LocksSame(k.threads, k.locks, k.semas, k'.semas);
      assert forall d :: d in k.channels && Pending(k.threads[me], d) ==>
               Depth(k.threads[me], k.channels[d].lock) > 0 by {
        PendingDepth(k.threads, me, k.channels, k.locks.Keys, k.semas);
      }
      ChannelsMove(k.threads, me, k.threads[me], k.channels, k'.channels, k.locks.Keys, k.semas, k'.semas, Some(c));
    }
  }

  lemma DiskZero(threads: map<Tid, Thread>, ch: Channel, done: nat, c: ChannelId)
    requires ChannelInv(threads, ch, done, c) && ch.expecting
    ensures done == 0
  {
  }

  lemma LocksSame(threads: map<Tid, Thread>, locks: map<LockId, Lock>, semas: map<SemaId, Sema>,
                  semas': map<SemaId, Sema>)
    requires LocksInv(threads, locks, semas) && semas'.Keys == semas.Keys
    requires forall m :: m in locks && LockSema(m) in semas ==> semas'[LockSema(m)].value == semas[LockSema(m)].value
    ensures LocksInv(threads, locks, semas')
  {
    hide LockInv;
  }

  /** No step trips an assertion, and every step keeps the invariant. */
  lemma StepKeeps(k: State, a: Action)
    requires Inv(k) && Enabled(k, a)
    ensures Step(k, a).Done? && Inv(Step(k, a).value)
  {
    match a
    case Tick => TickStepKeeps(k);
    case DiskIntr(c) => DiskStepKeeps(k, c);
    case Yield => YieldStepKeeps(k);
    case Sleep(st) => SleepStepKeeps(k, st);
    case Wake(t) => WakeStepKeeps(k, t);
    case Spawn(t, prio) => SpawnStepKeeps(k, t, prio);
    case BeginAcquire(l) => AcquireKeeps(k, l);
    case BeginRelease(l) => ReleaseKeeps(k, l);
    case BeginCommand(c) => CommandKeeps(k, c);
    case Advance => AdvanceKeeps(k);
  }

  lemma AdvanceKeeps(k: State)
    requires Inv(k) && Enabled(k, Advance)
    ensures Step(k, Advance).Done? && Inv(Step(k, Advance).value)
  {
    hide SemasInv, LocksInv, ChannelsInv, SchedInv, DepthsOk, SemaDown, SemaUp, LockMove;
    var pc := Me(k).pc;
    if pc.Down? || pc.Retest? {
      if k.semas[pc.s].value == 0 {
        DownBlocks(k, pc.s);
      } else if pc.s.LockSema? {
        DownTakesLock(k, pc.s.l);
      } else {
        DownTakesDisk(k, pc.s.c);
      }
    } else if pc.RelUp? {
      ReleaseUpKeeps(k, pc.l);
    } else {
      LockAdvanceKeeps(k, pc.l);
    }
  }
}
