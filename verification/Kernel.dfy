/**
 Threads, semaphores, reentrant locks and IDE channels as one preemptive step system
 (`thread/sync.c`, the command handshake of `device/ide.c`, on top of `Scheduler`).

 A thread is a program counter over the steps of `lock_acquire`, `lock_release`, `sema_down` and
 the command protocol.  A step is what runs without interruption: one access to a shared field
 while interrupts are on, or a whole section run with interrupts off.  A timer or disk interrupt
 may come between any two steps, except while the running thread is inside the loop of
 `sema_down`.  An `ASSERT` that fails makes the step `Panic`.
 */
module Kernel {
  import opened Common
  import opened Scheduler

  type LockId = nat
  type ChannelId = nat

  datatype SemaId = LockSema(l: LockId) | DiskSema(c: ChannelId)

  /** Where a thread is.  `Free` is ordinary code; in `Retest` the thread is inside the loop of
      `sema_down` with interrupts off. */
  datatype Pc =
    | Free
    | Down(s: SemaId)      // about to call sema_down
    | Retest(s: SemaId)    // in the loop of sema_down, after thread_block
    | AcqAgain(l: LockId)  // lock_acquire: already the holder, about to increment holder_repeat_nr
    | AcqGot(l: LockId)    // lock_acquire: sema_down returned, about to set holder
    | AcqCheck(l: LockId)  // lock_acquire: holder set, about to check holder_repeat_nr
    | AcqHeld(l: LockId)   // lock_acquire: about to set holder_repeat_nr
    | RelTest(l: LockId)   // lock_release: holder checked, about to test holder_repeat_nr
    | RelCheck(l: LockId)  // lock_release: not nested, about to check holder_repeat_nr
    | RelDec(l: LockId)    // lock_release: about to decrement holder_repeat_nr
    | RelClear(l: LockId)  // lock_release: about to clear holder
    | RelZero(l: LockId)   // lock_release: about to clear holder_repeat_nr
    | RelUp(l: LockId)     // lock_release: about to call sema_up

  /** `depth` counts, per lock, the acquisitions of the thread that it has not yet released. */
  datatype Thread = Thread(pc: Pc, depth: map<LockId, nat>)

  datatype Sema = Sema(value: nat, waiters: seq<Tid>)

  datatype Lock = Lock(holder: Option<Tid>, repeat: nat)

  /** `issued`, `accepted` and `completed` count the commands sent, the interrupts taken by the
      handler and the waits for the disk that have returned. */
  datatype Channel = Channel(lock: LockId, expecting: bool, issued: nat, accepted: nat, completed: nat)

  datatype State = State(
    sched: Sched,
    threads: map<Tid, Thread>,
    semas: map<SemaId, Sema>,
    locks: map<LockId, Lock>,
    channels: map<ChannelId, Channel>)

  datatype Action =
    | Tick
    | DiskIntr(c: ChannelId)
    | Yield
    | Sleep(st: Status)            // thread_block outside any semaphore
    | Wake(t: Tid)                 // thread_unblock of such a thread
    | Spawn(t: Tid, prio: nat)
    | BeginAcquire(l: LockId)
    | BeginRelease(l: LockId)
    | BeginCommand(c: ChannelId)
    | Advance                      // the running thread takes the step its program counter names

  /** `holder_repeat_nr` is a 32-bit counter. */
  const MAX_DEPTH := 0xFFFF_FFFF

  function Depth(th: Thread, l: LockId): nat {
    if l in th.depth then th.depth[l] else 0
  }

  function Bit(b: bool): nat {
    if b then 1 else 0
  }

  // ---------------------------------------------------------------------------------------
  // Steps
  // ---------------------------------------------------------------------------------------

  /** Pointers that the code dereferences denote something. */
  predicate Wf(k: State) {
    && Pointers(k.sched)
    && k.threads.Keys == k.sched.tasks.Keys
    && IdsOk(k.semas.Keys, k.locks.Keys, k.channels.Keys)
    && PcsOk(k.threads, k.semas.Keys, k.locks.Keys, k.channels.Keys)
  }

  /** Every lock and every channel has its semaphore. */
  predicate IdsOk(semas: set<SemaId>, locks: set<LockId>, channels: set<ChannelId>) {
    && (forall l :: l in locks ==> LockSema(l) in semas)
    && (forall c :: c in channels ==> DiskSema(c) in semas)
  }

  predicate PcsOk(threads: map<Tid, Thread>, semas: set<SemaId>, locks: set<LockId>, channels: set<ChannelId>) {
    forall t :: t in threads ==> PcOk(threads[t].pc, semas, locks, channels)
  }

  predicate PcOk(pc: Pc, semas: set<SemaId>, locks: set<LockId>, channels: set<ChannelId>) {
    match pc
    case Free => true
    case Down(s) => s in semas && SemaOk(s, locks, channels)
    case Retest(s) => s in semas && SemaOk(s, locks, channels)
    case _ => pc.l in locks
  }

  predicate SemaOk(s: SemaId, locks: set<LockId>, channels: set<ChannelId>) {
    match s
    case LockSema(l) => l in locks
    case DiskSema(c) => c in channels
  }

  function Me(k: State): (th: Thread)
    requires Wf(k)
  {
    k.threads[k.sched.cur]
  }

  function SetMe(k: State, th: Thread): State {
    k.(threads := k.threads[k.sched.cur := th])
  }

  /** A thread that comes back to the processor restores its own interrupt state. */
  function Resume(k: State, r: Outcome<Sched>): (o: Outcome<State>) {
    if r.Panic? then Panic
    else Done(k.(sched := r.value.(intrOn :=
                   r.value.cur in k.threads && !k.threads[r.value.cur].pc.Retest?)))
  }

  /** What follows a successful `sema_down`. */
  function AfterDown(k: State, s: SemaId): State
    requires Wf(k) && s in k.semas && SemaOk(s, k.locks.Keys, k.channels.Keys)
  {
    var on := k.(sched := k.sched.(intrOn := true));
    match s
    case LockSema(l) => SetMe(on, Me(k).(pc := AcqGot(l)))
    case DiskSema(c) =>
      var ch := k.channels[c];
      SetMe(on, Me(k).(pc := Free)).(channels := k.channels[c := ch.(completed := ch.completed + 1)])
  }

  /** One turn of the loop in `sema_down`, run with interrupts off. */
  function SemaDown(k: State, s: SemaId): (o: Outcome<State>)
    requires Wf(k) && s in k.semas && SemaOk(s, k.locks.Keys, k.channels.Keys)
  {
    var sm := k.semas[s];
    var me := k.sched.cur;
    if sm.value == 0 then
      if me in sm.waiters then Panic
      else
        var k1 := SetMe(k, Me(k).(pc := Retest(s))).(semas := k.semas[s := sm.(waiters := sm.waiters + [me])]);
        Resume(k1, ThreadBlock(k.sched, Blocked))
    else if sm.value - 1 != 0 then Panic
    else Done(AfterDown(k.(semas := k.semas[s := sm.(value := sm.value - 1)]), s))
  }

  /** `sema_up`: wake the first waiter, then raise the value. */
  function SemaUp(k: State, s: SemaId): (o: Outcome<State>)
    requires Wf(k) && s in k.semas
  {
    var sm := k.semas[s];
    if sm.value != 0 then Panic
    else if sm.waiters == [] then Done(k.(semas := k.semas[s := sm.(value := 1)]))
    else if sm.waiters[0] !in k.sched.tasks then Panic
    else
      var r := ThreadUnblock(k.sched, sm.waiters[0]);
      if r.Panic? then Panic
      else Done(k.(sched := r.value, semas := k.semas[s := Sema(1, sm.waiters[1..])]))
  }

  function AcquireStep(k: State, l: LockId): (o: Outcome<State>)
    requires Wf(k) && l in k.locks
  {
    Done(SetMe(k, Me(k).(pc := if k.locks[l].holder != Some(k.sched.cur) then Down(LockSema(l)) else AcqAgain(l))))
  }

  function ReleaseStep(k: State, l: LockId): (o: Outcome<State>)
    requires Wf(k) && l in k.locks
  {
    if k.locks[l].holder != Some(k.sched.cur) then Panic else Done(SetMe(k, Me(k).(pc := RelTest(l))))
  }

  /** The steps of `lock_acquire` and `lock_release` that touch only the lock record. */
  function LockMove(me: Tid, th: Thread, lk: Lock): (o: Outcome<(Thread, Lock)>)
    requires !th.pc.Free? && !th.pc.Down? && !th.pc.Retest? && !th.pc.RelUp?
  {
    var l := th.pc.l;
    match th.pc
    case AcqAgain(_) => Done((Thread(Free, th.depth[l := Depth(th, l) + 1]), lk.(repeat := lk.repeat + 1)))
    case AcqGot(_) => Done((th.(pc := AcqCheck(l)), lk.(holder := Some(me))))
    case AcqCheck(_) => if lk.repeat != 0 then Panic else Done((th.(pc := AcqHeld(l)), lk))
    case AcqHeld(_) => Done((Thread(Free, th.depth[l := 1]), lk.(repeat := 1)))
    case RelTest(_) => Done((th.(pc := if lk.repeat > 1 then RelDec(l) else RelCheck(l)), lk))
    case RelCheck(_) => if lk.repeat != 1 then Panic else Done((th.(pc := RelClear(l)), lk))
    case RelDec(_) =>
      // not an assertion of the source, but a counter that would wrap
      if lk.repeat == 0 || Depth(th, l) == 0 then Panic
      else Done((Thread(Free, th.depth[l := Depth(th, l) - 1]), lk.(repeat := lk.repeat - 1)))
    case RelClear(_) => Done((th.(pc := RelZero(l)), lk.(holder := None)))
    case RelZero(_) => Done((th.(pc := RelUp(l)), lk.(repeat := 0)))
  }

  function AdvanceStep(k: State): (o: Outcome<State>)
    requires Wf(k) && !Me(k).pc.Free?
  {
    var th := Me(k);
    if th.pc.Down? || th.pc.Retest? then SemaDown(k, th.pc.s)
    else if th.pc.RelUp? then SemaUp(SetMe(k, Thread(Free, th.depth[th.pc.l := 0])), LockSema(th.pc.l))
    else
      var r := LockMove(k.sched.cur, th, k.locks[th.pc.l]);
      if r.Panic? then Panic
      else Done(SetMe(k, r.value.0).(locks := k.locks[th.pc.l := r.value.1]))
  }

  /** `cmd_out`: the flag is raised before the command is sent. */
  function CommandStep(k: State, c: ChannelId): (o: Outcome<State>)
    requires Wf(k) && c in k.channels
  {
    var ch := k.channels[c];
    Done(SetMe(k, Me(k).(pc := Down(DiskSema(c))))
         .(channels := k.channels[c := ch.(expecting := true, issued := ch.issued + 1)]))
  }

  /** `intr_hd_handler` for an interrupt of channel `c`, wanted or not. */
  function DiskStep(k: State, c: ChannelId): (o: Outcome<State>)
    requires Wf(k) && c in k.channels
  {
    var ch := k.channels[c];
    if !ch.expecting then Done(k)
    else SemaUp(k.(channels := k.channels[c := ch.(expecting := false, accepted := ch.accepted + 1)]), DiskSema(c))
  }

  /** When a step may be taken.  Idle does nothing but block; a lock is released only by a thread
      that has acquired it; a command is sent only under the lock of its channel. */
  predicate Enabled(k: State, a: Action) {
    Wf(k) &&
    var free := Me(k).pc.Free? && k.sched.intrOn && k.sched.cur != k.sched.idle;
    match a
    case Tick => k.sched.intrOn
    case DiskIntr(c) => k.sched.intrOn && c in k.channels
    case Yield => k.sched.intrOn && k.sched.cur != k.sched.idle
    case Sleep(st) => Me(k).pc.Free? && k.sched.intrOn && Sleeping(st)
    case Wake(t) =>
      && k.sched.intrOn && t in k.sched.tasks && t != k.sched.idle
      && Sleeping(k.sched.tasks[t].status) && k.threads[t].pc.Free?
    case Spawn(t, _) => free && t !in k.sched.tasks
    case BeginAcquire(l) => free && l in k.locks && Depth(Me(k), l) < MAX_DEPTH
    case BeginRelease(l) => free && l in k.locks && Depth(Me(k), l) > 0
    case BeginCommand(c) => free && c in k.channels && Depth(Me(k), k.channels[c].lock) > 0
    case Advance => !Me(k).pc.Free?
  }

  function Step(k: State, a: Action): (o: Outcome<State>)
    requires Enabled(k, a)
  {
    match a
    case Tick => Resume(k, TimerTick(k.sched))
    case DiskIntr(c) => DiskStep(k, c)
    case Yield => Resume(k, ThreadYield(k.sched))
    case Sleep(st) => Resume(k, ThreadBlock(k.sched, st))
    case Wake(t) => Resume(k, ThreadUnblock(k.sched, t))
    case Spawn(t, prio) => Resume(k.(threads := k.threads[t := Thread(Free, map[])]), ThreadStart(k.sched, t, prio))
    case BeginAcquire(l) => AcquireStep(k, l)
    case BeginRelease(l) => ReleaseStep(k, l)
    case BeginCommand(c) => CommandStep(k, c)
    case Advance => AdvanceStep(k)
  }

  // ---------------------------------------------------------------------------------------
  // The invariant
  // ---------------------------------------------------------------------------------------

  /** A thread that was unblocked by `sema_up` on `s` and has yet to test the value again. */
  predicate Woken(tasks: map<Tid, Task>, threads: map<Tid, Thread>, s: SemaId, t: Tid) {
    && t in threads && t in tasks
    && threads[t].pc == Retest(s)
    && (tasks[t].status.Ready? || tasks[t].status.Running?)
  }

  /** A thread that is blocked inside the loop of `sema_down` on `s`. */
  predicate Parked(tasks: map<Tid, Task>, threads: map<Tid, Thread>, s: SemaId, t: Tid) {
    && t in threads && t in tasks
    && threads[t].pc == Retest(s)
    && tasks[t].status.Blocked?
  }

  /** The waiters of `s` are the blocked threads inside its `sema_down`, once each; so no tag is in
      two lists.  If the value is 1 while threads wait, some woken thread has yet to retest. */
  ghost predicate SemaInv(tasks: map<Tid, Task>, threads: map<Tid, Thread>, sm: Sema, s: SemaId) {
    && NoDup(sm.waiters)
    && (forall t :: t in sm.waiters <==> Parked(tasks, threads, s, t))
    && sm.value <= 1
    && (sm.value == 1 && sm.waiters != [] ==> exists t :: Woken(tasks, threads, s, t))
  }

  ghost predicate SemasInv(tasks: map<Tid, Task>, threads: map<Tid, Thread>, semas: map<SemaId, Sema>) {
    forall s :: s in semas ==> SemaInv(tasks, threads, semas[s], s)
  }

  ghost predicate TaskInv(k: State) {
    && Wf(k)
    && SchedInv(k.sched)
    && (k.sched.intrOn <==> !Me(k).pc.Retest?)
    && k.threads[k.sched.idle].pc.Free?
    && (forall t :: t in k.threads && k.threads[t].pc.Retest? ==>
          !k.sched.tasks[t].status.Waiting? && !k.sched.tasks[t].status.Hanging?)
  }

  /** The thread has passed `sema_down` and not yet `sema_up` of lock `l`. */
  predicate InSection(th: Thread, l: LockId) {
    Depth(th, l) > 0 || th.pc == AcqGot(l) || th.pc == AcqCheck(l) || th.pc == AcqHeld(l)
  }

  /** The thread is the one recorded in `holder`. */
  predicate Owns(th: Thread, l: LockId) {
    th.pc == AcqCheck(l) || th.pc == AcqHeld(l) || (Depth(th, l) > 0 && th.pc != RelZero(l) && th.pc != RelUp(l))
  }

  /** The value of `holder_repeat_nr` that goes with the position of the thread in the section. */
  function Repeat(th: Thread, l: LockId): nat {
    if th.pc == AcqGot(l) || th.pc == AcqCheck(l) || th.pc == AcqHeld(l) || th.pc == RelUp(l) then 0 else Depth(th, l)
  }

  /** The nesting depth that goes with a program counter. */
  predicate DepthOk(th: Thread) {
    match th.pc
    case Free => true
    case Down(s) => s.LockSema? ==> Depth(th, s.l) == 0
    case Retest(s) => s.LockSema? ==> Depth(th, s.l) == 0
    case AcqAgain(l) => Depth(th, l) > 0
    case AcqGot(l) => Depth(th, l) == 0
    case AcqCheck(l) => Depth(th, l) == 0
    case AcqHeld(l) => Depth(th, l) == 0
    case RelTest(l) => Depth(th, l) > 0
    case RelCheck(l) => Depth(th, l) == 1
    case RelDec(l) => Depth(th, l) > 1
    case RelClear(l) => Depth(th, l) == 1
    case RelZero(l) => Depth(th, l) == 1
    case RelUp(l) => Depth(th, l) == 1
  }

  /** At most one thread is in the section, exactly one when the semaphore is taken; `holder` and
      `holder_repeat_nr` agree with that thread. */
  ghost predicate LockInv(threads: map<Tid, Thread>, lk: Lock, value: nat, l: LockId) {
    && (forall t, u :: t in threads && u in threads && InSection(threads[t], l) && InSection(threads[u], l) ==> t == u)
    && (value == 1 ==> lk.repeat == 0)
    && (value == 1 <==> forall t :: t in threads ==> !InSection(threads[t], l))
    && (forall t :: t in threads && InSection(threads[t], l) ==> lk.repeat == Repeat(threads[t], l))
    && (forall t :: t in threads && Owns(threads[t], l) ==> lk.holder == Some(t))
    && (lk.holder.Some? ==> lk.holder.value in threads && Owns(threads[lk.holder.value], l))
  }

  ghost predicate LocksInv(threads: map<Tid, Thread>, locks: map<LockId, Lock>, semas: map<SemaId, Sema>) {
    forall l :: l in locks ==> LockSema(l) in semas && LockInv(threads, locks[l], semas[LockSema(l)].value, l)
  }

  /** The thread has sent a command on `c` and not yet returned from waiting for it. */
  predicate Pending(th: Thread, c: ChannelId) {
    th.pc == Down(DiskSema(c)) || th.pc == Retest(DiskSema(c))
  }

  /** Of the commands sent, the ones not yet waited for are counted by the expectation flag and the
      semaphore together; there is one exactly while some thread has yet to return from its wait. */
  ghost predicate ChannelInv(threads: map<Tid, Thread>, ch: Channel, done: nat, c: ChannelId) {
    && ch.issued == ch.completed + Bit(ch.expecting) + done
    && ch.accepted == ch.completed + done
    && Bit(ch.expecting) + done <= 1
    && (forall t :: t in threads && Pending(threads[t], c) ==> Depth(threads[t], ch.lock) > 0)
    && (Bit(ch.expecting) + done == 0 <==> forall t :: t in threads ==> !Pending(threads[t], c))
  }

  ghost predicate ChannelsInv(threads: map<Tid, Thread>, channels: map<ChannelId, Channel>,
                              locks: set<LockId>, semas: map<SemaId, Sema>) {
    forall c :: c in channels ==>
      && DiskSema(c) in semas && channels[c].lock in locks
      && ChannelInv(threads, channels[c], semas[DiskSema(c)].value, c)
  }

  ghost predicate DepthsOk(threads: map<Tid, Thread>) {
    forall t :: t in threads ==> DepthOk(threads[t])
  }

  ghost predicate Inv(k: State) {
    && TaskInv(k)
    && SemasInv(k.sched.tasks, k.threads, k.semas)
    && DepthsOk(k.threads)
    && LocksInv(k.threads, k.locks, k.semas)
    && ChannelsInv(k.threads, k.channels, k.locks.Keys, k.semas)
  }
}
