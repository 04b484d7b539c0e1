/**
 The steps of `thread/sync.c` and of the handshake of `device/ide.c` on fields that are updated in place.
 Each method is one uninterrupted stretch of the code and takes exactly the step that `Kernel` names.
 */
module Machine {
  import opened Common
  import opened Scheduler
  import opened Kernel
  import opened KernelProofs
  import opened KernelRuns

  class Machine {
    const cpu: Cpu
    var threads: map<Tid, Thread>
    var semas: map<SemaId, Sema>
    var locks: map<LockId, Lock>
    var channels: map<ChannelId, Channel>

    constructor (mainTid: Tid, idleTid: Tid, lockIds: set<LockId>, channelLocks: map<ChannelId, LockId>)
      requires mainTid != idleTid && channelLocks.Values <= lockIds
      ensures fresh(cpu) && Inv(State()) && State() == Boot(mainTid, idleTid, lockIds, channelLocks)
    {
      var k := Boot(mainTid, idleTid, lockIds, channelLocks);
      cpu := new Cpu(mainTid, idleTid);
      threads, semas, locks, channels := k.threads, k.semas, k.locks, k.channels;
      new;
      cpu.intrOn := true;
      BootInv(mainTid, idleTid, lockIds, channelLocks);
      hide Inv;
    }

    function State(): State
      reads this, cpu
    {
      Kernel.State(cpu.State(), threads, semas, locks, channels)
    }

    /** The timer interrupt. */
    method TimerInterrupt()
      requires Inv(State()) && Enabled(State(), Tick)
      modifies this, cpu
      ensures Inv(State()) && Done(State()) == old(Step(State(), Tick))
    {
      hide SemasInv, LocksInv, ChannelsInv, DepthsOk, QueueInv, TimerTick, PcsOk, IdsOk;
      StepKeeps(State(), Tick);
      TickKeeps(cpu.State());
      cpu.Tick();
      cpu.intrOn := !threads[cpu.cur].pc.Retest?;
    }

    /** One turn of the loop of `sema_down` that waits: the thread comes back in this loop later. */
    method SemaWait(s: SemaId)
      requires Inv(State()) && Enabled(State(), Advance) && (Me(State()).pc == Down(s) || Me(State()).pc == Retest(s))
      requires s in semas && semas[s].value == 0
      modifies this, cpu
      ensures Inv(State()) && Done(State()) == old(Step(State(), Advance))
    {
      hide SemasInv, LocksInv, ChannelsInv, DepthsOk, QueueInv, ThreadBlock, Inv, PcsOk, IdsOk;
      StepKeeps(State(), Advance);
      Scheduled(State());
      BlockKeeps(cpu.State(), Blocked);
      var me := cpu.cur;
      semas := semas[s := semas[s].(waiters := semas[s].waiters + [me])];
      threads := threads[me := threads[me].(pc := Retest(s))];
      cpu.Block(Blocked);
      cpu.intrOn := !threads[cpu.cur].pc.Retest?;
    }

    /** The end of `sema_down`, and the return of interrupts. */
    method SemaTake(s: SemaId)
      requires Inv(State()) && Enabled(State(), Advance) && (Me(State()).pc == Down(s) || Me(State()).pc == Retest(s))
      requires s in semas && semas[s].value != 0
      modifies this, cpu
      ensures Inv(State()) && Done(State()) == old(Step(State(), Advance))
    {
      hide SemasInv, LocksInv, ChannelsInv, DepthsOk, QueueInv, Inv, PcsOk, IdsOk;
      StepKeeps(State(), Advance);
      MyPc(State());
      var me := cpu.cur;
      semas := semas[s := semas[s].(value := semas[s].value - 1)];
      cpu.intrOn := true;
      match s {
        case LockSema(l) =>
          threads := threads[me := threads[me].(pc := AcqGot(l))];
        case DiskSema(c) =>
          threads := threads[me := threads[me].(pc := Free)];
          channels := channels[c := channels[c].(completed := channels[c].completed + 1)];
      }
    }

    /** `sema_up` where none of its assertions fires. */
    method SemaUp(s: SemaId)
      requires Wf(State()) && s in semas && cpu.Valid() && Kernel.SemaUp(State(), s).Done?
      modifies this, cpu
      ensures Done(State()) == old(Kernel.SemaUp(State(), s))
    {
      hide Wf, QueueInv;
      var sm := semas[s];
      if sm.waiters != [] {
        var first := sm.waiters[0];
        sm := sm.(waiters := sm.waiters[1..]);
        cpu.Unblock(first);
      }
      semas := semas[s := sm.(value := sm.value + 1)];
    }

    /** The test of `lock_acquire`. */
    method LockAcquire(l: LockId)
      requires Inv(State()) && Enabled(State(), BeginAcquire(l))
      modifies this
      ensures Inv(State()) && Done(State()) == old(Step(State(), BeginAcquire(l)))
    {
      hide SemasInv, LocksInv, ChannelsInv, DepthsOk, QueueInv;
      StepKeeps(State(), BeginAcquire(l));
      var me := cpu.cur;
      var pc := if locks[l].holder != Some(me) then Down(LockSema(l)) else AcqAgain(l);
      threads := threads[me := threads[me].(pc := pc)];
    }

    /** The first assertion of `lock_release`. */
    method LockRelease(l: LockId)
      requires Inv(State()) && Enabled(State(), BeginRelease(l))
      modifies this
      ensures Inv(State()) && Done(State()) == old(Step(State(), BeginRelease(l)))
    {
      hide SemasInv, LocksInv, ChannelsInv, DepthsOk, QueueInv;
      StepKeeps(State(), BeginRelease(l));
      var me := cpu.cur;
      threads := threads[me := threads[me].(pc := RelTest(l))];
    }

    /** The tests and assignments of `lock_acquire` and `lock_release` on the record of a lock, one at a time. */
    method LockRecord(l: LockId)
      requires Inv(State()) && Enabled(State(), Advance)
      requires AtLock(Me(State()).pc, l) && !Me(State()).pc.RelUp?
      modifies this
      ensures Inv(State()) && Done(State()) == old(Step(State(), Advance))
    {
      hide Inv, Step, Wf, Enabled;
      StepKeeps(State(), Advance);
      MoveIs(State(), l);
      var me := cpu.cur;
      var th, lk := threads[me], locks[l];
      match th.pc {
        case AcqAgain(_) =>
          lk := lk.(repeat := lk.repeat + 1);
          th := Thread(Free, th.depth[l := Depth(th, l) + 1]);
        case AcqGot(_) =>
          lk := lk.(holder := Some(me));
          th := th.(pc := AcqCheck(l));
        case AcqCheck(_) =>
          th := th.(pc := AcqHeld(l));
        case RelTest(_) =>
          th := th.(pc := if lk.repeat > 1 then RelDec(l) else RelCheck(l));
        case RelCheck(_) =>
          th := th.(pc := RelClear(l));
        case AcqHeld(_) =>
          lk := lk.(repeat := 1);
          th := Thread(Free, th.depth[l := 1]);
        case RelDec(_) =>
          lk := lk.(repeat := lk.repeat - 1);
          th := Thread(Free, th.depth[l := Depth(th, l) - 1]);
        case RelClear(_) =>
          lk := lk.(holder := None);
          th := th.(pc := RelZero(l));
        case RelZero(_) =>
          lk := lk.(repeat := 0);
          th := th.(pc := RelUp(l));
      }
      threads, locks := threads[me := th], locks[l := lk];
    }

    /** The end of `lock_release`. */
    method LockUp(l: LockId)
      requires Inv(State()) && Enabled(State(), Advance) && Me(State()).pc == RelUp(l)
      modifies this, cpu
      ensures Inv(State()) && Done(State()) == old(Step(State(), Advance))
    {
      hide SemasInv, LocksInv, ChannelsInv, DepthsOk, QueueInv, Kernel.SemaUp;
      StepKeeps(State(), Advance);
      var me := cpu.cur;
      threads := threads[me := Thread(Free, threads[me].depth[l := 0])];
      SemaUp(LockSema(l));
    }

    /** `cmd_out` */
    method CmdOut(c: ChannelId)
      requires Inv(State()) && Enabled(State(), BeginCommand(c))
      modifies this
      ensures Inv(State()) && Done(State()) == old(Step(State(), BeginCommand(c)))
    {
      hide SemasInv, LocksInv, ChannelsInv, DepthsOk, QueueInv;
      StepKeeps(State(), BeginCommand(c));
      var me := cpu.cur;
      channels := channels[c := channels[c].(expecting := true, issued := channels[c].issued + 1)];
      threads := threads[me := threads[me].(pc := Down(DiskSema(c)))];
    }

    /** `intr_hd_handler` */
    method DiskInterrupt(c: ChannelId)
      requires Inv(State()) && Enabled(State(), DiskIntr(c))
      modifies this, cpu
      ensures Inv(State()) && Done(State()) == old(Step(State(), DiskIntr(c)))
    {
      hide SemasInv, LocksInv, ChannelsInv, DepthsOk, QueueInv, Kernel.SemaUp;
      StepKeeps(State(), DiskIntr(c));
      if channels[c].expecting {
        channels := channels[c := channels[c].(expecting := false, accepted := channels[c].accepted + 1)];
        SemaUp(DiskSema(c));
      }
    }
  }

  lemma Scheduled(k: State)
    requires Inv(k)
    ensures SchedInv(k.sched) && k.threads.Keys == k.sched.tasks.Keys
  {
    hide SemasInv, LocksInv, ChannelsInv, DepthsOk, SchedInv;
  }

  lemma MoveIs(k: State, l: LockId)
    requires Inv(k) && Enabled(k, Advance)
    requires AtLock(Me(k).pc, l) && !Me(k).pc.RelUp?
    ensures k.sched.cur in k.threads && l in k.locks && k.threads[k.sched.cur] == Me(k)
    ensures var r := LockMove(k.sched.cur, Me(k), k.locks[l]);
            r.Done? && Step(k, Advance) == Done(SetMe(k, r.value.0).(locks := k.locks[l := r.value.1]))
  {
    hide Inv, PcsOk, IdsOk, SemaDown, SemaUp, LockMove;
    MyPc(k);
    StepKeeps(k, Advance);
  }

  lemma MyPc(k: State)
    requires Wf(k)
    ensures PcOk(Me(k).pc, k.semas.Keys, k.locks.Keys, k.channels.Keys)
  {
    hide IdsOk, PcOk;
  }
}
