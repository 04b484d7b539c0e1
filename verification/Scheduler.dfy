/**
 The ready queue, the task states and the timer slice of `thread/thread.c` and `device/timer.c`.

 The operations are functions on a `Sched` value.  Every `ASSERT` of the source is an explicit
 test whose failure gives `Panic`, so "no assertion fires" is the statement that the result is
 `Done`.  The class `Cpu` at the end holds the same state in fields that are updated in place.
 */
module Scheduler {
  import opened Common

  type Tid = nat

  datatype Status = Running | Ready | Blocked | Waiting | Hanging | Died

  datatype Task = Task(status: Status, priority: nat, ticks: nat)

  /** `intrOn` is the interrupt flag of the processor. */
  datatype Sched = Sched(tasks: map<Tid, Task>, ready: seq<Tid>, cur: Tid, idle: Tid, intrOn: bool)

  datatype Outcome<+T> = Done(value: T) | Panic

  predicate Sleeping(st: Status) {
    st.Blocked? || st.Waiting? || st.Hanging?
  }

  /** The pointers `running_thread()` and `idle_thread` denote existing tasks. */
  predicate Pointers(s: Sched) {
    s.cur in s.tasks && s.idle in s.tasks && forall t :: t in s.ready ==> t in s.tasks
  }

  function SetStatus(s: Sched, t: Tid, st: Status): (r: Sched)
    requires t in s.tasks
  {
    s.(tasks := s.tasks[t := s.tasks[t].(status := st)])
  }

  // ---------------------------------------------------------------------------------------
  // Operations
  // ---------------------------------------------------------------------------------------

  /** `thread_unblock`: the woken thread goes to the front of the ready list. */
  function ThreadUnblock(s: Sched, t: Tid): (r: Outcome<Sched>)
    requires t in s.tasks
  {
    if !Sleeping(s.tasks[t].status) || t in s.ready then Panic
    else Done(SetStatus(s, t, Ready).(ready := [t] + s.ready))
  }

  /** The first half of `schedule`: a thread that is still running goes to the back. */
  function Requeue(s: Sched): (r: Outcome<Sched>)
    requires Pointers(s)
  {
    var c := s.tasks[s.cur];
    if !c.status.Running? then Done(s)
    else if s.cur in s.ready then Panic
    else Done(s.(ready := s.ready + [s.cur], tasks := s.tasks[s.cur := c.(status := Ready, ticks := c.priority)]))
  }

  /** The second half of `schedule`: wake idle if nobody is ready, then run the first ready thread. */
  function Dispatch(s: Sched): (r: Outcome<Sched>)
    requires Pointers(s)
  {
    var woken := if s.ready == [] then ThreadUnblock(s, s.idle) else Done(s);
    if woken.Panic? then Panic
    else if woken.value.ready == [] then Panic
    else
      var next := woken.value.ready[0];
      Done(SetStatus(woken.value, next, Running).(ready := woken.value.ready[1..], cur := next))
  }

  function Schedule(s: Sched): (r: Outcome<Sched>)
    requires Pointers(s)
  {
    if s.intrOn then Panic
    else
      var q := Requeue(s);
      if q.Panic? then Panic else Dispatch(q.value)
  }

  function ThreadYield(s: Sched): (r: Outcome<Sched>)
    requires Pointers(s)
  {
    if s.cur in s.ready then Panic
    else Schedule(SetStatus(s, s.cur, Ready).(ready := s.ready + [s.cur], intrOn := false))
  }

  function ThreadBlock(s: Sched, st: Status): (r: Outcome<Sched>)
    requires Pointers(s)
  {
    if !Sleeping(st) then Panic
    else Schedule(SetStatus(s, s.cur, st).(intrOn := false))
  }

  /** `intr_timer_handler`; the interrupt gate clears the interrupt flag. */
  function TimerTick(s: Sched): (r: Outcome<Sched>)
    requires Pointers(s)
  {
    var c := s.tasks[s.cur];
    if c.ticks == 0 then Schedule(s.(intrOn := false))
    else Done(s.(tasks := s.tasks[s.cur := c.(ticks := c.ticks - 1)]))
  }

  /** `thread_start` for a fresh task; `priority` is an 8-bit field. */
  function ThreadStart(s: Sched, t: Tid, prio: nat): (r: Outcome<Sched>)
    requires t !in s.tasks
  {
    if t in s.ready then Panic
    else Done(s.(tasks := s.tasks[t := Task(Ready, prio % 256, prio % 256)], ready := s.ready + [t]))
  }

  /** The state after `thread_init`: main runs, idle is ready. */
  function ThreadInit(mainTid: Tid, idleTid: Tid): (r: Sched)
    requires mainTid != idleTid
  {
    Sched(map[mainTid := Task(Running, 31, 31), idleTid := Task(Ready, 10, 10)], [idleTid], mainTid, idleTid, false)
  }

  // ---------------------------------------------------------------------------------------
  // The invariant
  // ---------------------------------------------------------------------------------------

  /** Everything but the status of the running thread itself. */
  ghost predicate QueueInv(s: Sched) {
    && Pointers(s)
    && NoDup(s.ready)
    && (forall t :: t in s.tasks ==> (t in s.ready <==> s.tasks[t].status.Ready?))
    && (forall t :: t in s.tasks ==> !s.tasks[t].status.Died? && s.tasks[t].ticks <= s.tasks[t].priority)
    && (forall t :: t in s.tasks && t != s.cur ==> !s.tasks[t].status.Running?)
  }

  /** Exactly one thread is running, and a thread is ready iff it is once in the ready list. */
  ghost predicate SchedInv(s: Sched) {
    QueueInv(s) && s.tasks[s.cur].status.Running?
  }

  /** What every operation leaves alone: the set of tasks, idle, the priorities, and the status and
      ticks of every thread outside `touched`. */
  ghost predicate Frame(s: Sched, s': Sched, touched: set<Tid>) {
    && s'.idle == s.idle
    && s'.tasks.Keys == s.tasks.Keys
    && (forall t :: t in s.tasks ==> s'.tasks[t].priority == s.tasks[t].priority)
    && (forall t :: t in s.tasks && t !in touched ==> s'.tasks[t] == s.tasks[t])
  }

  lemma ThreadInitInv(mainTid: Tid, idleTid: Tid)
    requires mainTid != idleTid
    ensures SchedInv(ThreadInit(mainTid, idleTid))
  {
  }

  /** Dispatching never trips an assertion once the running thread has left the processor: when the
      ready list is empty, idle is asleep and may be woken. */
  lemma DispatchKeeps(s: Sched)
    requires QueueInv(s) && !s.tasks[s.cur].status.Running?
    ensures Dispatch(s).Done?
    ensures var s' := Dispatch(s).value;
            var next := if s.ready == [] then s.idle else s.ready[0];
            && SchedInv(s') && s'.cur == next && s'.intrOn == s.intrOn
            && s'.ready == (if s.ready == [] then [] else s.ready[1..])
            && Frame(s, s', {next})
            && s'.tasks[next] == s.tasks[next].(status := Running)
  {
    if s.ready == [] {
      assert s.idle !in s.ready;
      assert Sleeping(s.tasks[s.idle].status);
      var w := ThreadUnblock(s, s.idle).value;
      assert w.ready == [s.idle] && w.ready[1..] == [];
    } else {
      var s' := Dispatch(s).value;
      assert s.ready == [s.ready[0]] + s.ready[1..];
      assert forall t :: t in s.ready <==> t == s.ready[0] || t in s.ready[1..];
      assert s.ready[0] !in s.ready[1..];
    }
  }

  lemma RequeueKeeps(s: Sched)
    requires SchedInv(s)
    ensures Requeue(s).Done?
    ensures var s' := Requeue(s).value;
            && QueueInv(s') && !s'.tasks[s.cur].status.Running? && s'.cur == s.cur && s'.intrOn == s.intrOn
            && s'.ready == s.ready + [s.cur] && Frame(s, s', {s.cur})
            && s'.tasks[s.cur] == s.tasks[s.cur].(status := Ready, ticks := s.tasks[s.cur].priority)
  {
    assert s.cur !in s.ready;
    var s' := Requeue(s).value;
    assert forall t :: t in s'.ready <==> t in s.ready || t == s.cur;
  }

  /** The next thread to run when the queue is `q`. */
  function Front(q: seq<Tid>, idle: Tid): Tid {
    if q == [] then idle else q[0]
  }

  function Rest(q: seq<Tid>): seq<Tid> {
    if q == [] then [] else q[1..]
  }

  lemma YieldKeeps(s: Sched)
    requires SchedInv(s)
    ensures ThreadYield(s).Done?
    ensures var s' := ThreadYield(s).value; var q := s.ready + [s.cur];
            && SchedInv(s') && !s'.intrOn && s'.cur == q[0] && s'.ready == q[1..]
            && Frame(s, s', {s.cur, q[0]})
            && (q[0] != s.cur ==> s'.tasks[s.cur] == s.tasks[s.cur].(status := Ready))
            && s'.tasks[q[0]] == s.tasks[q[0]].(status := Running)
  {
    assert s.cur !in s.ready;
    var q := SetStatus(s, s.cur, Ready).(ready := s.ready + [s.cur], intrOn := false);
    assert forall t :: t in q.ready <==> t in s.ready || t == s.cur;
    assert QueueInv(q);
    DispatchKeeps(q);
  }

  lemma BlockKeeps(s: Sched, st: Status)
    requires SchedInv(s) && Sleeping(st)
    ensures ThreadBlock(s, st).Done?
    ensures var s' := ThreadBlock(s, st).value; var next := Front(s.ready, s.idle);
            && SchedInv(s') && !s'.intrOn && s'.cur == next && s'.ready == Rest(s.ready)
            && Frame(s, s', {s.cur, next})
            && (next != s.cur ==> s'.tasks[s.cur] == s.tasks[s.cur].(status := st))
            && s'.tasks[next] == s.tasks[next].(status := Running)
  {
    assert s.cur !in s.ready;
    DispatchKeeps(SetStatus(s, s.cur, st).(intrOn := false));
  }

  lemma UnblockKeeps(s: Sched, t: Tid)
    requires SchedInv(s) && t in s.tasks && Sleeping(s.tasks[t].status)
    ensures ThreadUnblock(s, t).Done?
    ensures var s' := ThreadUnblock(s, t).value;
            && SchedInv(s') && s'.cur == s.cur && s'.intrOn == s.intrOn && s'.ready == [t] + s.ready
            && Frame(s, s', {t}) && s'.tasks[t] == s.tasks[t].(status := Ready)
  {
    assert t !in s.ready;
    var s' := ThreadUnblock(s, t).value;
    assert forall u :: u in s'.ready <==> u == t || u in s.ready;
  }

  lemma TickKeeps(s: Sched)
    requires SchedInv(s)
    ensures TimerTick(s).Done?
    ensures var s' := TimerTick(s).value; var c := s.tasks[s.cur]; var q := s.ready + [s.cur];
            && SchedInv(s')
            && (c.ticks > 0 ==> s' == s.(tasks := s.tasks[s.cur := c.(ticks := c.ticks - 1)]))
            && (c.ticks == 0 ==>
                  && s'.cur == q[0] && s'.ready == q[1..] && Frame(s, s', {s.cur, q[0]})
                  && (q[0] != s.cur ==> s'.tasks[s.cur] == c.(status := Ready, ticks := c.priority)
                                        && s'.tasks[q[0]] == s.tasks[q[0]].(status := Running))
                  && (q[0] == s.cur ==> s'.tasks[s.cur] == c.(ticks := c.priority)))
  {
    if s.tasks[s.cur].ticks == 0 {
      var off := s.(intrOn := false);
      RequeueKeeps(off);
      DispatchKeeps(Requeue(off).value);
    }
  }

  lemma StartKeeps(s: Sched, t: Tid, prio: nat)
    requires SchedInv(s) && t !in s.tasks
    ensures ThreadStart(s, t, prio).Done? && SchedInv(ThreadStart(s, t, prio).value)
  {
    assert t !in s.ready;
    var s' := ThreadStart(s, t, prio).value;
    assert forall u :: u in s'.ready <==> u in s.ready || u == t;
  }

  // ---------------------------------------------------------------------------------------
  // Waiting time of a ready thread
  // ---------------------------------------------------------------------------------------

  /** The remaining slices of the threads ahead of `t`. */
  function Ahead(tasks: map<Tid, Task>, q: seq<Tid>, t: Tid): (w: nat)
    requires forall u :: u in q ==> u in tasks
  {
    if q == [] || q[0] == t then 0
    else tasks[q[0]].ticks + 1 + Ahead(tasks, q[1..], t)
  }

  /** The most timer interrupts and reschedulings that can pass before the ready thread `t` runs,
      if nobody is unblocked in the meantime. */
  function WaitBound(s: Sched, t: Tid): (w: nat)
    requires Pointers(s)
  {
    s.tasks[s.cur].ticks + 1 + Ahead(s.tasks, s.ready, t)
  }

  /** `Ahead` depends only on the ticks of the queued threads and not on what is behind `t`. */
  lemma {:induction false} AheadSame(tasks: map<Tid, Task>, tasks': map<Tid, Task>, q: seq<Tid>, q': seq<Tid>, t: Tid)
    requires forall u :: u in q ==> u in tasks
    requires forall u :: u in q' ==> u in tasks'
    requires t in q && q <= q'
    requires forall u :: u in q ==> u in tasks' && tasks'[u].ticks == tasks[u].ticks
    ensures Ahead(tasks', q', t) == Ahead(tasks, q, t)
  {
    if q[0] != t {
      assert q'[0] == q[0] && q[1..] <= q'[1..];
      AheadSame(tasks, tasks', q[1..], q'[1..], t);
    }
  }

  /** The running thread gives up the processor to the first ready thread. */
  lemma WaitDispatched(s: Sched, s': Sched, t: Tid)
    requires QueueInv(s) && QueueInv(s') && t in s.ready && t != s.ready[0]
    requires s'.cur == s.ready[0] && s.ready[1..] <= s'.ready
    requires forall u :: u in s.ready ==> u in s'.tasks && s'.tasks[u].ticks == s.tasks[u].ticks
    ensures WaitBound(s', t) + s.tasks[s.cur].ticks + 1 == WaitBound(s, t)
  {
    assert s.ready == [s.ready[0]] + s.ready[1..];
    AheadSame(s.tasks, s'.tasks, s.ready[1..], s'.ready, t);
  }

  /** A timer interrupt brings every thread that stays ready nearer to the processor. */
  lemma WaitTick(s: Sched, t: Tid)
    requires SchedInv(s) && t in s.ready && TimerTick(s).Done? && t in TimerTick(s).value.ready
    ensures QueueInv(TimerTick(s).value) && WaitBound(TimerTick(s).value, t) + 1 <= WaitBound(s, t)
  {
    hide TimerTick, NoDup, Ahead;
    TickKeeps(s);
    var s' := TimerTick(s).value;
    if s.tasks[s.cur].ticks == 0 {
      assert s.ready + [s.cur] == [s.ready[0]] + (s.ready[1..] + [s.cur]);
      assert s'.ready == s.ready[1..] + [s.cur];
      WaitDispatched(s, s', t);
    } else {
      AheadSame(s.tasks, s'.tasks, s.ready, s'.ready, t);
    }
  }

  lemma WaitYield(s: Sched, t: Tid)
    requires SchedInv(s) && t in s.ready && ThreadYield(s).Done? && t in ThreadYield(s).value.ready
    ensures QueueInv(ThreadYield(s).value) && WaitBound(ThreadYield(s).value, t) + 1 <= WaitBound(s, t)
  {
    YieldKeeps(s);
    hide ThreadYield, NoDup;
    var s' := ThreadYield(s).value;
    assert s.ready + [s.cur] == [s.ready[0]] + (s.ready[1..] + [s.cur]);
    assert s'.ready == s.ready[1..] + [s.cur];
    WaitDispatched(s, s', t);
  }

  lemma WaitBlock(s: Sched, st: Status, t: Tid)
    requires SchedInv(s) && Sleeping(st) && t in s.ready
    requires ThreadBlock(s, st).Done? && t in ThreadBlock(s, st).value.ready
    ensures QueueInv(ThreadBlock(s, st).value) && WaitBound(ThreadBlock(s, st).value, t) + 1 <= WaitBound(s, t)
  {
    BlockKeeps(s, st);
    hide ThreadBlock, NoDup;
    WaitDispatched(s, ThreadBlock(s, st).value, t);
  }

  /** An unblocked thread goes ahead of everybody, for at most its whole slice. */
  lemma WaitUnblock(s: Sched, u: Tid, t: Tid)
    requires SchedInv(s) && t in s.ready && u in s.tasks && Sleeping(s.tasks[u].status)
    ensures ThreadUnblock(s, u).Done? && QueueInv(ThreadUnblock(s, u).value)
    ensures WaitBound(ThreadUnblock(s, u).value, t) <= WaitBound(s, t) + s.tasks[u].priority + 1
  {
    UnblockKeeps(s, u);
    hide ThreadUnblock, NoDup;
    var s' := ThreadUnblock(s, u).value;
    assert s'.ready[1..] == s.ready;
    AheadSame(s.tasks, s'.tasks, s.ready, s.ready, t);
  }

  lemma WaitStart(s: Sched, u: Tid, prio: nat, t: Tid)
    requires SchedInv(s) && t in s.ready && u !in s.tasks
    ensures ThreadStart(s, u, prio).Done? && QueueInv(ThreadStart(s, u, prio).value)
    ensures WaitBound(ThreadStart(s, u, prio).value, t) == WaitBound(s, t)
  {
    StartKeeps(s, u, prio);
    var s' := ThreadStart(s, u, prio).value;
    AheadSame(s.tasks, s'.tasks, s.ready, s'.ready, t);
  }

  // ---------------------------------------------------------------------------------------
  // The same operations on fields updated in place
  // ---------------------------------------------------------------------------------------

  class Cpu {
    var tasks: map<Tid, Task>
    var ready: seq<Tid>
    var cur: Tid
    var idle: Tid
    var intrOn: bool

    function State(): Sched
      reads this
    {
      Sched(tasks, ready, cur, idle, intrOn)
    }

    ghost predicate Valid()
      reads this
    {
      SchedInv(State())
    }

    constructor (mainTid: Tid, idleTid: Tid)
      requires mainTid != idleTid
      ensures Valid() && State() == ThreadInit(mainTid, idleTid)
    {
      tasks := map[mainTid := Task(Running, 31, 31), idleTid := Task(Ready, 10, 10)];
      ready, cur, idle, intrOn := [idleTid], mainTid, idleTid, false;
      new;
      ThreadInitInv(mainTid, idleTid);
    }

    method Unblock(t: Tid)
      requires Valid() && t in tasks && Sleeping(tasks[t].status)
      modifies this
      ensures Valid() && Done(State()) == old(ThreadUnblock(State(), t))
    {
      UnblockKeeps(State(), t);
      ready := [t] + ready;
      tasks := tasks[t := tasks[t].(status := Ready)];
    }

    /** `schedule`; the caller has already changed the status of a thread that is not to go on. */
    method Reschedule()
      requires QueueInv(State()) && !intrOn
      modifies this
      ensures Valid() && Done(State()) == old(Schedule(State()))
    {
      if tasks[cur].status.Running? {
        RequeueKeeps(State());
        ready := ready + [cur];
        tasks := tasks[cur := tasks[cur].(ticks := tasks[cur].priority, status := Ready)];
      }
      DispatchKeeps(State());
      if ready == [] {
        ready := [idle] + ready;
        tasks := tasks[idle := tasks[idle].(status := Ready)];
      }
      var next := ready[0];
      ready := ready[1..];
      tasks := tasks[next := tasks[next].(status := Running)];
      cur := next;
    }

    method Yield()
      requires Valid()
      modifies this
      ensures Valid() && Done(State()) == old(ThreadYield(State()))
    {
      YieldKeeps(State());
      intrOn := false;
      ready := ready + [cur];
      tasks := tasks[cur := tasks[cur].(status := Ready)];
      assert forall t :: t in ready <==> t in old(ready) || t == cur;
      Reschedule();
    }

    method Block(st: Status)
      requires Valid() && Sleeping(st)
      modifies this
      ensures Valid() && Done(State()) == old(ThreadBlock(State(), st))
    {
      BlockKeeps(State(), st);
      intrOn := false;
      tasks := tasks[cur := tasks[cur].(status := st)];
      Reschedule();
    }

    method Tick()
      requires Valid()
      modifies this
      ensures Valid() && Done(State()) == old(TimerTick(State()))
    {
      TickKeeps(State());
      if tasks[cur].ticks == 0 {
        intrOn := false;
        Reschedule();
      } else {
        tasks := tasks[cur := tasks[cur].(ticks := tasks[cur].ticks - 1)];
      }
    }
  }
}
