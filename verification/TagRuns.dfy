/**
 Every step of the kernel on the links: whatever happens, the lists in memory are the queues.
 */
module TagRuns {
  import opened Common
  import opened IntrusiveList
  import opened Scheduler
  import opened Kernel
  import opened KernelProofs
  import opened KernelRuns
  import opened TagLists

  /** Every semaphore has a list. */
  ghost predicate Listed(k: State, names: seq<SemaId>) {
    forall s :: s in k.semas ==> s in names
  }

  /** The place of the list of a semaphore. */
  method Place(names: seq<SemaId>, s: SemaId) returns (x: nat)
    requires s in names
    ensures x < |names| && names[x] == s
  {
    x := 0;
    while names[x] != s
      invariant x < |names| && s in names[x..]
      decreases |names| - x
    {
      assert names[x..] == [names[x]] + names[x + 1..];
      x := x + 1;
    }
  }

  /** What a step does to the queues. */
  datatype Effect = Still | Turn | Block | Wakes(t: Tid) | New(t: Tid) | Up(s: SemaId) | Wait(s: SemaId)

  function EffectOf(k: State, a: Action): (e: Effect)
    requires Enabled(k, a)
  {
    match a
    case Tick => if k.sched.tasks[k.sched.cur].ticks == 0 then Turn else Still
    case DiskIntr(c) => if k.channels[c].expecting then Up(DiskSema(c)) else Still
    case Yield => Turn
    case Sleep(_) => Block
    case Wake(t) => Wakes(t)
    case Spawn(t, _) => New(t)
    case Advance =>
      var pc := Me(k).pc;
      if pc.Down? || pc.Retest? then (if k.semas[pc.s].value == 0 then Wait(pc.s) else Still)
      else if pc.RelUp? then Up(LockSema(pc.l)) else Still
    case _ => Still
  }

  /** The state in which `sema_up` finds the queues. */
  function Before(k: State, a: Action): (k1: State)
    requires Enabled(k, a)
    ensures k1.sched == k.sched && k1.semas == k.semas
  {
    match a
    case DiskIntr(c) =>
      var ch := k.channels[c];
      k.(channels := k.channels[c := ch.(expecting := false, accepted := ch.accepted + 1)])
    case Advance =>
      if Me(k).pc.RelUp? then SetMe(k, Thread(Free, Me(k).depth[Me(k).pc.l := 0])) else k
    case _ => k
  }

  /** Steps that leave the queues alone. */
  lemma StillQueues(k: State, a: Action, names: seq<SemaId>)
    requires Inv(k) && Enabled(k, a) && EffectOf(k, a).Still? && Named(k, names)
    ensures Step(k, a).Done?
    ensures var k' := Step(k, a).value;
            Named(k', names) && k'.sched.tasks.Keys == k.sched.tasks.Keys && Queues(k', names) == Queues(k, names)
  {
    hide Inv, Queues, PcsOk, IdsOk, Wf;
    StepKeeps(k, a);
    var k' := Step(k, a).value;
    StillStep(k, a);
    QueuesAre(k', names, Queues(k, names));
  }

  lemma StillStep(k: State, a: Action)
    requires Enabled(k, a) && EffectOf(k, a).Still? && Step(k, a).Done?
    ensures var k' := Step(k, a).value;
            && k'.sched.ready == k.sched.ready && k'.sched.tasks.Keys == k.sched.tasks.Keys
            && forall s :: s in k.semas ==> s in k'.semas && k'.semas[s].waiters == k.semas[s].waiters
  {
    hide PcsOk, IdsOk;
  }

  /** `sema_up` in the middle of a step. */
  lemma UpStep(k: State, a: Action)
    requires Inv(k) && Enabled(k, a) && EffectOf(k, a).Up?
    ensures var k1, s := Before(k, a), EffectOf(k, a).s;
            && Wf(k1) && s in k1.semas && Kernel.SemaUp(k1, s) == Step(k, a) && Step(k, a).Done?
  {
    hide Inv;
    StepKeeps(k, a);
    SchedOf(k);
    hide Kernel.SemaUp, SchedInv;
  }

  /** No step makes a semaphore. */
  lemma SemasStay(k: State, a: Action)
    requires Inv(k) && Enabled(k, a)
    ensures Step(k, a).Done? && forall s :: s in Step(k, a).value.semas ==> s in k.semas
  {
    hide Inv, TimerTick, ThreadYield, ThreadBlock, ThreadUnblock, ThreadStart;
    StepKeeps(k, a);
  }

  /** A step with a `sema_up` in it. */
  method PerformUp(tg: Tags, s: SemaId, ghost k: State, ghost a: Action, names: seq<SemaId>) returns (ok: bool)
    requires Inv(k) && Enabled(k, a) && EffectOf(k, a) == Up(s) && tg.Mirrors(k, names) && Listed(k, names)
    modifies tg.lists, tg.nodes
    ensures ok && Step(k, a).Done? && tg.Mirrors(Step(k, a).value, names)
  {
    hide Inv, Enabled, Step, Wf, Named, Queues, Shows, Exclusive, EffectOf, Kernel.SemaUp;
    UpStep(k, a);
    ghost var k1 := Before(k, a);
    SameMirror(tg, k, k1, names);
    InvQueues(k, names);
    SameQueues(k, k1, names);
    var x := Place(names, s);
    ok := tg.SemaUp(x, k1, names);
  }

  /** One step of the kernel, on the links. */
  method Perform(tg: Tags, k: State, a: Action, names: seq<SemaId>) returns (ok: bool, ghost k': State)
    requires Inv(k) && Enabled(k, a) && tg.Mirrors(k, names) && Listed(k, names)
    modifies tg, tg.lists, tg.nodes
    ensures ok && After(k, a, k') && Inv(k') && tg.Mirrors(k', names) && Listed(k', names)
    ensures fresh(tg.nodes - old(tg.nodes))
  {
    hide Inv, Enabled, Step, Wf, Named, Queues, Shows, Exclusive, AboutToWait, GivesWay, EffectOf;
    k' := Taken(k, a);
    MirrorKeys(tg, k, names);
    ok := true;
    match EffectOf(k, a) {
      case Still =>
        StillQueues(k, a, names);
      case Turn =>
        TurnStep(k, a);
        var next;
        ok, next, k' := tg.Rotate(tg.tags[k.sched.cur], tg.tags[k.sched.idle], a, k, names);
      case Block =>
        BlockStep(k, a);
        var next;
        ok, next, k' := tg.Sleep(tg.tags[k.sched.idle], a.st, k, names);
      case Wakes(t) =>
        WakesStep(k, a);
        ok, k' := tg.Wake(tg.tags[t], t, k, names);
      case New(t) =>
        NewStep(k, a);
        ok, k' := tg.Start(t, a.prio, k, names);
      case Up(s) =>
        ok := PerformUp(tg, s, k, a, names);
      case Wait(s) =>
        WaitsStep(k, a);
        var x := Place(names, s);
        var next;
        ok, next, k' := tg.SemaWait(x, tg.tags[k.sched.cur], tg.tags[k.sched.idle], k, names);
    }
  }

  /** The state after an enabled step. */
  ghost function Taken(k: State, a: Action): (k': State)
    requires Inv(k) && Enabled(k, a)
    ensures After(k, a, k') && Inv(k') && forall s :: s in k'.semas ==> s in k.semas
  {
    StepKeeps(k, a);
    SemasStay(k, a);
    Step(k, a).value
  }

  lemma MirrorKeys(tg: Tags, k: State, names: seq<SemaId>)
    requires Inv(k) && tg.Mirrors(k, names)
    ensures k.sched.cur in tg.tags && k.sched.idle in tg.tags && forall t :: t in k.sched.tasks ==> t in tg.tags
  {
    hide Queues, Shows, SemasInv, LocksInv, ChannelsInv, DepthsOk, PcsOk, IdsOk;
  }

  lemma TurnStep(k: State, a: Action)
    requires Inv(k) && Enabled(k, a) && EffectOf(k, a).Turn?
    ensures GivesWay(k, a)
  {
    hide Inv, PcsOk, IdsOk;
  }

  lemma BlockStep(k: State, a: Action)
    requires Enabled(k, a) && EffectOf(k, a).Block?
    ensures a.Sleep?
  {
    hide PcsOk, IdsOk;
  }

  lemma WakesStep(k: State, a: Action)
    requires Enabled(k, a) && EffectOf(k, a).Wakes?
    ensures a == Wake(EffectOf(k, a).t) && a.t in k.sched.tasks
  {
    hide PcsOk, IdsOk;
  }

  lemma NewStep(k: State, a: Action)
    requires Enabled(k, a) && EffectOf(k, a).New?
    ensures a.Spawn? && a.t == EffectOf(k, a).t
  {
    hide PcsOk, IdsOk;
  }

  lemma WaitsStep(k: State, a: Action)
    requires Inv(k) && Enabled(k, a) && EffectOf(k, a).Wait?
    ensures a.Advance? && AboutToWait(k, EffectOf(k, a).s) && EffectOf(k, a).s in k.semas
  {
    hide Inv, IdsOk;
    SchedOf(k);
    hide SchedInv;
  }

  lemma SameQueues(k: State, k1: State, names: seq<SemaId>)
    requires Named(k, names) && k1.sched == k.sched && k1.semas == k.semas
    ensures Named(k1, names) && Queues(k1, names) == Queues(k, names)
  {
  }

  lemma SameMirror(tg: Tags, k: State, k1: State, names: seq<SemaId>)
    requires tg.Mirrors(k, names) && k1.sched == k.sched && k1.semas == k.semas
    ensures tg.Mirrors(k1, names)
  {
    hide Shows, Queues, Named;
    SameQueues(k, k1, names);
  }

  /** The lists after `thread_init` and the initialisation of the semaphores `names`. */
  method BootTags(m: Tid, idle: Tid, locks: set<LockId>, channels: map<ChannelId, LockId>, names: seq<SemaId>)
      returns (tg: Tags)
    requires m != idle && Named(Boot(m, idle, locks, channels), names)
    ensures fresh(tg) && tg.Mirrors(Boot(m, idle, locks, channels), names)
  {
    tg := new Tags([m, idle], |names| + 1);
    hide Tags.Valid, Shows, Named, Queues, Boot;
    ghost var qs := seq(|names| + 1, _ => []);
    NoneShown(tg, qs);
    BootQueues(m, idle, locks, channels, names, qs);
    tg.Append(0, tg.tags[idle], idle, qs);
  }

  /** At boot idle is ready and nobody waits. */
  lemma BootQueues(m: Tid, idle: Tid, locks: set<LockId>, channels: map<ChannelId, LockId>, names: seq<SemaId>,
                   qs: seq<seq<Tid>>)
    requires m != idle && Named(Boot(m, idle, locks, channels), names)
    requires |qs| == |names| + 1 && forall i :: 0 <= i < |qs| ==> qs[i] == []
    ensures Unqueued(idle, qs) && Queues(Boot(m, idle, locks, channels), names) == qs[0 := qs[0] + [idle]]
    ensures Boot(m, idle, locks, channels).sched.tasks.Keys == {m, idle}
  {
    var k := Boot(m, idle, locks, channels);
    hide Queues;
    QueuesAre(k, names, qs[0 := qs[0] + [idle]]);
  }

  lemma NoneShown(tg: Tags, qs: seq<seq<Tid>>)
    requires |qs| == |tg.lists| && forall i :: 0 <= i < |qs| ==> qs[i] == [] && tg.lists[i].elems == []
    ensures Shows(tg.tags, tg.Elems(), qs)
  {
  }

  /** A whole run: at every point the lists in memory are the queues, and no step fails on them. */
  method Replay(tg: Tags, trace: seq<State>, acts: seq<Action>, names: seq<SemaId>) returns (ok: bool)
    requires IsRun(trace, acts) && Inv(trace[0]) && tg.Mirrors(trace[0], names) && Listed(trace[0], names)
    modifies tg, tg.lists, tg.nodes
    ensures ok && tg.Mirrors(trace[|acts|], names)
  {
    hide Inv, Enabled, Step, Listed;
    var i := 0;
    ok := true;
    while i < |acts|
      invariant 0 <= i <= |acts| && ok && Inv(trace[i]) && tg.Mirrors(trace[i], names) && Listed(trace[i], names)
      invariant fresh(tg.nodes - old(tg.nodes))
    {
      ghost var k';
      ok, k' := Perform(tg, trace[i], acts[i], names);
      i := i + 1;
    }
  }

  // ---------------------------------------------------------------------------------------
  // The walk of `thread_start`
  // ---------------------------------------------------------------------------------------

  /** The number of the list in which thread `t` is: 0 for the ready list. */
  ghost predicate In(k: State, names: seq<SemaId>, t: Tid, i: nat)
    requires Named(k, names)
  {
    i <= |names| && t in Queues(k, names)[i]
  }

  /** A thread that does not run is in the ready list iff it is ready, in the list of a semaphore iff it is blocked
      there, and otherwise, asleep elsewhere, in none. */
  lemma WhereIs(k: State, names: seq<SemaId>, t: Tid, i: nat)
    requires Inv(k) && Named(k, names) && t in k.sched.tasks && i <= |names|
    ensures In(k, names, t, i) <==>
              if i == 0 then k.sched.tasks[t].status.Ready? else Parked(k.sched.tasks, k.threads, names[i - 1], t)
  {
    hide LocksInv, ChannelsInv, DepthsOk, PcsOk, IdsOk, NoDup;
    if i > 0 { assert SemaInv(k.sched.tasks, k.threads, k.semas[names[i - 1]], names[i - 1]); }
    hide SemasInv;
  }

  /** `elem_find` in `thread_start` runs with interrupts on, so the thread whose tag it stands on may have moved.
      From there the links lead to the end of the list in which the thread is now.  So the walk ends where it
      should iff the thread is ready; along the waiters of a semaphore it passes the end of their list, which is
      not the one it looks for, and comes to NULL. */
  method WalkOn(tg: Tags, e: Elem, ghost t: Tid, ghost i: nat, ghost k: State, ghost names: seq<SemaId>)
      returns (end: Elem)
    requires Inv(k) && tg.Mirrors(k, names) && t in tg.tags && e == tg.tags[t] && In(k, names, t, i)
    ensures i < |tg.lists| && end == tg.lists[i].tail && end.next == null
    ensures end == tg.lists[0].tail <==> k.sched.tasks[t].status.Ready?
  {
    hide Inv, Queues, Named;
    WhereIs(k, names, t, i);
    WhereIs(k, names, t, 0);
    ghost var nodes, n := Position(tg, t, i, Queues(k, names));
    end := e;
    while end.next != null
      invariant 0 <= n < |nodes| && end == nodes[n]
      decreases |nodes| - n
    {
      NextNode(tg.lists[i], n);
      end := end.next;
      n := n + 1;
    }
    NextNode(tg.lists[i], n);
    TailsDiffer(tg, i);
  }

  /** The place of a tag among the nodes of its list. */
  lemma Position(tg: Tags, t: Tid, i: nat, qs: seq<seq<Tid>>) returns (nodes: seq<Elem>, n: nat)
    requires tg.Valid() && Shows(tg.tags, tg.Elems(), qs) && i < |qs| && t in qs[i] && t in tg.tags
    ensures i < |tg.lists| && nodes == tg.lists[i].Nodes() && n < |nodes| && nodes[n] == tg.tags[t]
  {
    var j :| 0 <= j < |qs[i]| && qs[i][j] == t;
    assert Holds(tg.tags, tg.Elems()[i], qs[i]);
    nodes, n := tg.lists[i].Nodes(), j + 1;
  }

  /** From one node to the next; behind the last there is nothing. */
  lemma NextNode(l: List, n: nat)
    requires l.Valid() && n < |l.Nodes()|
    ensures if n + 1 < |l.Nodes()| then l.Nodes()[n].next == l.Nodes()[n + 1]
            else l.Nodes()[n] == l.tail && l.tail.next == null
  {
    var nodes := l.Nodes();
    assert nodes[|nodes| - 1] == l.tail;
    hide List.Nodes;
    if n + 1 < |nodes| {
      var a, b := n, n + 1;
      assert nodes[a].next == nodes[b];
    }
  }

  lemma TailsDiffer(tg: Tags, i: nat)
    requires tg.Valid() && i < |tg.lists|
    ensures tg.lists[i].tail == tg.lists[0].tail <==> i == 0
  {
    assert tg.lists[i].tail in tg.lists[i].Nodes() && tg.lists[0].tail in tg.lists[0].Nodes();
  }
}
