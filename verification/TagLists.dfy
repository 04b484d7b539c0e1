/**
 The ready list and the lists of waiters as they are in memory: linked through the one `general_tag` that each
 thread has (`thread/thread.c`, `thread/sync.c`, `lib/kernel/list.c`).
 */
module TagLists {
  import opened Common
  import opened IntrusiveList
  import opened Scheduler
  import opened Kernel
  import opened KernelProofs

  /** A list that no change reaches stays as it is. */
  twostate lemma Unreached(l: List)
    requires old(l.Valid()) && l.elems == old(l.elems)
    requires forall e :: e in old(l.Nodes()) ==> e.next == old(e.next) && e.prev == old(e.prev)
    ensures l.Valid() && l.Nodes() == old(l.Nodes())
  {
    var n := l.Nodes();
    assert n[0] == l.head && n[|n| - 1] == l.tail;
    forall i, j | 0 <= i < j < |n| && j == i + 1
      ensures n[i].next == n[j] && n[j].prev == n[i]
    {
      assert n[i] in n && n[j] in n;
    }
  }

  // ---------------------------------------------------------------------------------------
  // Queues of threads
  // ---------------------------------------------------------------------------------------

  /** The elements are the tags of the threads, in order. */
  ghost predicate Holds(tags: map<Tid, Elem>, elems: seq<Elem>, q: seq<Tid>) {
    |elems| == |q| && forall k :: 0 <= k < |q| ==> q[k] in tags && elems[k] == tags[q[k]]
  }

  /** Lists stand for queues. */
  ghost predicate Shows(tags: map<Tid, Elem>, lists: seq<seq<Elem>>, qs: seq<seq<Tid>>) {
    |qs| == |lists| && forall i :: 0 <= i < |qs| ==> Holds(tags, lists[i], qs[i])
  }

  /** The thread is in no queue. */
  ghost predicate Unqueued(t: Tid, qs: seq<seq<Tid>>) {
    forall i :: 0 <= i < |qs| ==> t !in qs[i]
  }

  ghost predicate OneEach(tags: map<Tid, Elem>) {
    forall t, u :: t in tags && u in tags && tags[t] == tags[u] ==> t == u
  }

  lemma NotListed(tags: map<Tid, Elem>, elems: seq<Elem>, q: seq<Tid>, t: Tid)
    requires OneEach(tags) && Holds(tags, elems, q) && t in tags
    ensures tags[t] in elems <==> t in q
  {
    forall k | 0 <= k < |q|
      ensures elems[k] == tags[t] <==> q[k] == t
    {
    }
    if t in q {
      var k :| 0 <= k < |q| && q[k] == t;
      assert elems[k] == tags[t];
    }
  }

  lemma HoldsAppend(tags: map<Tid, Elem>, elems: seq<Elem>, q: seq<Tid>, t: Tid)
    requires Holds(tags, elems, q) && t in tags
    ensures Holds(tags, elems + [tags[t]], q + [t]) && Holds(tags, [tags[t]] + elems, [t] + q)
  {
  }

  lemma HoldsPop(tags: map<Tid, Elem>, elems: seq<Elem>, q: seq<Tid>)
    requires Holds(tags, elems, q) && q != []
    ensures elems != [] && q[0] in tags && elems[0] == tags[q[0]] && Holds(tags, elems[1..], q[1..])
  {
  }

  /** A tag for each thread. */
  method MakeTags(threads: seq<Tid>) returns (made: map<Tid, Elem>, ghost ns: set<Elem>)
    ensures fresh(ns) && OneEach(made) && (forall t :: t in made <==> t in threads)
            && forall t :: t in made ==> made[t] in ns
  {
    made, ns := map[], {};
    var k := 0;
    while k < |threads|
      invariant 0 <= k <= |threads| && fresh(ns) && OneEach(made) && (forall t :: t in made <==> t in threads[..k])
      invariant forall t :: t in made ==> made[t] in ns
    {
      var e := new Elem();
      made := made[threads[k] := e];
      ns := ns + {e};
      assert threads[..k + 1] == threads[..k] + [threads[k]];
      k := k + 1;
    }
    assert threads[..k] == threads;
  }

  /** Empty lists, one `list_init` after another. */
  method MakeLists(n: nat) returns (all: seq<List>, ghost ns: set<Elem>)
    ensures |all| == n && fresh(ns) && forall i :: 0 <= i < n ==> fresh(all[i]) && all[i].Valid() && all[i].elems == []
    ensures forall i, e :: 0 <= i < n && e in all[i].Nodes() ==> e in ns
    ensures forall i, j :: 0 <= i < j < n ==> all[i] != all[j]
    ensures forall i, j, e :: 0 <= i < n && 0 <= j < n && e in all[i].Nodes() && e in all[j].Nodes() ==> i == j
  {
    all, ns := [], {};
    while |all| < n
      invariant |all| <= n && fresh(ns)
      invariant forall i :: 0 <= i < |all| ==> fresh(all[i]) && all[i].Valid() && all[i].elems == []
      invariant forall i, e :: 0 <= i < |all| && e in all[i].Nodes() ==> e in ns
      invariant forall i, j :: 0 <= i < j < |all| ==> all[i] != all[j]
      invariant forall i, j, e :: 0 <= i < |all| && 0 <= j < |all| && e in all[i].Nodes() && e in all[j].Nodes() ==>
                  i == j
    {
      var l := new List();
      assert l.Nodes() == [l.head, l.tail];
      all := all + [l];
      ns := ns + {l.head, l.tail};
    }
  }

  class Tags {
    /** The tags of the threads. */
    var tags: map<Tid, Elem>
    /** The ready list, and behind it the waiters of the semaphores. */
    const lists: seq<List>
    ghost var nodes: set<Elem>

    /** Tags for `threads` and `n` empty lists: one `list_init` after another. */
    constructor (threads: seq<Tid>, n: nat)
      ensures Valid() && |lists| == n && (forall t :: t in tags <==> t in threads)
      ensures fresh(nodes) && (forall i :: 0 <= i < n ==> fresh(lists[i]) && lists[i].elems == [])
    {
      var made, ts := MakeTags(threads);
      var all, ns := MakeLists(n);
      tags, lists, nodes := made, all, ts + ns;
      new;
      forall i | 0 <= i < |lists|
        ensures Inside(i) && (forall t :: t in tags ==> tags[t] != lists[i].head && tags[t] != lists[i].tail)
      {
        assert lists[i].head in lists[i].Nodes() && lists[i].tail in lists[i].Nodes();
      }
    }

    ghost function Elems(): (r: seq<seq<Elem>>)
      reads lists
      ensures |r| == |lists| && forall i :: 0 <= i < |lists| ==> r[i] == lists[i].elems
    {
      seq(|lists|, i reads lists requires 0 <= i < |lists| => lists[i].elems)
    }

    /** One tag for each thread; all lists different and disjoint; no tag is the end of a list. */
    ghost predicate Apart()
      reads this, lists
    {
      && OneEach(tags)
      && (forall i, j :: 0 <= i < j < |lists| ==> lists[i] != lists[j])
      && (forall i, j, e :: 0 <= i < |lists| && 0 <= j < |lists| && e in lists[i].Nodes() && e in lists[j].Nodes() ==>
            i == j)
      && (forall i, t :: 0 <= i < |lists| && t in tags ==> tags[t] != lists[i].head && tags[t] != lists[i].tail)
    }

    ghost predicate Inside(i: nat)
      requires i < |lists|
      reads this, lists
    {
      lists[i].head in nodes && lists[i].tail in nodes && forall e :: e in lists[i].Nodes() ==> e in nodes
    }

    ghost predicate Valid()
      reads this, lists, nodes
    {
      && Apart() && (forall t :: t in tags ==> tags[t] in nodes)
      && forall i :: 0 <= i < |lists| ==> Inside(i) && lists[i].Valid()
    }

    /** The tag is in no list. */
    ghost predicate Unlinked(e: Elem)
      reads lists
    {
      forall i :: 0 <= i < |lists| ==> e !in lists[i].Nodes()
    }

    /** The tag of a thread that is in no queue is in no list. */
    lemma LooseTag(t: Tid, qs: seq<seq<Tid>>)
      requires Apart() && Shows(tags, Elems(), qs) && t in tags && Unqueued(t, qs)
      ensures Unlinked(tags[t])
    {
      forall i | 0 <= i < |lists|
        ensures tags[t] !in lists[i].Nodes()
      {
        assert Holds(tags, Elems()[i], qs[i]);
        NotListed(tags, lists[i].elems, qs[i], t);
        hide Holds;
      }
    }

    /** One list grows at its end by a loose tag, and all others stay. */
    method AppendTag(i: nat, e: Elem)
      requires Valid() && i < |lists| && Unlinked(e) && e in nodes
      requires forall j :: 0 <= j < |lists| ==> e != lists[j].head && e != lists[j].tail
      modifies lists, nodes
      ensures Valid() && Elems() == old(Elems())[i := old(lists[i].elems) + [e]]
    {
      assert forall j :: 0 <= j < |lists| && j != i ==> lists[j] != lists[i];
      lists[i].Append(e);
      forall j | 0 <= j < |lists| && j != i
        ensures lists[j].Valid() && lists[j].elems == old(lists[j].elems) && lists[j].Nodes() == old(lists[j].Nodes())
      {
        Unreached(lists[j]);
      }
    }

    /** One list grows at its front by a loose tag, and all others stay. */
    method PushTag(i: nat, e: Elem)
      requires Valid() && i < |lists| && Unlinked(e) && e in nodes
      requires forall j :: 0 <= j < |lists| ==> e != lists[j].head && e != lists[j].tail
      modifies lists, nodes
      ensures Valid() && Elems() == old(Elems())[i := [e] + old(lists[i].elems)]
    {
      assert forall j :: 0 <= j < |lists| && j != i ==> lists[j] != lists[i];
      lists[i].Push(e);
      forall j | 0 <= j < |lists| && j != i
        ensures lists[j].Valid() && lists[j].elems == old(lists[j].elems) && lists[j].Nodes() == old(lists[j].Nodes())
      {
        Unreached(lists[j]);
      }
    }

    /** One list loses its first element, and all others stay. */
    method PopTag(i: nat) returns (e: Elem)
      requires Valid() && i < |lists| && lists[i].elems != []
      modifies lists, nodes
      ensures Valid() && e == old(lists[i].elems)[0] && Elems() == old(Elems())[i := old(lists[i].elems)[1..]]
    {
      assert forall j :: 0 <= j < |lists| && j != i ==> lists[j] != lists[i];
      e := lists[i].Pop();
      forall j | 0 <= j < |lists| && j != i
        ensures lists[j].Valid() && lists[j].elems == old(lists[j].elems) && lists[j].Nodes() == old(lists[j].Nodes())
      {
        Unreached(lists[j]);
      }
    }

    /** `list_append` of the tag of a thread in no queue. */
    method Append(i: nat, e: Elem, ghost t: Tid, ghost qs: seq<seq<Tid>>)
      requires Valid() && Shows(tags, Elems(), qs) && i < |lists| && t in tags && e == tags[t] && Unqueued(t, qs)
      modifies lists, nodes
      ensures Valid() && Shows(tags, Elems(), qs[i := qs[i] + [t]])
    {
      hide Holds;
      LooseTag(t, qs);
      assert Holds(tags, Elems()[i], qs[i]);
      HoldsAppend(tags, lists[i].elems, qs[i], t);
      AppendTag(i, e);
    }

    /** `list_push` of the tag of a thread in no queue. */
    method Push(i: nat, e: Elem, ghost t: Tid, ghost qs: seq<seq<Tid>>)
      requires Valid() && Shows(tags, Elems(), qs) && i < |lists| && t in tags && e == tags[t] && Unqueued(t, qs)
      modifies lists, nodes
      ensures Valid() && Shows(tags, Elems(), qs[i := [t] + qs[i]])
    {
      hide Holds;
      LooseTag(t, qs);
      assert Holds(tags, Elems()[i], qs[i]);
      HoldsAppend(tags, lists[i].elems, qs[i], t);
      PushTag(i, e);
    }

    /** `list_pop`: the tag of the first thread. */
    method Pop(i: nat, ghost qs: seq<seq<Tid>>) returns (e: Elem)
      requires Valid() && Shows(tags, Elems(), qs) && i < |lists| && qs[i] != []
      modifies lists, nodes
      ensures Valid() && Shows(tags, Elems(), qs[i := qs[i][1..]]) && qs[i][0] in tags && e == tags[qs[i][0]]
    {
      hide Holds;
      assert Holds(tags, Elems()[i], qs[i]);
      HoldsPop(tags, lists[i].elems, qs[i]);
      e := PopTag(i);
    }

    /** `elem_find` of the tag of a thread. */
    method Find(i: nat, e: Elem, ghost t: Tid, ghost qs: seq<seq<Tid>>) returns (b: bool)
      requires Valid() && Shows(tags, Elems(), qs) && i < |lists| && t in tags && e == tags[t]
      ensures b <==> t in qs[i]
    {
      assert Holds(tags, Elems()[i], qs[i]);
      NotListed(tags, lists[i].elems, qs[i], t);
      hide Holds;
      b := lists[i].Find(e);
    }

    /** `list_empty` */
    method Empty(i: nat, ghost qs: seq<seq<Tid>>) returns (b: bool)
      requires Valid() && Shows(tags, Elems(), qs) && i < |lists|
      ensures b <==> qs[i] == []
    {
      assert Holds(tags, Elems()[i], qs[i]);
      b := lists[i].Empty();
    }

    // -------------------------------------------------------------------------------------
    // The list operations of the kernel
    // -------------------------------------------------------------------------------------

    /** The lists in memory are the queues of the kernel. */
    ghost predicate Mirrors(k: State, names: seq<SemaId>)
      reads this, lists, nodes
    {
      && Valid() && Named(k, names) && tags.Keys == k.sched.tasks.Keys && Shows(tags, Elems(), Queues(k, names))
    }

    /** `sema_up` on the lists: the tag of the first waiter moves to the front of the ready list. */
    method SemaUp(x: nat, ghost k: State, ghost names: seq<SemaId>) returns (ok: bool)
      requires Mirrors(k, names) && Wf(k) && x < |names| && Exclusive(Queues(k, names))
               && Kernel.SemaUp(k, names[x]).Done?
      modifies lists, nodes
      ensures ok && Mirrors(Kernel.SemaUp(k, names[x]).value, names)
    {
      hide Shows, Exclusive, Wf, Valid, Kernel.SemaUp, Queues, Named;
      ghost var qs := Queues(k, names);
      UpQueues(k, names, x);
      ShowsLength(tags, Elems(), qs);
      var empty := Empty(x + 1, qs);
      if empty { return true; }
      ghost var t := qs[x + 1][0];
      var e := Pop(x + 1, qs);
      ghost var qs1 := qs[x + 1 := qs[x + 1][1..]];
      Leaves(qs, x + 1);
      var found := Find(0, e, t, qs1);
      if found { return false; }
      Push(0, e, t, qs1);
      return true;
    }

    /** `schedule` on the lists, for a thread that does not go on: idle if nobody is ready, then the first. */
    method Dispatch(idle: Elem, ghost t: Tid, ghost qs: seq<seq<Tid>>) returns (ok: bool, next: Elem)
      requires Valid() && Shows(tags, Elems(), qs) && |lists| > 0 && t in tags && idle == tags[t]
      requires qs[0] == [] ==> Unqueued(t, qs)
      modifies lists, nodes
      ensures var ready := if qs[0] == [] then [t] else qs[0];
              ok && Valid() && Shows(tags, Elems(), qs[0 := ready[1..]]) && ready[0] in tags && next == tags[ready[0]]
    {
      hide Shows, Valid;
      next := idle;
      ghost var qs1 := qs;
      ShowsLength(tags, Elems(), qs);
      var empty := Empty(0, qs);
      if empty {
        var found := Find(0, idle, t, qs);
        if found { return false, next; }
        Push(0, idle, t, qs);
        qs1 := qs[0 := [t] + qs[0]];
      }
      next := Pop(0, qs1);
      ok := true;
      assert [t] + [] == [t];
      Overwrite(qs, 0, [t], [t][1..]);
    }

    /** The waiting turn of `sema_down` on the lists: the tag of the running thread joins the waiters, and
        the next thread leaves the ready list. */
    method SemaWait(x: nat, cur: Elem, idle: Elem, ghost k: State, ghost names: seq<SemaId>)
        returns (ok: bool, next: Elem, ghost k': State)
      requires x < |names| && AboutToWait(k, names[x]) && Mirrors(k, names)
      requires k.sched.cur in tags && cur == tags[k.sched.cur] && k.sched.idle in tags && idle == tags[k.sched.idle]
      modifies lists, nodes
      ensures ok && After(k, Advance, k') && Mirrors(k', names) && k'.sched.cur in tags && next == tags[k'.sched.cur]
    {
      hide Shows, Valid, AboutToWait, After, Queues, Named;
      ghost var qs, me := Queues(k, names), k.sched.cur;
      k' := WaitQueues(k, names, x);
      ShowsLength(tags, Elems(), qs);
      next := cur;
      var found := Find(x + 1, cur, me, qs);
      if found { return false, next, k'; }
      Append(x + 1, cur, me, qs);
      ok, next := Dispatch(idle, k.sched.idle, qs[x + 1 := qs[x + 1] + [me]]);
    }

    /** The end of a time slice and `thread_yield` on the lists: the tag of the running thread goes to the end of
        the ready list, and the first leaves it. */
    method Rotate(cur: Elem, idle: Elem, ghost a: Action, ghost k: State, ghost names: seq<SemaId>)
        returns (ok: bool, next: Elem, ghost k': State)
      requires GivesWay(k, a) && Mirrors(k, names)
      requires k.sched.cur in tags && cur == tags[k.sched.cur] && k.sched.idle in tags && idle == tags[k.sched.idle]
      modifies lists, nodes
      ensures ok && After(k, a, k') && Mirrors(k', names) && k'.sched.cur in tags && next == tags[k'.sched.cur]
    {
      hide Shows, Valid, GivesWay, After, Queues, Named;
      ghost var qs, me := Queues(k, names), k.sched.cur;
      k' := RotateQueues(k, a, names);
      ShowsLength(tags, Elems(), qs);
      next := cur;
      var found := Find(0, cur, me, qs);
      if found { return false, next, k'; }
      Append(0, cur, me, qs);
      Overwrite(qs, 0, qs[0] + [me], (qs[0] + [me])[1..]);
      ok, next := Dispatch(idle, k.sched.idle, qs[0 := qs[0] + [me]]);
    }

    /** `thread_block` outside semaphores on the lists: the next thread leaves the ready list. */
    method Sleep(idle: Elem, ghost st: Status, ghost k: State, ghost names: seq<SemaId>)
        returns (ok: bool, next: Elem, ghost k': State)
      requires Inv(k) && Enabled(k, Action.Sleep(st)) && Mirrors(k, names)
      requires k.sched.idle in tags && idle == tags[k.sched.idle]
      modifies lists, nodes
      ensures ok && After(k, Action.Sleep(st), k') && Mirrors(k', names)
      ensures k'.sched.cur in tags && next == tags[k'.sched.cur]
    {
      hide Shows, Valid, Inv, Enabled, After, Queues, Named;
      k' := SleepQueues(k, st, names);
      ShowsLength(tags, Elems(), Queues(k, names));
      ok, next := Dispatch(idle, k.sched.idle, Queues(k, names));
    }

    /** `thread_unblock` outside semaphores on the lists: the tag goes to the front of the ready list. */
    method Wake(e: Elem, ghost t: Tid, ghost k: State, ghost names: seq<SemaId>) returns (ok: bool, ghost k': State)
      requires Inv(k) && Enabled(k, Action.Wake(t)) && Mirrors(k, names) && t in tags && e == tags[t]
      modifies lists, nodes
      ensures ok && After(k, Action.Wake(t), k') && Mirrors(k', names)
    {
      hide Shows, Valid, Inv, Enabled, After, Queues, Named;
      ghost var qs := Queues(k, names);
      k' := WakeQueues(k, t, names);
      ShowsLength(tags, Elems(), qs);
      var found := Find(0, e, t, qs);
      if found { return false, k'; }
      Push(0, e, t, qs);
      return true, k';
    }

    /** `thread_start` on the lists: the tag of a new thread goes to the end of the ready list. */
    method Start(t: Tid, ghost prio: nat, ghost k: State, ghost names: seq<SemaId>) returns (ok: bool, ghost k': State)
      requires Inv(k) && Enabled(k, Spawn(t, prio)) && Mirrors(k, names)
      modifies this, lists, nodes
      ensures ok && After(k, Spawn(t, prio), k') && Mirrors(k', names) && fresh(nodes - old(nodes))
    {
      hide Shows, Inv, Enabled, After, Queues, Named;
      ghost var qs := Queues(k, names);
      k' := StartQueues(k, t, prio, names);
      ShowsLength(tags, Elems(), qs);
      var e := new Elem();
      AddTag(t, e, qs);
      hide Valid;
      var found := Find(0, e, t, qs);
      if found { return false, k'; }
      Append(0, e, t, qs);
      return true, k';
    }

    /** A new thread has a tag, which is in no list. */
    method AddTag(t: Tid, e: Elem, ghost qs: seq<seq<Tid>>)
      requires Valid() && Shows(tags, Elems(), qs) && t !in tags && e !in nodes
      modifies this
      ensures Valid() && tags == old(tags)[t := e] && nodes == old(nodes) + {e} && Shows(tags, Elems(), qs)
    {
      assert forall i :: 0 <= i < |lists| ==> Inside(i) && Holds(tags, Elems()[i], qs[i]);
      tags, nodes := tags[t := e], nodes + {e};
      assert forall i :: 0 <= i < |lists| ==> Holds(tags, Elems()[i], qs[i]);
    }
  }

  // ---------------------------------------------------------------------------------------
  // The queues of the kernel
  // ---------------------------------------------------------------------------------------

  /** The running thread is about to wait in `sema_down` on `s`. */
  ghost predicate AboutToWait(k: State, s: SemaId) {
    Inv(k) && s in k.semas && k.semas[s].value == 0 && (Me(k).pc == Down(s) || Me(k).pc == Retest(s))
  }

  /** The running thread yields, or its time slice is at its end. */
  ghost predicate GivesWay(k: State, a: Action) {
    Inv(k) && Enabled(k, a) && (a.Yield? || (a.Tick? && k.sched.tasks[k.sched.cur].ticks == 0))
  }

  /** `k'` is the state after a step of the kernel. */
  ghost predicate After(k: State, a: Action, k': State) {
    Enabled(k, a) && Step(k, a) == Done(k')
  }

  /** Every list of waiters has its semaphore, and each semaphore one list. */
  ghost predicate Named(k: State, names: seq<SemaId>) {
    (forall i :: 0 <= i < |names| ==> names[i] in k.semas)
    && forall i, j :: 0 <= i < j < |names| ==> names[i] != names[j]
  }

  ghost function Queues(k: State, names: seq<SemaId>): (qs: seq<seq<Tid>>)
    requires Named(k, names)
    ensures |qs| == |names| + 1 && qs[0] == k.sched.ready
    ensures forall i :: 0 <= i < |names| ==> qs[i + 1] == k.semas[names[i]].waiters
  {
    [k.sched.ready] + seq(|names|, i requires 0 <= i < |names| => k.semas[names[i]].waiters)
  }

  /** No thread is in two queues or twice in one. */
  ghost predicate Exclusive(qs: seq<seq<Tid>>) {
    && (forall i :: 0 <= i < |qs| ==> NoDup(qs[i]))
    && (forall i, j, t :: 0 <= i < |qs| && 0 <= j < |qs| && t in qs[i] && t in qs[j] ==> i == j)
  }

  lemma ShowsLength(tags: map<Tid, Elem>, lists: seq<seq<Elem>>, qs: seq<seq<Tid>>)
    requires Shows(tags, lists, qs)
    ensures |lists| == |qs| && forall i :: 0 <= i < |qs| && qs[i] != [] ==> qs[i][0] in tags
  {
    forall i | 0 <= i < |qs| && qs[i] != []
      ensures qs[i][0] in tags
    {
      assert Holds(tags, lists[i], qs[i]);
    }
  }

  lemma Overwrite(qs: seq<seq<Tid>>, i: nat, a: seq<Tid>, b: seq<Tid>)
    requires i < |qs|
    ensures qs[i := a][i := b] == qs[i := b]
  {
  }

  /** A thread taken from its queue is in none. */
  lemma Leaves(qs: seq<seq<Tid>>, i: nat)
    requires Exclusive(qs) && i < |qs| && qs[i] != []
    ensures Unqueued(qs[i][0], qs[i := qs[i][1..]])
  {
    var t, qs' := qs[i][0], qs[i := qs[i][1..]];
    assert NoDup(qs[i]);
    forall j | 0 <= j < |qs'|
      ensures t !in qs'[j]
    {
      if j == i {
        var q := qs[i][1..];
        forall n | 0 <= n < |q|
          ensures q[n] != t
        {
          assert q[n] == qs[i][n + 1];
        }
      } else {
        assert t in qs[i];
      }
    }
  }

  /** What `sema_up` does to the queues. */
  lemma UpQueues(k: State, names: seq<SemaId>, x: nat)
    requires Wf(k) && Named(k, names) && x < |names| && Kernel.SemaUp(k, names[x]).Done?
    ensures var k' := Kernel.SemaUp(k, names[x]).value; var qs := Queues(k, names);
            && Named(k', names) && k'.sched.tasks.Keys == k.sched.tasks.Keys
            && Queues(k', names) ==
                 if qs[x + 1] == [] then qs else qs[x + 1 := qs[x + 1][1..]][0 := [qs[x + 1][0]] + qs[0]]
  {
    hide Wf, Queues;
    var k', qs := Kernel.SemaUp(k, names[x]).value, Queues(k, names);
    assert qs[x + 1] == k.semas[names[x]].waiters;
    QueuesAre(k', names, if qs[x + 1] == [] then qs else qs[x + 1 := qs[x + 1][1..]][0 := [qs[x + 1][0]] + qs[0]]);
  }

  /** What the invariant says about the queues. */
  lemma InvQueues(k: State, names: seq<SemaId>)
    requires Inv(k) && Named(k, names)
    ensures var qs := Queues(k, names);
            && Exclusive(qs) && Unqueued(k.sched.cur, qs)
            && (k.sched.idle !in k.sched.ready ==> Unqueued(k.sched.idle, qs))
  {
    hide Inv, Queues, NoDup;
    var qs := Queues(k, names);
    ReadyOnly(k);
    forall i | 0 <= i < |qs|
      ensures NoDup(qs[i])
      ensures forall t :: t in qs[i] ==> Place(k, names, i, t)
    {
      if i > 0 { WaitersOnly(k, names, i - 1); }
    }
    hide Place;
    forall i, j, t | 0 <= i < |qs| && 0 <= j < |qs| && t in qs[i] && t in qs[j]
      ensures i == j
    {
      OnePlace(k, names, i, j, t);
    }
    forall i | 0 <= i < |qs|
      ensures k.sched.cur !in qs[i] && (k.sched.idle !in k.sched.ready ==> k.sched.idle !in qs[i])
    {
      NoPlace(k, names, i);
    }
  }

  /** Where the state of a thread says that its tag is. */
  ghost predicate Place(k: State, names: seq<SemaId>, i: nat, t: Tid)
    requires i <= |names|
  {
    t in k.sched.tasks
    && if i == 0 then k.sched.tasks[t].status.Ready? else Parked(k.sched.tasks, k.threads, names[i - 1], t)
  }

  lemma ReadyOnly(k: State)
    requires Inv(k)
    ensures NoDup(k.sched.ready)
            && forall t :: t in k.sched.ready ==> t in k.sched.tasks && k.sched.tasks[t].status.Ready?
  {
    hide SemasInv, LocksInv, ChannelsInv, DepthsOk, NoDup, PcsOk, IdsOk;
  }

  lemma WaitersOnly(k: State, names: seq<SemaId>, i: nat)
    requires Inv(k) && Named(k, names) && i < |names|
    ensures NoDup(k.semas[names[i]].waiters)
    ensures forall t :: t in k.semas[names[i]].waiters ==> Parked(k.sched.tasks, k.threads, names[i], t)
  {
    hide TaskInv, LocksInv, ChannelsInv, DepthsOk, NoDup;
    assert SemaInv(k.sched.tasks, k.threads, k.semas[names[i]], names[i]);
  }

  lemma OnePlace(k: State, names: seq<SemaId>, i: nat, j: nat, t: Tid)
    requires Named(k, names) && i <= |names| && j <= |names| && Place(k, names, i, t) && Place(k, names, j, t)
    ensures i == j
  {
  }

  lemma NoPlace(k: State, names: seq<SemaId>, i: nat)
    requires Inv(k) && i <= |names|
    ensures !Place(k, names, i, k.sched.cur)
    ensures k.sched.idle !in k.sched.ready ==> !Place(k, names, i, k.sched.idle)
  {
    hide SemasInv, LocksInv, ChannelsInv, DepthsOk, NoDup, PcsOk, IdsOk;
  }

  /** What a waiting turn of `sema_down` does to the queues. */
  lemma WaitQueues(k: State, names: seq<SemaId>, x: nat) returns (k': State)
    requires x < |names| && AboutToWait(k, names[x]) && Named(k, names)
    ensures After(k, Advance, k')
    ensures var qs := Queues(k, names);
            var qs1 := qs[x + 1 := qs[x + 1] + [k.sched.cur]];
            var ready := if qs[0] == [] then [k.sched.idle] else qs[0];
            && Named(k', names) && k'.sched.tasks.Keys == k.sched.tasks.Keys && Unqueued(k.sched.cur, qs)
            && k'.sched.cur == ready[0] && Queues(k', names) == qs1[0 := ready[1..]]
            && (qs[0] == [] ==> Unqueued(k.sched.idle, qs1))
  {
    hide Inv, Wf, Exclusive, After, AboutToWait, Queues, Unqueued;
    k' := WaitStep(k, names[x]);
    WaitFacts(k, names, x);
    var qs := Queues(k, names);
    var ready := if qs[0] == [] then [k.sched.idle] else qs[0];
    QueuesAre(k', names, qs[x + 1 := qs[x + 1] + [k.sched.cur]][0 := ready[1..]]);
  }

  lemma WaitFacts(k: State, names: seq<SemaId>, x: nat)
    requires x < |names| && AboutToWait(k, names[x]) && Named(k, names)
    ensures var qs := Queues(k, names); var qs1 := qs[x + 1 := qs[x + 1] + [k.sched.cur]];
            Unqueued(k.sched.cur, qs) && (qs[0] == [] ==> Unqueued(k.sched.idle, qs1))
  {
    hide Inv, Wf, Exclusive, Queues;
    InvQueues(k, names);
    NotIdle(k, names[x]);
  }

  lemma QueuesAre(k: State, names: seq<SemaId>, qs: seq<seq<Tid>>)
    requires Named(k, names) && |qs| == |names| + 1 && qs[0] == k.sched.ready
    requires forall i :: 0 <= i < |names| ==> k.semas[names[i]].waiters == qs[i + 1]
    ensures Queues(k, names) == qs
  {
    var r := Queues(k, names);
    forall i | 0 <= i < |qs|
      ensures r[i] == qs[i]
    {
      if i > 0 { assert r[(i - 1) + 1] == qs[(i - 1) + 1]; }
    }
  }

  lemma WaitStep(k: State, s: SemaId) returns (k': State)
    requires AboutToWait(k, s)
    ensures After(k, Advance, k')
    ensures k'.semas == k.semas[s := k.semas[s].(waiters := k.semas[s].waiters + [k.sched.cur])]
    ensures k'.sched.tasks.Keys == k.sched.tasks.Keys && k'.sched.ready == Rest(k.sched.ready)
    ensures k'.sched.cur == Front(k.sched.ready, k.sched.idle)
  {
    hide Inv, ThreadBlock, SchedInv, PcsOk, IdsOk, Scheduler.Frame;
    SchedOf(k);
    BlockKeeps(k.sched, Blocked);
    StepKeeps(k, Advance);
    FrameKeys(k.sched, ThreadBlock(k.sched, Blocked).value, {k.sched.cur, Front(k.sched.ready, k.sched.idle)});
    k' := Step(k, Advance).value;
  }

  lemma FrameKeys(s: Sched, s': Sched, touched: set<Tid>)
    requires Scheduler.Frame(s, s', touched)
    ensures s'.tasks.Keys == s.tasks.Keys
  {
  }

  lemma SchedOf(k: State)
    requires Inv(k)
    ensures SchedInv(k.sched) && Wf(k)
  {
    hide SemasInv, LocksInv, ChannelsInv, DepthsOk, SchedInv;
  }

  lemma NotIdle(k: State, s: SemaId)
    requires AboutToWait(k, s)
    ensures k.sched.idle != k.sched.cur
  {
    hide SemasInv, LocksInv, ChannelsInv, DepthsOk, SchedInv;
  }

  /** What the end of a time slice or a yield does to the queues. */
  lemma RotateQueues(k: State, a: Action, names: seq<SemaId>) returns (k': State)
    requires GivesWay(k, a) && Named(k, names)
    ensures After(k, a, k')
    ensures var qs := Queues(k, names); var ready := qs[0] + [k.sched.cur];
            && Named(k', names) && k'.sched.tasks.Keys == k.sched.tasks.Keys && Unqueued(k.sched.cur, qs)
            && k'.sched.cur == ready[0] && Queues(k', names) == qs[0 := ready[1..]]
  {
    hide Inv, Wf, Exclusive, After, Queues, Enabled;
    k' := RotateStep(k, a);
    InvQueues(k, names);
    var qs := Queues(k, names);
    QueuesAre(k', names, qs[0 := (qs[0] + [k.sched.cur])[1..]]);
  }

  lemma RotateStep(k: State, a: Action) returns (k': State)
    requires GivesWay(k, a)
    ensures After(k, a, k') && k'.semas == k.semas && k'.sched.tasks.Keys == k.sched.tasks.Keys
    ensures var ready := k.sched.ready + [k.sched.cur]; k'.sched.ready == ready[1..] && k'.sched.cur == ready[0]
  {
    hide Inv, TimerTick, ThreadYield, SchedInv, PcsOk, IdsOk, Scheduler.Frame;
    SchedOf(k);
    TickKeeps(k.sched);
    YieldKeeps(k.sched);
    StepKeeps(k, a);
    var touched := {k.sched.cur, (k.sched.ready + [k.sched.cur])[0]};
    FrameKeys(k.sched, if a.Tick? then TimerTick(k.sched).value else ThreadYield(k.sched).value, touched);
    k' := Step(k, a).value;
  }

  /** What `thread_block` does to the queues. */
  lemma SleepQueues(k: State, st: Status, names: seq<SemaId>) returns (k': State)
    requires Inv(k) && Enabled(k, Sleep(st)) && Named(k, names)
    ensures After(k, Sleep(st), k')
    ensures var qs := Queues(k, names); var ready := if qs[0] == [] then [k.sched.idle] else qs[0];
            && Named(k', names) && k'.sched.tasks.Keys == k.sched.tasks.Keys
            && k'.sched.cur == ready[0] && Queues(k', names) == qs[0 := ready[1..]]
            && (qs[0] == [] ==> Unqueued(k.sched.idle, qs))
  {
    hide Inv, Wf, Exclusive, After, Queues, Enabled;
    k' := SleepStep(k, st);
    InvQueues(k, names);
    var qs := Queues(k, names);
    var ready := if qs[0] == [] then [k.sched.idle] else qs[0];
    QueuesAre(k', names, qs[0 := ready[1..]]);
  }

  lemma SleepStep(k: State, st: Status) returns (k': State)
    requires Inv(k) && Enabled(k, Sleep(st))
    ensures After(k, Sleep(st), k') && k'.semas == k.semas && k'.sched.tasks.Keys == k.sched.tasks.Keys
    ensures k'.sched.ready == Rest(k.sched.ready) && k'.sched.cur == Front(k.sched.ready, k.sched.idle)
  {
    hide Inv, ThreadBlock, SchedInv, PcsOk, IdsOk, Scheduler.Frame;
    SchedOf(k);
    BlockKeeps(k.sched, st);
    StepKeeps(k, Sleep(st));
    FrameKeys(k.sched, ThreadBlock(k.sched, st).value, {k.sched.cur, Front(k.sched.ready, k.sched.idle)});
    k' := Step(k, Sleep(st)).value;
  }

  /** What `thread_unblock` does to the queues. */
  lemma WakeQueues(k: State, t: Tid, names: seq<SemaId>) returns (k': State)
    requires Inv(k) && Enabled(k, Wake(t)) && Named(k, names)
    ensures After(k, Wake(t), k')
    ensures var qs := Queues(k, names);
            && Named(k', names) && k'.sched.tasks.Keys == k.sched.tasks.Keys
            && Unqueued(t, qs) && Queues(k', names) == qs[0 := [t] + qs[0]]
  {
    hide Inv, Wf, Exclusive, After, Queues, Enabled;
    k' := WakeStep(k, t);
    SleeperUnqueued(k, t, names);
    var qs := Queues(k, names);
    QueuesAre(k', names, qs[0 := [t] + qs[0]]);
  }

  lemma WakeStep(k: State, t: Tid) returns (k': State)
    requires Inv(k) && Enabled(k, Wake(t))
    ensures After(k, Wake(t), k') && k'.semas == k.semas && k'.sched.tasks.Keys == k.sched.tasks.Keys
    ensures k'.sched.ready == [t] + k.sched.ready
  {
    hide Inv, ThreadUnblock, SchedInv, PcsOk, IdsOk, Scheduler.Frame;
    SchedOf(k);
    UnblockKeeps(k.sched, t);
    StepKeeps(k, Wake(t));
    FrameKeys(k.sched, ThreadUnblock(k.sched, t).value, {t});
    k' := Step(k, Wake(t)).value;
  }

  /** A thread that sleeps outside semaphores is in no queue. */
  lemma SleeperUnqueued(k: State, t: Tid, names: seq<SemaId>)
    requires Inv(k) && Enabled(k, Wake(t)) && Named(k, names)
    ensures Unqueued(t, Queues(k, names))
  {
    hide Inv, Queues;
    var qs := Queues(k, names);
    ReadyOnly(k);
    forall i | 0 <= i < |qs|
      ensures t !in qs[i]
    {
      if i > 0 { WaitersOnly(k, names, i - 1); }
    }
  }

  /** What `thread_start` does to the queues. */
  lemma StartQueues(k: State, t: Tid, prio: nat, names: seq<SemaId>) returns (k': State)
    requires Inv(k) && Enabled(k, Spawn(t, prio)) && Named(k, names)
    ensures After(k, Spawn(t, prio), k')
    ensures var qs := Queues(k, names);
            && t !in k.sched.tasks && Named(k', names) && k'.sched.tasks.Keys == k.sched.tasks.Keys + {t}
            && Unqueued(t, qs) && Queues(k', names) == qs[0 := qs[0] + [t]]
  {
    hide Inv, Exclusive, Queues, SchedInv, PcsOk, IdsOk;
    StepKeeps(k, Spawn(t, prio));
    k' := Step(k, Spawn(t, prio)).value;
    var qs := Queues(k, names);
    ReadyOnly(k);
    forall i | 0 <= i < |qs|
      ensures t !in qs[i]
    {
      if i > 0 { WaitersOnly(k, names, i - 1); }
    }
    QueuesAre(k', names, qs[0 := qs[0] + [t]]);
  }
}
