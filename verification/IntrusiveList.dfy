/**
 `lib/kernel/list.c`: doubly linked lists through links embedded in the elements, with a head and a
 tail sentinel.  Every operation is proved against the matching operation on sequences.
 */
module IntrusiveList {

  /** `e` inserted before position `k`. */
  ghost function Inserted<T>(s: seq<T>, k: nat, e: T): (r: seq<T>)
    requires k <= |s|
    ensures |r| == |s| + 1 && r[k] == e
    ensures forall i :: 0 <= i < k ==> r[i] == s[i]
    ensures forall i :: k < i < |r| ==> r[i] == s[i - 1]
  {
    s[..k] + [e] + s[k..]
  }

  /** Position `k` taken out. */
  ghost function Removed<T>(s: seq<T>, k: nat): (r: seq<T>)
    requires k < |s|
    ensures |r| == |s| - 1
    ensures forall i :: 0 <= i < k ==> r[i] == s[i]
    ensures forall i :: k <= i < |r| ==> r[i] == s[i + 1]
  {
    s[..k] + s[k + 1..]
  }

  class Elem {
    var prev: Elem?
    var next: Elem?

    constructor ()
      ensures prev == null && next == null
    {
      prev, next := null, null;
    }
  }

  /** The nodes are distinct and linked in order, both ways. */
  ghost predicate Linked(nodes: seq<Elem>)
    reads nodes
  {
    && (forall i, j :: 0 <= i < j < |nodes| ==> nodes[i] != nodes[j])
    && (forall i, j :: 0 <= i < j < |nodes| && j == i + 1 ==> nodes[i].next == nodes[j] && nodes[j].prev == nodes[i])
  }

  /** `list_insert_before` */
  method InsertBefore(before: Elem, elem: Elem)
    requires before.prev != null && elem != before && elem != before.prev && before.prev != before
    modifies before, before.prev, elem
    ensures elem.prev == old(before.prev) && elem.next == before && before.prev == elem
    ensures old(before.prev).next == elem
    ensures before.next == old(before.next) && old(before.prev).prev == old(before.prev.prev)
  {
    before.prev.next := elem;
    elem.prev := before.prev;
    elem.next := before;
    before.prev := elem;
  }

  /** `list_remove`; the removed element keeps its own links. */
  method Unlink(elem: Elem)
    requires elem.prev != null && elem.next != null
    requires elem.prev != elem.next && elem.prev != elem && elem.next != elem
    modifies elem.prev, elem.next
    ensures elem.prev == old(elem.prev) && elem.next == old(elem.next)
    ensures elem.prev.next == elem.next && elem.next.prev == elem.prev
    ensures elem.prev.prev == old(elem.prev.prev) && elem.next.next == old(elem.next.next)
  {
    elem.prev.next := elem.next;
    elem.next.prev := elem.prev;
  }

  /** Nodes linked everywhere but before node `k`, where `elem` is linked in. */
  lemma LinkedInsert(nodes: seq<Elem>, k: nat, elem: Elem)
    requires 0 < k < |nodes| && elem !in nodes && forall i, j :: 0 <= i < j < |nodes| ==> nodes[i] != nodes[j]
    requires forall i, j :: 0 <= i < j < |nodes| && j == i + 1 && j != k ==>
               nodes[i].next == nodes[j] && nodes[j].prev == nodes[i]
    requires nodes[k - 1].next == elem && elem.prev == nodes[k - 1] && elem.next == nodes[k] && nodes[k].prev == elem
    ensures Linked(Inserted(nodes, k, elem))
  {
    hide Inserted;
  }

  class List {
    const head: Elem
    const tail: Elem
    ghost var elems: seq<Elem>

    ghost function Nodes(): seq<Elem>
      reads this
    {
      [head] + elems + [tail]
    }

    ghost predicate Valid()
      reads this, head, tail, Nodes()
    {
      Linked(Nodes()) && head.prev == null && tail.next == null
    }

    /** `list_init` */
    constructor ()
      ensures Valid() && elems == [] && fresh(head) && fresh(tail)
    {
      var h := new Elem();
      var t := new Elem();
      head, tail := h, t;
      elems := [];
      new;
      head.next := tail;
      tail.prev := head;
    }

    /** The pointer steps of an insertion before node `k`. */
    method InsertAt(ghost k: nat, before: Elem, elem: Elem)
      requires Valid() && elem !in Nodes() && 0 < k < |Nodes()| && before == Nodes()[k]
      modifies this, Nodes(), elem
      ensures Valid() && elems == Inserted(old(elems), k - 1, elem)
      ensures forall e :: e in Nodes() ==> e in old(Nodes()) || e == elem
    {
      ghost var nodes := Nodes();
      assert before.prev == nodes[k - 1];
      InsertBefore(before, elem);
      assert forall i :: 0 <= i < |nodes| && i != k - 1 ==> nodes[i].next == old(nodes[i].next);
      assert forall i :: 0 <= i < |nodes| && i != k ==> nodes[i].prev == old(nodes[i].prev);
      assert nodes[0] == head && nodes[|nodes| - 1] == tail;
      elems := Inserted(elems, k - 1, elem);
      assert Nodes() == Inserted(nodes, k, elem);
      hide Nodes, Inserted, Linked;
      ghost var n := Inserted(nodes, k, elem);
      assert forall e :: e in n ==> e in nodes || e == elem;
      LinkedInsert(nodes, k, elem);
    }

    /** `list_push` */
    method Push(elem: Elem)
      requires Valid() && elem !in Nodes()
      modifies this, Nodes(), elem
      ensures Valid() && elems == [elem] + old(elems)
      ensures forall e :: e in Nodes() ==> e in old(Nodes()) || e == elem
    {
      assert Nodes()[0].next == Nodes()[1];
      InsertAt(1, head.next, elem);
    }

    /** `list_append` */
    method Append(elem: Elem)
      requires Valid() && elem !in Nodes()
      modifies this, Nodes(), elem
      ensures Valid() && elems == old(elems) + [elem]
      ensures forall e :: e in Nodes() ==> e in old(Nodes()) || e == elem
    {
      InsertAt(|elems| + 1, tail, elem);
    }

    /** `list_remove` of the element at position `k`. */
    method Remove(elem: Elem, ghost k: nat)
      requires Valid() && k < |elems| && elems[k] == elem
      modifies this, Nodes()
      ensures Valid() && elems == Removed(old(elems), k)
      ensures elem !in Nodes() && forall e :: e in Nodes() ==> e in old(Nodes())
    {
      ghost var nodes := Nodes();
      assert nodes[k + 1] == elem && elem.prev == nodes[k] && elem.next == nodes[k + 2];
      Unlink(elem);
      assert forall i :: 0 <= i < |nodes| && i != k ==> nodes[i].next == old(nodes[i].next);
      assert forall i :: 0 <= i < |nodes| && i != k + 2 ==> nodes[i].prev == old(nodes[i].prev);
      assert nodes[0] == head && nodes[|nodes| - 1] == tail;
      elems := Removed(elems, k);
      assert Nodes() == Removed(nodes, k + 1);
      hide Nodes, Removed;
      ghost var n := Removed(nodes, k + 1);
      assert forall e :: e in n ==> e in nodes && e != elem;
      assert Linked(n);
    }

    /** `list_pop` of a non-empty list */
    method Pop() returns (elem: Elem)
      requires Valid() && elems != []
      modifies this, Nodes()
      ensures Valid() && elem == old(elems)[0] && elems == old(elems)[1..] && elem !in Nodes()
      ensures forall e :: e in Nodes() ==> e in old(Nodes())
    {
      assert Nodes()[0].next == Nodes()[1] == elems[0];
      elem := head.next;
      Remove(elem, 0);
    }

    /** `list_empty` */
    method Empty() returns (b: bool)
      requires Valid()
      ensures b <==> elems == []
    {
      assert Nodes()[0].next == Nodes()[1];
      b := head.next == tail;
      assert elems != [] ==> Nodes()[1] == elems[0] && Nodes()[|elems| + 1] == tail;
    }

    /** `elem_find` */
    method Find(obj: Elem) returns (b: bool)
      requires Valid()
      ensures b <==> obj in elems
    {
      ghost var i := 0;
      assert Nodes()[0].next == Nodes()[1];
      var elem := head.next;
      while elem != tail
        invariant 0 <= i <= |elems| && elem == Nodes()[i + 1]
        invariant obj !in elems[..i]
        decreases |elems| - i
      {
        AtTail(i);
        assert elem == elems[i];
        if elem == obj {
          return true;
        }
        assert elems[..i + 1] == elems[..i] + [elem];
        elem := elem.next;
        i := i + 1;
      }
      AtTail(i);
      assert elems[..i] == elems;
      return false;
    }

    /** A node is the tail only at the end. */
    lemma AtTail(i: nat)
      requires Valid() && i <= |elems|
      ensures Nodes()[i + 1] == tail <==> i == |elems|
      ensures i < |elems| ==> Nodes()[i + 1] == elems[i] && elems[i].next == Nodes()[i + 2]
    {
      assert Nodes()[|elems| + 1] == tail;
    }

    /** `list_len` */
    method Len() returns (n: nat)
      requires Valid()
      ensures n == |elems|
    {
      n := 0;
      assert Nodes()[0].next == Nodes()[1];
      var elem := head.next;
      while elem != tail
        invariant n <= |elems| && elem == Nodes()[n + 1]
        decreases |elems| - n
      {
        AtTail(n);
        n := n + 1;
        elem := elem.next;
      }
      AtTail(n);
    }

    /** `list_traversal`: the first element that satisfies `f`, or null. */
    method Traverse(f: Elem -> bool) returns (r: Elem?)
      requires Valid()
      ensures r == null ==> forall i :: 0 <= i < |elems| ==> !f(elems[i])
      ensures r != null ==>
                exists i :: 0 <= i < |elems| && r == elems[i] && f(elems[i]) && forall j :: 0 <= j < i ==> !f(elems[j])
    {
      ghost var i := 0;
      assert Nodes()[0].next == Nodes()[1];
      var elem := head.next;
      var empty := Empty();
      if empty {
        return null;
      }
      while elem != tail
        invariant 0 <= i <= |elems| && elem == Nodes()[i + 1]
        invariant forall j :: 0 <= j < i ==> !f(elems[j])
        decreases |elems| - i
      {
        AtTail(i);
        if f(elem) {
          return elem;
        }
        elem := elem.next;
        i := i + 1;
      }
      AtTail(i);
      return null;
    }
  }
}
