/**
 `inode_sync`, `inode_open` and `inode_close` of `fs/inode.c` on a disk, a buffer and the list of open
 inodes.
 */
module OpenInodes {
  import opened Common
  import D = Disk
  import opened InodeTable

  // ---------------------------------------------------------------------------------------
  // The list as a value
  // ---------------------------------------------------------------------------------------

  ghost predicate Listed(recs: seq<Inode>, no: nat) {
    exists i :: 0 <= i < |recs| && recs[i].no == no
  }

  /** At most one node for each number; a node is there iff its count is positive; and the count is the
      number `held` of opens less that of closes. */
  ghost predicate Consistent(recs: seq<Inode>, held: map<nat, nat>) {
    && (forall i, j :: 0 <= i < j < |recs| ==> recs[i].no != recs[j].no)
    && (forall i :: 0 <= i < |recs| ==> recs[i].no in held && recs[i].opens == held[recs[i].no])
    && (forall n :: n in held ==> Listed(recs, n) && held[n] > 0)
  }

  lemma RecountKeeps(recs: seq<Inode>, held: map<nat, nat>, i: nat, n: nat)
    requires Consistent(recs, held) && i < |recs| && n > 0
    ensures Consistent(recs[i := recs[i].(opens := n)], held[recs[i].no := n])
  {
    var recs' := recs[i := recs[i].(opens := n)];
    forall m | m in held[recs[i].no := n]
      ensures Listed(recs', m)
    {
      if m == recs[i].no {
        assert recs'[i].no == m;
      } else {
        var j :| 0 <= j < |recs| && recs[j].no == m;
        assert recs'[j].no == m;
      }
    }
  }

  lemma PushKeeps(recs: seq<Inode>, held: map<nat, nat>, r: Inode)
    requires Consistent(recs, held) && !Listed(recs, r.no) && r.opens == 1
    ensures Consistent([r] + recs, held[r.no := 1])
  {
    var recs' := [r] + recs;
    assert forall i :: 0 < i < |recs'| ==> recs'[i] == recs[i - 1];
    forall m | m in held[r.no := 1]
      ensures Listed(recs', m)
    {
      if m == r.no {
        assert recs'[0].no == m;
      } else {
        var j :| 0 <= j < |recs| && recs[j].no == m;
        assert recs'[j + 1].no == m;
      }
    }
  }

  /** A node just read keeps the list consistent exactly if it has the number that was asked for. */
  lemma PushExact(recs: seq<Inode>, held: map<nat, nat>, no: nat, r: Inode)
    requires Consistent(recs, held) && no !in held && r.opens == 1
    ensures Consistent([r] + recs, held[no := 1]) <==> r.no == no
  {
    ListedHeld(recs, held, no);
    if r.no == no {
      PushKeeps(recs, held, r);
    } else {
      var recs' := [r] + recs;
      forall i | 0 <= i < |recs'|
        ensures recs'[i].no != no
      {
        if i > 0 { assert recs'[i] == recs[i - 1]; }
      }
      assert !Listed(recs', no) && no in held[no := 1];
      hide Listed;
    }
  }

  lemma DropKeeps(recs: seq<Inode>, held: map<nat, nat>, i: nat)
    requires Consistent(recs, held) && i < |recs|
    ensures Consistent(recs[..i] + recs[i + 1..], held - {recs[i].no})
  {
    var recs' := recs[..i] + recs[i + 1..];
    assert forall j :: 0 <= j < |recs'| ==> recs'[j] == recs[if j < i then j else j + 1];
    forall m | m in held - {recs[i].no}
      ensures Listed(recs', m)
    {
      var j :| 0 <= j < |recs| && recs[j].no == m;
      assert recs'[if j < i then j else j - 1].no == m;
    }
  }

  // ---------------------------------------------------------------------------------------
  // Buffers
  // ---------------------------------------------------------------------------------------

  /** `memcpy` into a buffer. */
  method Copy(buf: array<D.Byte>, off: nat, rec: seq<D.Byte>)
    requires off + |rec| <= buf.Length
    modifies buf
    ensures buf[..] == D.Splice(old(buf[..]), off, rec)
  {
    forall i | 0 <= i < |rec| {
      buf[off + i] := rec[i];
    }
  }

  lemma SectorsExist(size: nat, lba: nat, n: nat)
    requires D.Served(size, lba, n)
    ensures D.SECTOR * (lba + n) <= size
  {
  }

  lemma ReadPart<T>(data: seq<T>, b: seq<T>, at: nat, len: nat, off: nat, n: nat)
    requires at + len <= |data| && |b| == len && off + n <= len
    ensures D.Splice(b, 0, data[at..at + len])[off..off + n] == data[at + off..at + off + n]
  {
    var part := data[at..at + len];
    var read := D.Splice(b, 0, part);
    forall i | 0 <= i < len
      ensures read[i] == part[i]
    {
      D.SpliceAt(b, 0, part, i);
    }
    hide D.Splice;
    assert read == part;
    D.SliceOfSlice(data, at, len, off, n);
  }

  /** A `struct inode` in memory. */
  class Node {
    var rec: Inode

    constructor (rec: Inode)
      ensures this.rec == rec
    {
      this.rec := rec;
    }
  }

  class Partition {
    const disk: D.Disk
    const start: nat
    const count: nat
    const table: nat
    var open: seq<Node>
    // Opens less closes of each inode that has more opens than closes.
    ghost var held: map<nat, nat>

    constructor (disk: D.Disk, start: nat, count: nat, table: nat)
      ensures Valid() && open == [] && held == map[]
      ensures this.disk == disk && this.start == start && this.count == count && this.table == table
    {
      this.disk, this.start, this.count, this.table := disk, start, count, table;
      open, held := [], map[];
    }

    ghost function Recs(): (r: seq<Inode>)
      reads this, open
      ensures |r| == |open| && forall i :: 0 <= i < |open| ==> r[i] == open[i].rec
    {
      seq(|open|, i reads this, open requires 0 <= i < |open| => open[i].rec)
    }

    ghost predicate Valid()
      reads this, open
    {
      Consistent(Recs(), held)
    }

    /** The read, the change and the write of `inode_sync`. */
    method Rewrite(lba: nat, n: nat, off: nat, rec: seq<D.Byte>, buf: array<D.Byte>) returns (r: D.Outcome)
      requires D.SECTOR * n <= buf.Length && off + |rec| <= D.SECTOR * n
      modifies disk, buf
      ensures r.Done? <==> D.Served(old(|disk.data|), lba, n)
      ensures r.Done? ==>
                && D.SECTOR * lba + off + |rec| <= old(|disk.data|)
                && disk.data == D.Splice(old(disk.data), D.SECTOR * lba + off, rec)
    {
      hide D.Served, D.Splice;
      ghost var data, b := disk.data, buf[..];
      r := disk.Read(lba, buf, n);
      if !r.Done? { return; }
      SectorsExist(|data|, lba, n);
      Copy(buf, off, rec);
      ThroughBuffer(data, b, D.SECTOR * lba, D.SECTOR * n, off, rec);
      r := disk.Write(lba, buf, n);
    }

    /** `inode_sync`.  On disk exactly the record in the slot of the low byte of the number changes. */
    method Sync(inode: Inode, buf: array<D.Byte>) returns (r: D.Outcome)
      requires ValidInode(inode) && buf.Length >= D.SECTOR * Width(Locate(table, inode.no % 256))
      modifies disk, buf
      ensures var p := Locate(table, inode.no % 256);
              r.Done? <==> p.lba <= (start + count) % WORD && D.Served(old(|disk.data|), p.lba, Width(p))
      ensures r.Done? ==>
                && D.SECTOR * table + INODE * (inode.no % 256) + INODE <= old(|disk.data|)
                && disk.data == Stored(old(disk.data), table, inode.no % 256, Persistent(inode))
    {
      var no := inode.no % 256;
      LocateExact(table, no);
      hide Locate, Encode, D.Served, D.Splice;
      var p := Locate(table, no);
      if p.lba > (start + count) % WORD { return D.AssertFailed; }
      r := Rewrite(p.lba, Width(p), p.off, Encode(Persistent(inode)), buf);
    }

    /** The record in a slot, read from the disk. */
    method Load(no: nat) returns (r: Option<Inode>)
      requires no < INODES
      ensures r.Some? <==> D.Served(|disk.data|, Locate(table, no).lba, Width(Locate(table, no)))
      ensures r.Some? ==> D.SECTOR * table + INODE * no + INODE <= |disk.data| && r.value == Slot(disk.data, table, no)
    {
      hide Locate, Decode, D.Served, D.Splice;
      LocateExact(table, no);
      var p := Locate(table, no);
      var buf := new D.Byte[D.SECTOR * Width(p)];
      ghost var b := buf[..];
      var out := disk.Read(p.lba, buf, Width(p));
      if !out.Done? { return None; }
      SectorsExist(|disk.data|, p.lba, Width(p));
      ReadPart(disk.data, b, D.SECTOR * p.lba, D.SECTOR * Width(p), p.off, INODE);
      return Some(Decode(buf[p.off..p.off + INODE]));
    }

    /** The walk along the list. */
    method Find(no: nat) returns (i: nat)
      ensures i <= |open| && (i < |open| ==> open[i].rec.no == no)
      ensures i == |open| <==> !Listed(Recs(), no)
    {
      i := 0;
      while i < |open| && open[i].rec.no != no
        invariant 0 <= i <= |open| && forall k :: 0 <= k < i ==> open[k].rec.no != no
      {
        i := i + 1;
      }
      if i < |open| { assert Recs()[i].no == no; }
    }

    /** The count of a node on the list changes. */
    method Recount(node: Node, ghost i: nat, n: nat)
      requires Valid() && i < |open| && open[i] == node && n > 0
      modifies this, open
      ensures Valid() && open == old(open) && held == old(held)[old(node.rec.no) := n]
      ensures node.rec == old(node.rec).(opens := n)
      ensures forall j :: 0 <= j < |open| && j != i ==> open[j].rec == old(open[j].rec)
    {
      hide Consistent;
      RecountKeeps(Recs(), held, i, n);
      NodesDiffer(i);
      held := held[node.rec.no := n];
      node.rec := node.rec.(opens := n);
      assert Recs() == old(Recs())[i := old(node.rec).(opens := n)];
    }

    /** A node with one open leaves the list. */
    method Drop(node: Node, ghost i: nat)
      requires Valid() && i < |open| && open[i] == node
      modifies this, node
      ensures Valid() && open == Unlinked(old(open), node) && held == old(held) - {old(node.rec.no)}
      ensures node.rec == old(node.rec).(opens := 0)
    {
      hide Consistent;
      DropKeeps(Recs(), held, i);
      NodesDiffer(i);
      UnlinkedAt(open, i);
      held := held - {node.rec.no};
      node.rec := node.rec.(opens := 0);
      open := Unlinked(open, node);
      assert Recs() == old(Recs())[..i] + old(Recs())[i + 1..];
    }

    lemma NodesDiffer(i: nat)
      requires Valid() && i < |open|
      ensures forall j :: 0 <= j < |open| && j != i ==> open[j] != open[i]
    {
      forall j | 0 <= j < |open| && j != i
        ensures open[j] != open[i]
      {
        assert Recs()[j].no != Recs()[i].no;
      }
    }

    /** `inode_open`: from the list, or from the disk to the front of the list.  After a read the list is
        consistent exactly if the slot holds its own number. */
    method Open(no: nat) returns (r: Option<Node>)
      requires Valid() && no < WORD && (no in held ==> held[no] < WORD - 1)
      modifies this, open
      ensures r.None? <==>
                no !in old(held)
                && (no >= INODES || !D.Served(|disk.data|, Locate(table, no).lba, Width(Locate(table, no))))
      ensures r.None? ==> Valid() && open == old(open) && held == old(held) && Recs() == old(Recs())
      ensures r.Some? ==>
                && r.value in open
                && held == old(held)[no := if no in old(held) then old(held)[no] + 1 else 1]
      ensures r.Some? && no in old(held) ==>
                && Valid() && r.value.rec.no == no && open == old(open)
                && forall i :: 0 <= i < |open| ==> open[i].rec == old(open[i].rec).(opens := open[i].rec.opens)
      ensures r.Some? && no !in old(held) ==>
                && fresh(r.value) && open == [r.value] + old(open)
                && D.SECTOR * table + INODE * no + INODE <= |disk.data|
                && r.value.rec == Slot(disk.data, table, no).(opens := 1)
                && (Valid() <==> Slot(disk.data, table, no).no == no)
    {
      hide D.Served, Locate, Slot, Consistent, Listed, Width;
      ListedHeld(Recs(), held, no);
      var i := Find(no);
      if i < |open| {
        CountIs(i);
        NoWrap(open[i].rec.opens);
        Recount(open[i], i, (open[i].rec.opens + 1) % WORD);
        return Some(open[i]);
      }
      if no >= INODES { return None; }
      r := OpenNew(no);
    }

    /** An inode that is not on the list. */
    method OpenNew(no: nat) returns (r: Option<Node>)
      requires Valid() && no !in held && no < INODES
      modifies this
      ensures r.None? <==> !D.Served(|disk.data|, Locate(table, no).lba, Width(Locate(table, no)))
      ensures r.None? ==> Valid() && open == old(open) && held == old(held)
      ensures r.Some? ==>
                && fresh(r.value) && open == [r.value] + old(open) && held == old(held)[no := 1]
                && D.SECTOR * table + INODE * no + INODE <= |disk.data|
                && r.value.rec == Slot(disk.data, table, no).(opens := 1)
                && (Valid() <==> Slot(disk.data, table, no).no == no)
    {
      hide D.Served, Locate, Slot, Consistent, Listed, Width;
      var rec := Load(no);
      if rec.None? { return None; }
      PushExact(Recs(), held, no, rec.value.(opens := 1));
      var node := new Node(rec.value.(opens := 1));
      open := [node] + open;
      held := held[no := 1];
      assert Recs() == [node.rec] + old(Recs());
      return Some(node);
    }

    lemma CountIs(i: nat)
      requires Valid() && i < |open|
      ensures open[i].rec.no in held && open[i].rec.opens == held[open[i].rec.no] && open[i].rec.opens > 0
    {
      assert Recs()[i].no in held;
    }

    /** `inode_close` of a node on the list: nothing changes but its count, and at zero it leaves the list. */
    method Close(node: Node)
      requires Valid() && node in open
      modifies this, open
      ensures Valid()
      ensures var no := old(node.rec.no);
              && no in old(held)
              && if old(held)[no] > 1 then open == old(open) && held == old(held)[no := old(held)[no] - 1]
                 else open == Unlinked(old(open), node) && held == old(held) - {no}
      ensures node.rec == old(node.rec).(opens := old(node.rec.opens) - 1)
      ensures forall n :: n in old(open) && n != node ==> n.rec == old(n.rec)
    {
      hide Consistent;
      ghost var i :| 0 <= i < |open| && open[i] == node;
      CountIs(i);
      if node.rec.opens > 1 {
        Recount(node, i, node.rec.opens - 1);
      } else {
        Drop(node, i);
      }
    }

    /** What `inode_sync` has written, an `inode_open` that reads the slot returns: the fields that mean
        something on disk, exactly if the number is below 256 or the slot held the same before. */
    method SyncOpen(inode: Inode, buf: array<D.Byte>) returns (r: Option<Node>)
      requires Valid() && ValidInode(inode) && inode.no < INODES && inode.no !in held
      requires buf.Length >= D.SECTOR * Width(Locate(table, inode.no % 256))
      modifies this, open, disk, buf
      ensures r.Some? ==>
                && D.SECTOR * table + INODE * inode.no + INODE <= old(|disk.data|) && r.value in open
                && (r.value.rec == Persistent(inode).(opens := 1) <==>
                      inode.no < 256
                      || Slot(old(disk.data), table, inode.no).(opens := 1) == Persistent(inode).(opens := 1))
      ensures var p := Locate(table, inode.no);
              inode.no < 256 && p.lba <= (start + count) % WORD && D.Served(old(|disk.data|), p.lba, Width(p)) ==>
                r.Some?
    {
      hide D.Served, Locate, Slot, Stored, Consistent, Width;
      ghost var data := disk.data;
      var out := Sync(inode, buf);
      if !out.Done? { return None; }
      StoredSize(data, table, inode.no % 256, Persistent(inode));
      r := Open(inode.no);
      if r.Some? { SyncedFields(data, table, inode); }
    }
  }

  /** `list_remove` of a node. */
  function Unlinked(s: seq<Node>, node: Node): (r: seq<Node>) {
    if s == [] then [] else if s[0] == node then s[1..] else [s[0]] + Unlinked(s[1..], node)
  }

  lemma {:induction false} UnlinkedAt(s: seq<Node>, i: nat)
    requires i < |s| && forall j :: 0 <= j < |s| && j != i ==> s[j] != s[i]
    ensures Unlinked(s, s[i]) == s[..i] + s[i + 1..]
  {
    if i > 0 {
      var t := s[1..];
      assert t[i - 1] == s[i];
      UnlinkedAt(t, i - 1);
      assert s[..i] + s[i + 1..] == [s[0]] + (t[..i - 1] + t[i..]);
    }
  }

  lemma SyncedFields(data: seq<D.Byte>, table: nat, i: Inode)
    requires ValidInode(i) && i.no < INODES && D.SECTOR * table + INODE * i.no + INODE <= |data|
    ensures D.SECTOR * table + INODE * (i.no % 256) + INODE <= |data|
    ensures |Stored(data, table, i.no % 256, Persistent(i))| == |data|
    ensures Slot(Stored(data, table, i.no % 256, Persistent(i)), table, i.no).(opens := 1) == Persistent(i).(opens := 1)
            <==> i.no < 256 || Slot(data, table, i.no).(opens := 1) == Persistent(i).(opens := 1)
  {
    hide Slot, Stored;
    StoredSize(data, table, i.no % 256, Persistent(i));
    if i.no < 256 {
      StoredHit(data, table, i.no, Persistent(i));
    } else {
      StoredMiss(data, table, i.no % 256, Persistent(i), i.no);
    }
  }

  lemma NoWrap(n: nat)
    requires n < WORD - 1
    ensures (n + 1) % WORD == n + 1
  {
  }

  lemma ListedHeld(recs: seq<Inode>, held: map<nat, nat>, no: nat)
    requires Consistent(recs, held)
    ensures Listed(recs, no) <==> no in held
  {
  }
}
