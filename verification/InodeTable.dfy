/**
 The inode table on disk (`fs/inode.c`): records, their places, and what `inode_sync` writes.
 */
module InodeTable {
  import opened Common
  import opened Disk

  const INODE := 76             // sizeof(struct inode)
  const INODES := 4096
  const TABLE_SECTORS := 608

  /** `struct inode`; the last two words are the links of its list element. */
  datatype Inode = Inode(no: nat, size: nat, opens: nat, deny: nat, sectors: seq<nat>, prev: nat, next: nat)

  predicate ValidInode(i: Inode) {
    && i.no < WORD && i.size < WORD && i.opens < WORD && i.deny < WORD && i.prev < WORD && i.next < WORD
    && |i.sectors| == 13 && forall k :: 0 <= k < 13 ==> i.sectors[k] < WORD
  }

  /** What `inode_sync` writes: the fields that mean something on disk. */
  function Persistent(i: Inode): (p: Inode) {
    i.(opens := 0, deny := 0, prev := 0, next := 0)
  }

  // ---------------------------------------------------------------------------------------
  // Records
  // ---------------------------------------------------------------------------------------

  function Words(i: Inode): (ws: seq<nat>)
    requires ValidInode(i)
    ensures |ws| == 19 && forall k :: 0 <= k < 19 ==> ws[k] < WORD
  {
    [i.no, i.size, i.opens, i.deny] + i.sectors + [i.prev, i.next]
  }

  /** Byte `k` of a word, lowest first. */
  function ByteOf(w: nat, k: nat): (b: Byte) {
    if k == 0 then w % 256 else if k == 1 then w / 256 % 256 else if k == 2 then w / 65536 % 256 else w / 16777216 % 256
  }

  function Bytes(ws: seq<nat>): (b: seq<Byte>)
    ensures |b| == 4 * |ws|
  {
    seq(4 * |ws|, i requires 0 <= i < 4 * |ws| => ByteOf(ws[i / 4], i % 4))
  }

  function Word(b: seq<Byte>, k: nat): (w: nat)
    requires 4 * k + 4 <= |b|
    ensures w < WORD
  {
    var b0: int, b1: int, b2: int, b3: int := b[4 * k], b[4 * k + 1], b[4 * k + 2], b[4 * k + 3];
    b0 + 256 * b1 + 65536 * b2 + 16777216 * b3
  }

  function Encode(i: Inode): (b: seq<Byte>)
    requires ValidInode(i)
    ensures |b| == INODE
  {
    Bytes(Words(i))
  }

  function Decode(b: seq<Byte>): (i: Inode)
    requires |b| == INODE
    ensures ValidInode(i)
  {
    Inode(Word(b, 0), Word(b, 1), Word(b, 2), Word(b, 3), seq(13, k requires 0 <= k < 13 => Word(b, 4 + k)),
          Word(b, 17), Word(b, 18))
  }

  lemma WordBack(w: nat)
    requires w < WORD
    ensures w % 256 + 256 * (w / 256 % 256) + 65536 * (w / 65536 % 256) + 16777216 * (w / 16777216 % 256) == w
  {
    var a, b, c := w / 256, w / 65536, w / 16777216;
    assert b == a / 256 && c == b / 256 && c < 256;
  }

  lemma ByteParts(w: nat)
    ensures ByteOf(w, 0) == w % 256 && ByteOf(w, 1) == w / 256 % 256
    ensures ByteOf(w, 2) == w / 65536 % 256 && ByteOf(w, 3) == w / 16777216 % 256
  {
  }

  lemma WordsBack(ws: seq<nat>, k: nat)
    requires k < |ws| && ws[k] < WORD
    ensures Word(Bytes(ws), k) == ws[k]
  {
    hide ByteOf;
    var b := Bytes(ws);
    assert b[4 * k] == ByteOf(ws[k], 0) && b[4 * k + 1] == ByteOf(ws[k], 1)
        && b[4 * k + 2] == ByteOf(ws[k], 2) && b[4 * k + 3] == ByteOf(ws[k], 3);
    hide Bytes;
    ByteParts(ws[k]);
    WordBack(ws[k]);
  }

  /** A record reads back as it was written. */
  lemma RoundTrip(i: Inode)
    requires ValidInode(i)
    ensures Decode(Encode(i)) == i
  {
    hide Bytes, Word, Words, Encode, Decode;
    var b := Encode(i);
    EncodeWord(i, 0); EncodeWord(i, 1); EncodeWord(i, 2); EncodeWord(i, 3); EncodeWord(i, 17); EncodeWord(i, 18);
    WordsParts(i);
    forall k | 0 <= k < 13
      ensures Decode(b).sectors[k] == i.sectors[k]
    {
      EncodeWord(i, 4 + k);
      DecodeSector(b, k);
    }
    DecodeParts(b);
    assert Decode(b).sectors == i.sectors;
  }

  lemma DecodeParts(b: seq<Byte>)
    requires |b| == INODE
    ensures var i := Decode(b);
            && i.no == Word(b, 0) && i.size == Word(b, 1) && i.opens == Word(b, 2) && i.deny == Word(b, 3)
            && i.prev == Word(b, 17) && i.next == Word(b, 18)
  {
    hide Word;
  }

  lemma DecodeSector(b: seq<Byte>, k: nat)
    requires |b| == INODE && k < 13
    ensures Decode(b).sectors[k] == Word(b, 4 + k)
  {
    hide Word;
  }

  lemma EncodeWord(i: Inode, k: nat)
    requires ValidInode(i) && k < 19
    ensures Word(Encode(i), k) == Words(i)[k]
  {
    hide Bytes, Word, Words;
    WordsBack(Words(i), k);
  }

  lemma WordsParts(i: Inode)
    requires ValidInode(i)
    ensures var ws := Words(i);
            && ws[0] == i.no && ws[1] == i.size && ws[2] == i.opens && ws[3] == i.deny && ws[17] == i.prev
            && ws[18] == i.next
            && forall k :: 0 <= k < 13 ==> ws[4 + k] == i.sectors[k]
  {
  }

  // ---------------------------------------------------------------------------------------
  // Places
  // ---------------------------------------------------------------------------------------

  datatype Position = Position(two: bool, lba: nat, off: nat)

  /** `inode_locate` */
  function Locate(table: nat, no: nat): (p: Position) {
    var off := no * INODE % WORD;
    Position(512 - off % 512 < INODE, table + off / 512, off % 512)
  }

  function Width(p: Position): nat {
    if p.two then 2 else 1
  }

  /** The sectors read hold the whole record, two of them only if it crosses, and lie in the table. */
  lemma LocateExact(table: nat, no: nat)
    requires no < INODES
    ensures var p := Locate(table, no);
            && SECTOR * p.lba + p.off == SECTOR * table + INODE * no
            && p.off + INODE <= SECTOR * Width(p)
            && (p.two <==> (INODE * no) / SECTOR != (INODE * no + INODE - 1) / SECTOR)
            && table <= p.lba && p.lba + Width(p) <= table + TABLE_SECTORS
  {
    var off := no * INODE;
    assert off < INODE * INODES == SECTOR * TABLE_SECTORS < WORD;
    var q, r := off / 512, off % 512;
    assert off == 512 * q + r;
    assert (off + 75) / 512 == q + (r + 75) / 512;
  }

  /** The record in slot `no` of a table. */
  function Slot(data: seq<Byte>, table: nat, no: nat): (i: Inode)
    requires SECTOR * table + INODE * no + INODE <= |data|
  {
    Decode(data[SECTOR * table + INODE * no..SECTOR * table + INODE * no + INODE])
  }

  /** Slot `no` gets a record. */
  function Stored(data: seq<Byte>, table: nat, no: nat, i: Inode): (r: seq<Byte>)
    requires SECTOR * table + INODE * no + INODE <= |data| && ValidInode(i)
  {
    Splice(data, SECTOR * table + INODE * no, Encode(i))
  }

  lemma StoredHit(data: seq<Byte>, table: nat, no: nat, i: Inode)
    requires SECTOR * table + INODE * no + INODE <= |data| && ValidInode(i)
    ensures Slot(Stored(data, table, no, i), table, no) == i
  {
    hide Encode, Decode;
    SpliceRead(data, SECTOR * table + INODE * no, Encode(i));
    RoundTrip(i);
  }

  lemma StoredMiss(data: seq<Byte>, table: nat, no: nat, i: Inode, m: nat)
    requires SECTOR * table + INODE * no + INODE <= |data| && SECTOR * table + INODE * m + INODE <= |data|
    requires ValidInode(i) && m != no
    ensures Slot(Stored(data, table, no, i), table, m) == Slot(data, table, m)
  {
    hide Encode, Decode;
    var at := SECTOR * table + INODE * m;
    assert Stored(data, table, no, i)[at..at + INODE] == data[at..at + INODE];
  }

  /** Writing back through a buffer of whole sectors is the same as writing the record alone. */
  lemma ThroughBuffer<T>(data: seq<T>, b: seq<T>, at: nat, len: nat, off: nat, rec: seq<T>)
    requires at + len <= |data| && len <= |b| && off + |rec| <= len
    ensures var read := Splice(b, 0, data[at..at + len]);
            Splice(data, at, Splice(read, off, rec)[..len]) == Splice(data, at + off, rec)
  {
    var part := data[at..at + len];
    var read := Splice(b, 0, part);
    var out := Splice(read, off, rec);
    var l, r := Splice(data, at, out[..len]), Splice(data, at + off, rec);
    forall i | 0 <= i < |data|
      ensures l[i] == r[i]
    {
      SpliceAt(data, at, out[..len], i);
      SpliceAt(data, at + off, rec, i);
      if at <= i < at + len {
        SpliceAt(read, off, rec, i - at);
        SpliceAt(b, 0, part, i - at);
      }
      hide Splice;
    }
  }

  /** `inode_sync` narrows the number to 8 bits.  What it writes is found under the number of the inode
      exactly if the number is below 256 or the slot held the same before. */
  lemma SyncedSlot(data: seq<Byte>, table: nat, i: Inode)
    requires ValidInode(i) && SECTOR * table + INODE * i.no + INODE <= |data|
    ensures SECTOR * table + INODE * (i.no % 256) + INODE <= |data|
    ensures Slot(Stored(data, table, i.no % 256, Persistent(i)), table, i.no) == Persistent(i)
            <==> i.no < 256 || Slot(data, table, i.no) == Persistent(i)
  {
    hide Slot, Stored;
    if i.no < 256 {
      StoredHit(data, table, i.no, Persistent(i));
    } else {
      StoredMiss(data, table, i.no % 256, Persistent(i), i.no);
    }
  }

  /** A table whose slots hold their own numbers. */
  ghost predicate Numbered(data: seq<Byte>, table: nat, slots: set<nat>)
    requires SECTOR * (table + TABLE_SECTORS) <= |data|
  {
    forall n :: n in slots && n < INODES ==> Slot(data, table, n).no == n
  }

  /** `inode_sync` keeps the numbering exactly if the number is below 256 or its low byte is not a numbered slot. */
  lemma SyncNumbers(data: seq<Byte>, table: nat, i: Inode, slots: set<nat>)
    requires ValidInode(i) && SECTOR * (table + TABLE_SECTORS) <= |data| && Numbered(data, table, slots)
    ensures SECTOR * table + INODE * (i.no % 256) + INODE <= |data|
    ensures Numbered(Stored(data, table, i.no % 256, Persistent(i)), table, slots) <==>
              i.no < 256 || i.no % 256 !in slots
  {
    hide Slot, Stored;
    var n := i.no % 256;
    var data' := Stored(data, table, n, Persistent(i));
    StoredSize(data, table, n, Persistent(i));
    StoredHit(data, table, n, Persistent(i));
    forall m | 0 <= m < INODES && m != n
      ensures Slot(data', table, m) == Slot(data, table, m)
    {
      StoredMiss(data, table, n, Persistent(i), m);
    }
  }

  lemma StoredSize(data: seq<Byte>, table: nat, no: nat, i: Inode)
    requires SECTOR * table + INODE * no + INODE <= |data| && ValidInode(i)
    ensures |Stored(data, table, no, i)| == |data|
  {
  }

  // ---------------------------------------------------------------------------------------
  // Blank tables
  // ---------------------------------------------------------------------------------------

  function Zeros(n: nat): (b: seq<Byte>)
    ensures |b| == n
  {
    seq(n, i => 0)
  }

  lemma ZeroRecord()
    ensures Decode(Zeros(INODE)) == Inode(0, 0, 0, 0, seq(13, i => 0), 0, 0)
  {
    var b := Zeros(INODE);
    assert forall k :: 0 <= k < 19 ==> Word(b, k) == 0;
    hide Word;
    assert Decode(b).sectors == seq(13, i => 0);
  }

  lemma ZeroSlot(n: nat, no: nat)
    requires INODE * no + INODE <= n
    ensures Slot(Zeros(n), 0, no) == Inode(0, 0, 0, 0, seq(13, i => 0), 0, 0)
  {
    hide Decode;
    assert Zeros(n)[INODE * no..INODE * no + INODE] == Zeros(INODE);
    ZeroRecord();
  }

  /** Inode 256 in a blank table: `inode_sync` writes slot 0, slot 256 stays blank, and slot 0 does not hold its
      own number any more. */
  lemma LostInode()
    ensures var i := Inode(256, 1, 0, 0, seq(13, i => 0), 0, 0); var data := Zeros(SECTOR * TABLE_SECTORS);
            var data' := Stored(data, 0, i.no % 256, Persistent(i));
            && |data'| == |data| && Slot(data, 0, 0).no == 0
            && Slot(data', 0, 256).size == 0 && Slot(data', 0, 0).no == 256
  {
    hide Slot, Stored, Zeros;
    var i := Inode(256, 1, 0, 0, seq(13, i => 0), 0, 0);
    var data := Zeros(SECTOR * TABLE_SECTORS);
    StoredSize(data, 0, 0, Persistent(i));
    StoredHit(data, 0, 0, Persistent(i));
    StoredMiss(data, 0, 0, Persistent(i), 256);
    ZeroSlot(SECTOR * TABLE_SECTORS, 0);
    ZeroSlot(SECTOR * TABLE_SECTORS, 256);
  }
}
