/**
 Transfers of `ide_read` and `ide_write` (`device/ide.c`) between a buffer and a disk, which is one long
 row of bytes.
 */
module Disk {

  type Byte = x: int | 0 <= x < 256

  const SECTOR := 512
  const MAX_LBA := 131071  // 64 MiB of sectors, less one

  /** What a transfer comes to.  `Failed` is the PANIC on a disk error, here on sectors that do not exist. */
  datatype Outcome = Done | AssertFailed | Failed

  /** `s` with the elements from `at` on replaced by `t`. */
  function Splice<T>(s: seq<T>, at: nat, t: seq<T>): (r: seq<T>)
    requires at + |t| <= |s|
    ensures |r| == |s|
  {
    s[..at] + t + s[at + |t|..]
  }

  /** Two neighbouring replacements are one. */
  lemma SpliceTwice<T>(s: seq<T>, at: nat, t: seq<T>, u: seq<T>)
    requires at + |t| + |u| <= |s|
    ensures Splice(Splice(s, at, t), at + |t|, u) == Splice(s, at, t + u)
  {
  }

  lemma SpliceAt<T>(s: seq<T>, at: nat, t: seq<T>, i: nat)
    requires at + |t| <= |s| && i < |s|
    ensures Splice(s, at, t)[i] == if at <= i < at + |t| then t[i - at] else s[i]
  {
  }

  lemma SpliceRead<T>(s: seq<T>, at: nat, t: seq<T>)
    requires at + |t| <= |s|
    ensures Splice(s, at, t)[at..at + |t|] == t
  {
  }

  lemma SpliceNone<T>(s: seq<T>, at: nat)
    requires at <= |s|
    ensures Splice(s, at, []) == s
  {
  }

  lemma SliceOfSlice<T>(data: seq<T>, at: nat, len: nat, off: nat, n: nat)
    requires at + len <= |data| && off + n <= len
    ensures data[at..at + len][off..off + n] == data[at + off..at + off + n]
  {
    var part := data[at..at + len];
    var l, r := part[off..off + n], data[at + off..at + off + n];
    forall i | 0 <= i < n
      ensures l[i] == r[i]
    {
      assert l[i] == part[off + i];
    }
  }

  /** The number of sectors that an 8-bit sector count register asks for. */
  function Sectors(reg: nat): (n: nat)
    requires reg < 256
    ensures 0 < n <= 256 && n % 256 == reg
  {
    if reg == 0 then 256 else reg
  }

  /** The sectors exist, and no part of the transfer starts past the limit. */
  predicate Served(size: nat, lba: nat, cnt: nat) {
    cnt > 0 && lba + 256 * ((cnt - 1) / 256) <= MAX_LBA && SECTOR * (lba + cnt) <= size
  }

  /** The part that a transfer with `done` sectors behind it does next. */
  function Part(cnt: nat, done: nat): (op: nat)
    requires done < cnt
  {
    if done + 256 <= cnt then 256 else cnt - done
  }

  /** Sectors `lba` to `lba + n`; nothing where they do not all exist. */
  function Range(data: seq<Byte>, lba: nat, n: nat): (r: seq<Byte>) {
    if n > 0 && SECTOR * (lba + n) <= |data| then data[SECTOR * lba..SECTOR * (lba + n)] else []
  }

  lemma RangeMore(data: seq<Byte>, lba: nat, m: nat, n: nat)
    requires SECTOR * (lba + m + n) <= |data|
    ensures Range(data, lba, m + n) == Range(data, lba, m) + Range(data, lba + m, n)
    ensures |Range(data, lba, m)| == SECTOR * m
  {
  }

  /** A transfer has come to `done` in whole parts, all served. */
  ghost predicate Reached(size: nat, lba: nat, cnt: nat, done: nat) {
    done <= cnt && (done < cnt ==> done % 256 == 0) && (done > 0 ==> Served(size, lba, done))
  }

  /** The low byte of a count, as the disk gets it. */
  function Register(op: nat): (reg: nat)
    ensures reg < 256
  {
    op % 256
  }

  /** A transfer that has come to `done` goes on exactly if the whole of it is served. */
  lemma PartServed(size: nat, lba: nat, cnt: nat, done: nat)
    requires Reached(size, lba, cnt, done) && done < cnt
    ensures var op := Part(cnt, done);
            && 0 < op <= cnt - done && Sectors(Register(op)) == op
            && (lba + done > MAX_LBA || SECTOR * (lba + done + op) > size ==> !Served(size, lba, cnt))
            && (lba + done <= MAX_LBA && SECTOR * (lba + done + op) <= size ==> Reached(size, lba, cnt, done + op))
  {
    var q := done / 256;
    assert done == 256 * q;
    var op := Part(cnt, done);
    assert (done + op - 1) / 256 == q;
    assert (cnt - 1) / 256 >= q;
  }

  lemma ReachedStart(size: nat, lba: nat, cnt: nat)
    ensures Reached(size, lba, cnt, 0)
    ensures cnt > 0 && Reached(size, lba, cnt, cnt) ==> Served(size, lba, cnt)
    ensures cnt == 0 || lba > MAX_LBA ==> !Served(size, lba, cnt)
  {
  }

  class Disk {
    var data: seq<Byte>

    /** `read_from_sector` */
    method Fetch(lba: nat, buf: array<Byte>, at: nat, n: nat)
      requires n > 0 && SECTOR * (at + n) <= buf.Length && SECTOR * (lba + n) <= |data|
      modifies buf
      ensures |Range(data, lba, n)| == SECTOR * n
      ensures buf[..] == Splice(old(buf[..]), SECTOR * at, Range(data, lba, n))
    {
      forall i | 0 <= i < SECTOR * n {
        buf[SECTOR * at + i] := data[SECTOR * lba + i];
      }
    }

    /** `write2sector` */
    method Put(lba: nat, buf: array<Byte>, at: nat, n: nat)
      requires n > 0 && SECTOR * (at + n) <= buf.Length && SECTOR * (lba + n) <= |data|
      modifies this
      ensures data == Splice(old(data), SECTOR * lba, buf[SECTOR * at..SECTOR * (at + n)])
    {
      data := data[..SECTOR * lba] + buf[SECTOR * at..SECTOR * (at + n)] + data[SECTOR * (lba + n)..];
    }

    /** `ide_read`: a transfer in parts of at most 256 sectors, whose number goes to the disk as one byte. */
    method Read(lba: nat, buf: array<Byte>, cnt: nat) returns (r: Outcome)
      requires SECTOR * cnt <= buf.Length
      modifies buf
      ensures r.Done? <==> Served(|data|, lba, cnt)
      ensures r.Done? ==> buf[..] == Splice(old(buf[..]), 0, data[SECTOR * lba..SECTOR * (lba + cnt)])
    {
      hide Splice, Range, Served, Sectors, Reached, Register, Part;
      ReachedStart(|data|, lba, cnt);
      if lba > MAX_LBA || cnt == 0 { return AssertFailed; }
      var done := 0;
      ghost var b0 := buf[..];
      RangeNone(data, lba);
      SpliceNone(b0, 0);
      while done < cnt
        invariant Reached(|data|, lba, cnt, done) && 0 <= done <= cnt
        invariant |Range(data, lba, done)| == SECTOR * done && buf[..] == Splice(b0, 0, Range(data, lba, done))
      {
        PartServed(|data|, lba, cnt, done);
        var op := Part(cnt, done);
        if lba + done > MAX_LBA { return AssertFailed; }
        var n := Sectors(Register(op));
        if SECTOR * (lba + done + n) > |data| { return Failed; }
        Fetch(lba + done, buf, done, n);
        RangeMore(data, lba, done, n);
        SpliceTwice(b0, 0, Range(data, lba, done), Range(data, lba + done, n));
        done := done + op;
      }
      RangeIs(data, lba, cnt);
      return Done;
    }

    /** `ide_write` */
    method Write(lba: nat, buf: array<Byte>, cnt: nat) returns (r: Outcome)
      requires SECTOR * cnt <= buf.Length
      modifies this
      ensures r.Done? <==> Served(|old(data)|, lba, cnt)
      ensures r.Done? ==> data == Splice(old(data), SECTOR * lba, buf[..SECTOR * cnt])
      ensures |data| == |old(data)|
    {
      hide Splice, Served, Sectors, Reached, Register, Part;
      ReachedStart(|data|, lba, cnt);
      if lba > MAX_LBA || cnt == 0 { return AssertFailed; }
      var done := 0;
      ghost var d0 := data;
      while done < cnt
        invariant Reached(|d0|, lba, cnt, done) && 0 <= done <= cnt && |data| == |d0|
        invariant done > 0 ==> SECTOR * (lba + done) <= |d0| && data == Splice(d0, SECTOR * lba, buf[..SECTOR * done])
        invariant done == 0 ==> data == d0
      {
        PartServed(|d0|, lba, cnt, done);
        var op := Part(cnt, done);
        if lba + done > MAX_LBA { return AssertFailed; }
        var n := Sectors(Register(op));
        if SECTOR * (lba + done + n) > |data| { return Failed; }
        Put(lba + done, buf, done, n);
        WriteMore(d0, lba, buf[..], done, n);
        done := done + op;
      }
      return Done;
    }
  }

  lemma WriteMore(d0: seq<Byte>, lba: nat, b: seq<Byte>, done: nat, n: nat)
    requires SECTOR * (lba + done + n) <= |d0| && SECTOR * (done + n) <= |b|
    ensures Splice(Splice(d0, SECTOR * lba, b[..SECTOR * done]), SECTOR * (lba + done),
                   b[SECTOR * done..SECTOR * (done + n)])
            == Splice(d0, SECTOR * lba, b[..SECTOR * (done + n)])
    ensures Splice(d0, SECTOR * lba, b[..0]) == d0
  {
    hide Splice;
    assert b[..SECTOR * done] + b[SECTOR * done..SECTOR * (done + n)] == b[..SECTOR * (done + n)];
    SpliceTwice(d0, SECTOR * lba, b[..SECTOR * done], b[SECTOR * done..SECTOR * (done + n)]);
    SpliceNone(d0, SECTOR * lba);
    assert b[..0] == [];
  }

  lemma RangeNone(data: seq<Byte>, lba: nat)
    ensures Range(data, lba, 0) == []
  {
  }

  lemma RangeIs(data: seq<Byte>, lba: nat, n: nat)
    requires Served(|data|, lba, n)
    ensures Range(data, lba, n) == data[SECTOR * lba..SECTOR * (lba + n)]
  {
  }
}
