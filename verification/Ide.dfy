/** Sector transfers (device/ide.c): a request is cut into commands of at most 256
sectors, whose address and count travel in 8-bit registers. */
module Ide {
  import opened Basics
  import opened FileBlocks

  const MAX_LBA: nat := 163839   // the last sector of an 80 MB disk

  /** What select_sector and select_disk write: count, three address bytes, and the device
  register, whose low half holds the top four address bits. */
  datatype Registers = Registers(count: Byte, low: Byte, mid: Byte, high: Byte, device: Byte)

  /** select_sector for the first disk of a channel; outb keeps the low eight bits. */
  function Select(lba: nat, count: nat): Registers {
    Registers(count % 256, lba % 256, lba / 256 % 256, lba / 65536 % 256, (0xe0 + lba / 16777216) % 256)
  }

  /** What the controller takes them to mean (28-bit LBA addressing of ATA). */
  function Meaning(r: Registers): (nat, nat) {
    (r.low + 256 * r.mid + 65536 * r.high + 16777216 * (r.device % 16), if r.count == 0 then 256 else r.count)
  }

  /** The controller acts on the sectors the driver means. */
  lemma SelectMeans(lba: nat, count: nat)
    requires lba <= MAX_LBA && 0 < count <= 256
    ensures Meaning(Select(lba, count)) == (lba, count)
  {
    assert lba / 65536 < 256;
    assert lba == lba % 256 + 256 * (lba / 256 % 256) + 65536 * (lba / 65536);
  }

  /** The ASSERTs let a request through: it is not empty, and every command in it starts
  on the disk. */
  predicate Accepted(lba: nat, count: nat) {
    count > 0 && lba + (count - 1) / 256 * 256 <= MAX_LBA
  }

  function Chunk(done: nat, count: nat): (r: nat)
    requires done < count
    ensures 0 < r <= 256 && done + r <= count && (r == 256 || done + r == count)
  {
    if done + 256 <= count then 256 else count - done
  }

  /** A command that would start behind the disk rejects the request; if the last one
  starts on the disk, all do. */
  lemma NextStart(lba: nat, done: nat, count: nat)
    requires done < count && done % 256 == 0
    ensures lba + done > MAX_LBA ==> !Accepted(lba, count)
    ensures done + Chunk(done, count) == count && lba + done <= MAX_LBA ==> Accepted(lba, count)
    ensures done + Chunk(done, count) < count ==> (done + Chunk(done, count)) % 256 == 0
  {
  }

  lemma WriteStep(disk: seq<Sector>, lba: nat, buf: seq<Sector>, done: nat, n: nat)
    requires lba + |buf| <= |disk| && done + n <= |buf|
    ensures var d := disk[..lba] + buf[..done] + disk[lba + done..];
            && |d| == |disk|
            && d[..lba + done] + buf[done..done + n] + d[lba + done + n..]
               == disk[..lba] + buf[..done + n] + disk[lba + done + n..]
  {
  }

  class Drive {
    var disk: seq<Sector>

    /** ide_read: each requested sector once, in order. */
    method Read(lba: nat, count: nat) returns (ok: bool, buf: seq<Sector>)
      requires lba + count <= |disk|
      ensures ok <==> Accepted(lba, count)
      ensures ok ==> buf == disk[lba..lba + count]
    {
      buf := [];
      if !(lba <= MAX_LBA && count > 0) {
        return false, buf;
      }
      hide Select, Meaning, Accepted, Chunk;
      var done := 0;
      while done < count
        invariant 0 <= done <= count && (done < count ==> done % 256 == 0)
        invariant done == count ==> Accepted(lba, count)
        invariant buf == disk[lba..lba + done]
      {
        var op := Chunk(done, count);
        NextStart(lba, done, count);
        if !(lba + done <= MAX_LBA) {
          return false, buf;
        }
        var regs := Select(lba + done, op);
        SelectMeans(lba + done, op);
        var (first, n) := Meaning(regs);
        buf := buf + disk[first..first + n];
        done := done + op;
      }
      ok := true;
    }

    /** ide_write: the requested sectors, and no others. */
    method Write(lba: nat, buf: seq<Sector>) returns (ok: bool)
      requires lba + |buf| <= |disk|
      modifies this
      ensures ok <==> Accepted(lba, |buf|)
      ensures ok ==> disk == old(disk)[..lba] + buf + old(disk)[lba + |buf|..]
    {
      if !(lba <= MAX_LBA && |buf| > 0) {
        return false;
      }
      hide Select, Meaning, Accepted, Chunk;
      var done := 0;
      while done < |buf|
        invariant 0 <= done <= |buf| && (done < |buf| ==> done % 256 == 0)
        invariant done == |buf| ==> Accepted(lba, |buf|)
        invariant disk == old(disk)[..lba] + buf[..done] + old(disk)[lba + done..]
      {
        var op := Chunk(done, |buf|);
        NextStart(lba, done, |buf|);
        if !(lba + done <= MAX_LBA) {
          return false;
        }
        var regs := Select(lba + done, op);
        SelectMeans(lba + done, op);
        var (first, n) := Meaning(regs);
        WriteStep(old(disk), lba, buf, done, n);
        disk := disk[..first] + buf[done..done + n] + disk[first + n..];
        done := done + op;
      }
      ok := true;
    }
  }
}
