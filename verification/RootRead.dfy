/** read() of the root directory of an image mkfs has left a hole in: fileread() (kernel/file.c) calls readi() outside
    any transaction. */
module RootRead {
  import opened Options
  import opened Bytes
  import opened FileBlocks
  import opened FileBytes
  import opened FileSystem
  import opened FileHoles
  import opened ImageSpace
  import opened Mkfs
  import Log
  import GroupCommit
  import LogSpace

  // A directory with a hole among its first blocks, on a disk with a block free.
  lemma {:induction false} HoleThere(lay: Layout, fs: Fs, own: seq<Option<Slot>>, i: nat) returns (off: nat)
    requires Owned(lay, fs, own) && Shape(lay, fs) && i < |fs.inodes| && !Solid(fs, i) && HasFree(fs)
    requires fs.inodes[i].size <= NDIRECT * 1024
    ensures off < fs.inodes[i].size && ReadiLogs(lay, fs, i, off, 1) != {}
    ensures !DiskOwned(lay, OnDisk(fs, Readi(lay, fs, i, off, 1).0))
  {
    hide Owned, HasFree, Readi, ReadiLogs, DiskOwned;
    off :| off < fs.inodes[i].size && !Mapped(fs, i, off);
    ReadiLogsExact(lay, fs, own, i, off, 1);
    var (u, d) := Readi(lay, fs, i, off, 1);
    ReadiDiskExact(lay, fs, own, i, off, 1, u, d);
    assert LooseAt(fs, i, Bn(off)) && off <= off < off + 1;
  }

  /** mkfs with 62 empty files: somewhere in the root directory a read of one byte hands blocks to log_write(), and
      leaves on disk a block that is marked and that no inode names. */
  method ReadPastEntries() returns (img: Image, ghost own: seq<Option<Slot>>, ghost off: nat)
    ensures Owned(LAYOUT, img.Abs(), own) && Shape(LAYOUT, img.Abs()) && ROOTINO < |img.inodes|
    ensures off < img.inodes[ROOTINO].size == 2048
    ensures ReadiLogs(LAYOUT, img.Abs(), ROOTINO, off, 1) != {}
    ensures !DiskOwned(LAYOUT, OnDisk(img.Abs(), Readi(LAYOUT, img.Abs(), ROOTINO, off, 1).0))
  {
    hide Owned, Shape, Solid, Contents, Readi, ReadiLogs, DiskOwned, RootEntries, Keeps, DataNeed;
    img := new Image();
    var files := seq(62, _ => File(['f' as int], []));
    EmptyFiles(files, 62);
    assert BlocksFor(1024) == 1;
    var ok, bitmap;
    ok, bitmap, own := img.Build(files);
    ghost var fs := img.Abs();
    OwnedShape(LAYOUT, fs, own);
    FirstUnused(|fs.bits|, img.freeblock);
    off := HoleThere(LAYOUT, fs, own, ROOTINO);
  }

  /** From there it is one step to the panic: with no operation outstanding, the first block such a read hands to
      log_write() ends in "log_write outside of trans". */
  lemma {:induction false} FileReadPanics(
      lay: Layout, fs: Fs, i: nat, off: nat, n: nat, c: GroupCommit.Config)
    returns (ss: seq<GroupCommit.State>, ls: seq<GroupCommit.Label>)
    requires Shape(lay, fs) && i < |fs.inodes| && off < 0x1_0000_0000 && n < 0x1_0000_0000
    requires fs.inodes[i].size <= MAXFILE * 1024 && ReadiLogs(lay, fs, i, off, n) != {}
    requires GroupCommit.GoodConfig(c) && 0 < LogSpace.Cap(c)
    requires forall b :: b in ReadiLogs(lay, fs, i, off, n) ==> b < |c.init| && Log.IsHome(c.lay, b)
    ensures GroupCommit.IsRun(c, ss, ls) && |ls| == 1 && ls[0].Outside? && ls[0].at in ReadiLogs(lay, fs, i, off, n)
    ensures ss[1].panic == GroupCommit.OutsideTransaction
  {
    hide ReadiLogs, Shape;
    var at :| at in ReadiLogs(lay, fs, i, off, n);
    ss, ls := LogSpace.OutsidePanics(c, at);
  }
}
