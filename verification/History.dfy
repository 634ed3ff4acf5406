/**
 The history of a live database as its environment makes it: WAL epochs, each a base database
 and the WAL bytes written since the last reset, and positions in that history.
 */
module History {
  import opened Wrappers
  import opened Wal
  import opened Replay
  import opened Config
  import opened Pipeline

  /** One WAL epoch: the database file when the WAL was empty, and the WAL bytes so far. */
  datatype Epoch = Epoch(base: Db, wal: Bytes)

  /** A position: an epoch and a number of its frames. */
  datatype Point = Point(epoch: nat, frames: nat)

  predicate Reached(epochs: seq<Epoch>, p: Point)
  {
    p.epoch < |epochs| && p.frames <= FrameCount(epochs[p.epoch].wal)
  }

  /** The database that the history shows at a position. */
  function StateAt(epochs: seq<Epoch>, p: Point): (db: Db)
    requires Reached(epochs, p)
  {
    Observe(Play(epochs[p.epoch].base, Frames(epochs[p.epoch].wal)[..p.frames]))
  }

  predicate AtMost(p: Point, q: Point)
  {
    p.epoch < q.epoch || (p.epoch == q.epoch && p.frames <= q.frames)
  }

  /** The end of the history: all complete frames of the current epoch. */
  function Tip(epochs: seq<Epoch>): (p: Point)
    requires epochs != []
    ensures Reached(epochs, p)
  {
    Point(|epochs| - 1, FrameCount(epochs[|epochs| - 1].wal))
  }

  /** Later histories only append: to the current epoch's WAL, and whole new epochs. */
  predicate Extends(before: seq<Epoch>, after: seq<Epoch>)
  {
    && |before| <= |after|
    && (forall i :: 0 <= i < |before| ==> after[i].base == before[i].base && before[i].wal <= after[i].wal)
    && (forall i :: 0 <= i < |before| - 1 ==> after[i].wal == before[i].wal)
  }

  lemma ExtendsReflexive(a: seq<Epoch>)
    ensures Extends(a, a)
  {
  }

  lemma ExtendsTransitive(a: seq<Epoch>, b: seq<Epoch>, c: seq<Epoch>)
    requires Extends(a, b) && Extends(b, c)
    ensures Extends(a, c)
  {
  }

  /** What was once part of the history stays, and shows the same database. */
  lemma PastIsStable(before: seq<Epoch>, after: seq<Epoch>, p: Point)
    requires Extends(before, after) && Reached(before, p)
    ensures Reached(after, p) && StateAt(after, p) == StateAt(before, p)
  {
    var u, v := before[p.epoch].wal, after[p.epoch].wal;
    FramesPrefix(u, v);
    assert Frames(u)[..p.frames] == Frames(v)[..p.frames];
  }

  // ---------- what the environment promises ----------

  predicate HasSalt(wal: Bytes)
  {
    |wal| >= WAL_SALT_OFFSET + WAL_SALT_LEN
  }

  /** No two epochs use the same salt. */
  predicate SaltsDistinct(epochs: seq<Epoch>)
  {
    forall i, j :: 0 <= i < j < |epochs| && HasSalt(epochs[i].wal) && HasSalt(epochs[j].wal) ==>
      SaltOf(epochs[i].wal) != SaltOf(epochs[j].wal)
  }

  /** Every reset came after a complete backfill: an epoch starts where the one before ended. */
  predicate Chained(epochs: seq<Epoch>)
  {
    forall i :: 0 < i < |epochs| ==>
      Observe(epochs[i].base) == StateAt(epochs, Point(i - 1, FrameCount(epochs[i - 1].wal)))
  }

  /** A place where sync_wal() may cut: the start of the WAL, or the end of some complete frame. */
  predicate FrameBoundary(wal: Bytes, at: nat)
  {
    at <= |wal| && (at == 0 || (at > WAL_HEADER_SIZE && AlignedLen(wal[..at]) == at))
  }

  /** Where the pipeline marks nothing, no frame begins like a compressed object. */
  predicate CarriesCuts(cfg: BackupConfig, wal: Bytes)
  {
    cfg.compression.NoCompression? ==> forall at :: 0 <= at < |wal| && FrameBoundary(wal, at) ==> !HasMagic(wal[at..])
  }

  lemma CutCarried(cfg: BackupConfig, wal: Bytes, lo: nat, hi: nat)
    requires CarriesCuts(cfg, wal) && FrameBoundary(wal, lo) && lo <= hi <= |wal|
    ensures Carries(cfg, wal[lo..hi])
  {
    if cfg.compression.NoCompression? && lo < hi {
      assert !HasMagic(wal[lo..]);
      assert hi - lo >= MAGIC_LEN ==> wal[lo..hi][..MAGIC_LEN] == wal[lo..][..MAGIC_LEN];
    }
  }

  /** The database file looks like the base with some initial part of the WAL backfilled. */
  predicate FileShows(cfg: BackupConfig, file: Bytes, epoch: Epoch, backfilled: nat)
  {
    && backfilled <= FrameCount(epoch.wal)
    && Observe(cfg.formats.pager(file)) == Observe(Play(epoch.base, Frames(epoch.wal)[..backfilled]))
  }

  lemma FileShowsStable(cfg: BackupConfig, file: Bytes, before: Epoch, after: Epoch, backfilled: nat)
    requires FileShows(cfg, file, before, backfilled)
    requires after.base == before.base && before.wal <= after.wal
    ensures FileShows(cfg, file, after, backfilled)
  {
    FramesPrefix(before.wal, after.wal);
    assert Frames(before.wal)[..backfilled] == Frames(after.wal)[..backfilled];
  }

  /** What the WAL's growth needs, for an epoch and what is shipped of it. */
  predicate EpochGrows(epoch: Epoch, wal: Bytes)
  {
    GrowthWritten(epoch.base, Frames(wal))
  }

  lemma NothingGrows(epoch: Epoch)
    ensures EpochGrows(epoch, [])
  {
    assert Frames([]) == [];
  }

  lemma EpochGrowsPrefix(epoch: Epoch, wal: Bytes, longer: Bytes)
    requires EpochGrows(epoch, longer) && wal <= longer
    ensures EpochGrows(epoch, wal)
  {
    FramesPrefix(wal, longer);
    GrowthPrefix(epoch.base, Frames(longer), |Frames(wal)|);
    assert Frames(longer)[..|Frames(wal)|] == Frames(wal);
  }

  /**
   Snapshot and WAL put together: a file with `backfilled` frames in it, followed by at least as
   many frames from the start of the WAL, shows the history at the last of these frames.
   */
  lemma SnapshotPlusWal(cfg: BackupConfig, epoch: Epoch, file: Bytes, backfilled: nat, wal: Bytes)
    requires FileShows(cfg, file, epoch, backfilled) && EpochGrows(epoch, wal)
    requires wal <= epoch.wal && backfilled <= FrameCount(wal)
    ensures FrameCount(wal) <= FrameCount(epoch.wal)
    ensures Observe(Play(cfg.formats.pager(file), Frames(wal))) ==
            Observe(Play(epoch.base, Frames(epoch.wal)[..FrameCount(wal)]))
  {
    hide GrowthWritten, Play, Observe;
    FramesPrefix(wal, epoch.wal);
    assert Frames(epoch.wal)[..backfilled] == Frames(wal)[..backfilled];
    assert Frames(epoch.wal)[..FrameCount(wal)] == Frames(wal);
    LookalikeReplays(epoch.base, cfg.formats.pager(file), Frames(wal), backfilled);
  }

  /** A file that a reset left, and that nothing has been backfilled into since, holds all of the epoch before. */
  lemma OlderEpochFits(cfg: BackupConfig, epochs: seq<Epoch>, file: Bytes, epoch: nat)
    requires epoch + 2 == |epochs| && Chained(epochs) && FileShows(cfg, file, epochs[epoch + 1], 0)
    ensures FileShows(cfg, file, epochs[epoch], FrameCount(epochs[epoch].wal))
  {
    NothingPlayed(epochs[epoch + 1].base);
    assert Frames(epochs[epoch + 1].wal)[..0] == [];
    assert Observe(epochs[epoch + 1].base) == StateAt(epochs, Point(epoch, FrameCount(epochs[epoch].wal)));
  }
}
