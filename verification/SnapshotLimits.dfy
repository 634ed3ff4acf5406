/** When a new snapshot fits the segments that are still named beside it, and when the two make a mixture. */
module SnapshotLimits {
  import opened Wrappers
  import opened Arithmetic
  import opened Wal
  import opened Replay
  import opened Manifest
  import opened Config
  import opened Pipeline
  import opened Keys
  import opened S3
  import opened Durable
  import opened History
  import opened Tracking
  import opened Steps
  import opened Images
  import opened Samples

  // ---------- frames that cut the database down ----------

  /** `n` frames that write the second of two pages, then frames that cut the database down to one page. */
  function Cut(n: nat, k: nat): (frames: seq<Frame>)
    ensures |frames| == k && forall f :: f in frames ==> Small(f)
  {
    assert Small(Frame(2, 2, Page(1))) && Small(Frame(1, 1, Page(9)));
    seq(k, i => if i < n then Frame(2, 2, Page(1)) else Frame(1, 1, Page(9)))
  }

  /** The database after `j` of them, with what it holds past its size. */
  function CutDb(n: nat, j: nat): (db: Db)
  {
    if j == 0 then Two(0, 0)
    else if j <= n then Two(0, 1)
    else if n == 0 then Db(1, Two(9, 0).pages)
    else Db(1, Two(9, 1).pages)
  }

  lemma {:induction false} CutPlays(n: nat, k: nat, j: nat)
    requires j <= k
    ensures Play(Two(0, 0), Cut(n, k)[..j]) == CutDb(n, j)
    ensures Committed(Cut(n, k)[..j]) == j && Overlay(Two(0, 0).pages, Cut(n, k)[..j]) == CutDb(n, j).pages
  {
    hide Page, Two;
    var frames := Cut(n, k)[..j];
    assert frames[..j] == frames;
    if j > 0 {
      CutPlays(n, k, j - 1);
      assert frames[..j - 1] == Cut(n, k)[..j - 1];
      CutStep(n, j);
    }
  }

  /** What one more frame does to the pages. */
  lemma CutStep(n: nat, j: nat)
    requires j > 0
    ensures var f := if j - 1 < n then Frame(2, 2, Page(1)) else Frame(1, 1, Page(9));
            CutDb(n, j - 1).pages[f.page := f.image] == CutDb(n, j).pages && CutDb(n, j).size == f.commit
  {
    hide Page;
    Written(0, 0, 1);
    Written(0, 1, 1);
    Written(0, 0, 9);
    Written(0, 1, 9);
    Written(9, 0, 9);
    Written(9, 1, 9);
  }

  /** What a reader sees of it. */
  lemma CutSeen(n: nat, j: nat)
    ensures Observe(CutDb(n, j)) == if j == 0 then Two(0, 0) else if j <= n then Two(0, 1) else One(9)
  {
    hide Page;
    Twos(0, 0, 0, 1);
    Twos(0, 1, 0, 1);
    Written(9, 0, 0);
    Written(9, 1, 0);
  }

  lemma CutNeverGrows(n: nat, k: nat)
    ensures GrowthWritten(Two(0, 0), Cut(n, k))
  {
    hide Page;
    NeverGrows(Two(0, 0), Cut(n, k));
  }

  /** The file with all of them in it, under the first `n` of them: a mixture. */
  lemma CutMixes(n: nat, k: nat)
    requires 0 < n <= k
    ensures Observe(Play(One(9), Cut(n, k)[..n])) == Two(9, 1)
    ensures Two(9, 1) != Two(0, 0) && Two(9, 1) != Two(0, 1) && Two(9, 1) != One(9)
  {
    hide Page;
    var first := Cut(n, k)[..n];
    CutPlays(n, k, n);
    assert first[..n] == first;
    OnePageWritten(One(9).pages, first, Frame(2, 2, Page(1)));
    Written(9, 0, 1);
    Twos(9, 1, 0, 0);
    Twos(9, 1, 0, 1);
  }

  // ---------- segments of the same epoch ----------

  /** The file, put under the first `n` frames of the WAL, shows some state of the history. */
  ghost predicate ShowsSome(base: Db, frames: seq<Frame>, n: nat, file: Db)
    requires n <= |frames|
  {
    exists j :: 0 <= j <= |frames| && Observe(Play(file, frames[..n])) == Observe(Play(base, frames[..j]))
  }

  /** If the file has `k` frames in it. */
  ghost predicate TidyBeside(base: Db, frames: seq<Frame>, n: nat, k: nat, file: Db)
    requires n <= |frames| && k <= |frames|
  {
    && Full(base) && GrowthWritten(base, frames)
    && Observe(file) == Observe(Play(base, frames[..k]))
    ==> ShowsSome(base, frames, n, file)
  }

  /** For every database, every WAL and every such file. */
  ghost predicate AlwaysTidy(n: nat, k: nat)
  {
    forall base, frames, file :: n <= |frames| && k <= |frames| ==> TidyBeside(base, frames, n, k, file)
  }

  /**
   The guard for a snapshot beside segments of the same epoch is exact: whatever the database and
   its WAL hold, the two fit together, if and only if no segment is there, or the segments reach
   at least as far as the backfill.
   */
  lemma TidyIsExact(n: nat, k: nat)
    ensures n == 0 || k <= n <==> AlwaysTidy(n, k)
  {
    if n == 0 || k <= n {
      forall base, frames, file | n <= |frames| && k <= |frames|
        ensures TidyBeside(base, frames, n, k, file)
      {
        TidyShows(base, frames, n, k, file);
      }
    } else {
      CutMixes(n, k);
      CutPlays(n, k, k);
      CutSeen(n, k);
      CutNeverGrows(n, k);
      Twos(0, 0, 0, 0);
      Ones(9, 9);
      assert Cut(n, k)[..k] == Cut(n, k);
      forall j | 0 <= j <= k
        ensures Observe(Play(Two(0, 0), Cut(n, k)[..j])) != Two(9, 1)
      {
        CutPlays(n, k, j);
        CutSeen(n, j);
      }
      assert !ShowsSome(Two(0, 0), Cut(n, k), n, One(9));
      assert !TidyBeside(Two(0, 0), Cut(n, k), n, k, One(9));
    }
  }

  lemma TidyShows(base: Db, frames: seq<Frame>, n: nat, k: nat, file: Db)
    requires n <= |frames| && k <= |frames| && (n == 0 || k <= n)
    ensures TidyBeside(base, frames, n, k, file)
  {
    hide GrowthWritten, Play, Observe, Full;
    if n == 0 {
      assert frames[..n] == [];
      NothingPlayed(file);
    } else if GrowthWritten(base, frames) && Observe(file) == Observe(Play(base, frames[..k])) {
      GrowthPrefix(base, frames, n);
      assert frames[..n][..k] == frames[..k];
      LookalikeReplays(base, file, frames[..n], k);
    }
  }

  const CUT_SALT: Bytes := [0, 0, 0, 0, 0, 0, 0, 7]

  /**
   A generation that is published and follows its epoch, with `n` frames shipped of `k` that are
   backfilled: replacing its snapshot by the database file gives a store that restores to no
   database that there ever was, for all such `n` and `k`.
   */
  lemma SnapshotAheadOfSegmentsMixes(cfg: BackupConfig, objects: Objects, generation: string, m: GenerationManifest,
                                     snapshot: Bytes, raw: Bytes, data: Bytes, now: nat, n: nat, k: nat)
    requires 0 < n < k && cfg.formats.pager(snapshot) == Two(0, 0) && cfg.formats.pager(raw) == One(9)
    requires Published(cfg, objects, generation, m, snapshot, WalImage(CUT_SALT, Cut(n, k)[..n])) && Sound(cfg, objects)
    requires NoSlash(generation) && m.generation == generation && TimesUpTo(m.segments, now)
    requires Decode(cfg, data) == Ok(raw)
    ensures var epochs := [Epoch(Two(0, 0), WalImage(CUT_SALT, Cut(n, k)))];
            var after := objects[SnapshotKey(generation) := data];
            && Full(Two(0, 0)) && Full(One(9)) && EpochGrows(epochs[0], epochs[0].wal)
            && Following(cfg, epochs, 0, snapshot, 0, WalImage(CUT_SALT, Cut(n, k)[..n]), Some(CUT_SALT))
            && FileShows(cfg, raw, epochs[0], k)
            && RestoreLatest(cfg, after).Ok?
            && forall p :: Reached(epochs, p) ==> Open(cfg, RestoreLatest(cfg, after).value) != StateAt(epochs, p)
  {
    hide WalImage, Published, Sound, RestoreLatest, Cut, Play, Frames, SaltOf, Observe, EpochGrows, Full, One, Two;
    var epochs := [Epoch(Two(0, 0), WalImage(CUT_SALT, Cut(n, k)))];
    var shipped := WalImage(CUT_SALT, Cut(n, k)[..n]);
    var after := objects[SnapshotKey(generation) := data];
    CutFollows(cfg, snapshot, raw, n, k);
    SnapshotReplaced(cfg, objects, generation, m, snapshot, shipped, now, raw, data);
    PublishedRestores(cfg, after, generation, m, raw, shipped);
    FramesOfImage(CUT_SALT, Cut(n, k)[..n]);
    FramesOfImage(CUT_SALT, Cut(n, k));
    CutMixes(n, k);
    forall p | Reached(epochs, p)
      ensures Open(cfg, RestoreLatest(cfg, after).value) != StateAt(epochs, p)
    {
      CutPlays(n, k, p.frames);
      CutSeen(n, p.frames);
    }
  }

  lemma CutFollows(cfg: BackupConfig, snapshot: Bytes, raw: Bytes, n: nat, k: nat)
    requires 0 < n < k && cfg.formats.pager(snapshot) == Two(0, 0) && cfg.formats.pager(raw) == One(9)
    ensures var epochs := [Epoch(Two(0, 0), WalImage(CUT_SALT, Cut(n, k)))];
            && Full(Two(0, 0)) && Full(One(9)) && EpochGrows(epochs[0], epochs[0].wal)
            && Following(cfg, epochs, 0, snapshot, 0, WalImage(CUT_SALT, Cut(n, k)[..n]), Some(CUT_SALT))
            && FileShows(cfg, raw, epochs[0], k)
            && WalImage(CUT_SALT, Cut(n, k)[..n]) != []
  {
    hide WalImage, Cut, Play, SaltOf, Observe, GrowthWritten, Full, One, Two;
    var frames := Cut(n, k);
    FramesOfImage(CUT_SALT, frames[..n]);
    FramesOfImage(CUT_SALT, frames);
    ImagePrefix(CUT_SALT, frames, n);
    assert frames[..k] == frames && frames[..0] == [];
    NothingPlayed(Two(0, 0));
    TimesMonotone(1, n, FRAME_SIZE);
    CutPlays(n, k, k);
    CutSeen(n, k);
    CutNeverGrows(n, k);
    GrowthPrefix(Two(0, 0), frames, n);
    Twos(0, 0, 0, 0);
    Ones(9, 9);
  }

  // ---------- segments of the epoch before ----------

  /** The file, put under the first `n` frames of an epoch, shows some state of it or of the next one. */
  ghost predicate ShowsSomeAcross(base: Db, ended: seq<Frame>, next: Db, frames: seq<Frame>, n: nat, file: Db)
    requires n <= |ended|
  {
    || ShowsSome(base, ended, n, file)
    || exists j :: 0 <= j <= |frames| && Observe(Play(file, ended[..n])) == Observe(Play(next, frames[..j]))
  }

  ghost predicate TidyAcross(base: Db, ended: seq<Frame>, next: Db, frames: seq<Frame>, n: nat, k: nat, file: Db)
    requires n <= |ended| && k <= |frames|
  {
    && Full(base) && GrowthWritten(base, ended)
    && Observe(next) == Observe(Play(base, ended)) && GrowthWritten(next, frames)
    && Observe(file) == Observe(Play(next, frames[..k]))
    ==> ShowsSomeAcross(base, ended, next, frames, n, file)
  }

  /** Whatever an epoch of `total` frames and the epoch after it hold, with `k` frames of that one backfilled. */
  ghost predicate AlwaysTidyAcross(n: nat, total: nat, k: nat)
    requires n <= total
  {
    forall base, ended, next, frames, file :: |ended| == total && k <= |frames| ==>
      TidyAcross(base, ended, next, frames, n, k, file)
  }

  /**
   Segments of an epoch fit the file of the next one, if and only if there are none, or they are
   all of their epoch and nothing has been backfilled since.
   */
  lemma TidyAcrossIsExact(n: nat, total: nat, k: nat)
    requires n <= total
    ensures n == 0 || (n == total && k == 0) <==> AlwaysTidyAcross(n, total, k)
  {
    if n == 0 || (n == total && k == 0) {
      forall base, ended, next, frames, file | |ended| == total && k <= |frames|
        ensures TidyAcross(base, ended, next, frames, n, k, file)
      {
        TidyAcrossShows(base, ended, next, frames, n, k, file);
      }
    } else {
      MixedAcross(n, total, k);
      var next := if n < total then One(9) else Two(0, 1);
      assert !TidyAcross(Two(0, 0), Cut(n, total), next, Cut(0, k), n, k, One(9));
    }
  }

  lemma TidyAcrossShows(base: Db, ended: seq<Frame>, next: Db, frames: seq<Frame>, n: nat, k: nat, file: Db)
    requires n <= |ended| && k <= |frames| && (n == 0 || (n == |ended| && k == 0))
    ensures TidyAcross(base, ended, next, frames, n, k, file)
  {
    hide GrowthWritten, Play, Observe, Full;
    assert ended[..|ended|] == ended;
    if n == 0 {
      assert ended[..n] == [];
      NothingPlayed(file);
    } else {
      assert frames[..0] == [];
      NothingPlayed(next);
      if GrowthWritten(base, ended) && Observe(file) == Observe(Play(base, ended)) {
        LookalikeReplays(base, file, ended, n);
      }
    }
  }

  /** The example: old frames that write the second page, frames of either epoch that cut it off. */
  lemma MixedAcross(n: nat, total: nat, k: nat)
    requires 0 < n <= total && (n < total || 0 < k)
    ensures var base, ended, frames := Two(0, 0), Cut(n, total), Cut(0, k);
            var next := if n < total then One(9) else Two(0, 1);
            && Full(base) && GrowthWritten(base, ended) && Observe(next) == Observe(Play(base, ended))
            && GrowthWritten(next, frames) && Observe(One(9)) == Observe(Play(next, frames[..k]))
            && !ShowsSomeAcross(base, ended, next, frames, n, One(9))
  {
    hide Page, One, Two, GrowthWritten, Full, Play, Observe;
    var base, ended, frames := Two(0, 0), Cut(n, total), Cut(0, k);
    var next := if n < total then One(9) else Two(0, 1);
    assert ended[..total] == ended && frames[..k] == frames;
    CutMixes(n, total);
    CutPlays(n, total, total);
    CutSeen(n, total);
    CutNeverGrows(n, total);
    Twos(0, 0, 0, 1);
    Twos(0, 1, 0, 1);
    Ones(9, 9);
    CutFurther(n < total, k);
    forall j | 0 <= j <= total
      ensures Observe(Play(base, ended[..j])) != Two(9, 1)
    {
      CutPlays(n, total, j);
      CutSeen(n, j);
    }
    forall j | 0 <= j <= k
      ensures Observe(Play(next, frames[..j])) != Two(9, 1)
    {
      CutOnwards(n < total, k, j);
    }
    CutOnwards(n < total, k, k);
  }

  lemma CutFurther(cut: bool, k: nat)
    ensures GrowthWritten(if cut then One(9) else Two(0, 1), Cut(0, k))
  {
    hide Page;
    NeverGrows(if cut then One(9) else Two(0, 1), Cut(0, k));
  }

  /** Frames that cut the database down, on a database that is or is not yet. */
  lemma CutOnwards(cut: bool, k: nat, j: nat)
    requires j <= k
    ensures || Observe(Play(if cut then One(9) else Two(0, 1), Cut(0, k)[..j])) == if cut
            || j > 0 then One(9) else Two(0, 1)
  {
    hide Page;
    var frames := Cut(0, k)[..j];
    Ones(9, 9);
    Twos(0, 1, 0, 1);
    if j == 0 {
      assert frames == [];
    } else {
      assert frames[..j] == frames;
      assert frames[j - 1].commit == 1;
      assert Committed(frames) == j;
      OnePageWritten(if cut then One(9).pages else Two(0, 1).pages, frames, Frame(1, 1, Page(9)));
      Written(0, 1, 9);
      Written(9, 1, 9);
    }
  }

  const FIRST_SALT: Bytes := [0, 0, 0, 0, 0, 0, 0, 1]
  const SECOND_SALT: Bytes := [0, 0, 0, 0, 0, 0, 0, 2]

  /** A page is written; after a reset the database is cut down to the other page. */
  function CutLater(): (epochs: seq<Epoch>)
  {
    [Epoch(Two(0, 0), WalImage(FIRST_SALT, [Frame(2, 2, Page(1))])),
     Epoch(Two(0, 1), WalImage(SECOND_SALT, [Frame(1, 1, Page(9))]))]
  }

  lemma CutLaterFrames()
    ensures FrameCount(CutLater()[0].wal) == FrameCount(CutLater()[1].wal) == 1
    ensures Frames(CutLater()[0].wal) == [Frame(2, 2, Page(1))] && Frames(CutLater()[1].wal) == [Frame(1, 1, Page(9))]
    ensures SaltsDistinct(CutLater())
    ensures Play(Two(0, 0), [Frame(2, 2, Page(1))]) == Two(0, 1)
    ensures Observe(Play(Two(0, 1), [Frame(1, 1, Page(9))])) == One(9)
    ensures Play(One(9), [Frame(2, 2, Page(1))]) == Two(9, 1)
    ensures EpochGrows(CutLater()[0], CutLater()[0].wal) && EpochGrows(CutLater()[1], CutLater()[1].wal)
  {
    hide WalImage, Page, Play, GrowthWritten, Observe;
    FramesOfImage(FIRST_SALT, [Frame(2, 2, Page(1))]);
    FramesOfImage(SECOND_SALT, [Frame(1, 1, Page(9))]);
    OneFrame(Two(0, 0), Frame(2, 2, Page(1)));
    OneFrame(Two(0, 1), Frame(1, 1, Page(9)));
    OneFrame(One(9), Frame(2, 2, Page(1)));
    Written(0, 0, 1);
    Written(0, 1, 9);
    Written(9, 0, 1);
    Written(9, 1, 1);
    GrowsByOne(Two(0, 0), Frame(2, 2, Page(1)));
    GrowsByOne(Two(0, 1), Frame(1, 1, Page(9)));
    assert FIRST_SALT[7] != SECOND_SALT[7];
  }

  lemma CutLaterStates(p: Point)
    ensures Chained(CutLater())
    ensures Reached(CutLater(), p) ==> StateAt(CutLater(), p) in {Two(0, 0), Two(0, 1), One(9)}
  {
    hide WalImage, Page, Play, AlignedLen, SaltsDistinct, Observe, One, Two;
    CutLaterFrames();
    OneFrame(Two(0, 0), Frame(2, 2, Page(1)));
    OneFrame(Two(0, 1), Frame(1, 1, Page(9)));
    Twos(0, 0, 0, 1);
    Twos(0, 1, 0, 1);
    var epochs := CutLater();
    assert StateAt(epochs, Point(0, 0)) == Two(0, 0) && StateAt(epochs, Point(0, 1)) == Two(0, 1);
    assert StateAt(epochs, Point(1, 0)) == Two(0, 1) && StateAt(epochs, Point(1, 1)) == One(9);
    assert Reached(epochs, p) ==> p in {Point(0, 0), Point(0, 1), Point(1, 0), Point(1, 1)};
  }

  /** The same on a published generation: all its epoch's frames are shipped, and one later frame is in the file. */
  lemma SnapshotOfLaterEpochMixes(cfg: BackupConfig, objects: Objects, generation: string, m: GenerationManifest,
                                  snapshot: Bytes, raw: Bytes, data: Bytes, now: nat)
    requires cfg.formats.pager(snapshot) == Two(0, 0) && cfg.formats.pager(raw) == One(9)
    requires Published(cfg, objects, generation, m, snapshot, CutLater()[0].wal) && Sound(cfg, objects)
    requires NoSlash(generation) && m.generation == generation && TimesUpTo(m.segments, now)
    requires Decode(cfg, data) == Ok(raw)
    ensures var after := objects[SnapshotKey(generation) := data];
            && Full(Two(0, 0)) && Full(One(9)) && FileShows(cfg, raw, CutLater()[1], 1)
            && RestoreLatest(cfg, after).Ok?
            && forall p :: Reached(CutLater(), p) ==>
                 Open(cfg, RestoreLatest(cfg, after).value) != StateAt(CutLater(), p)
  {
    hide WalImage, Published, Sound, RestoreLatest, Page, StateAt, SaltsDistinct, Chained, Play, Observe, Full,
      EpochGrows;
    var shipped := CutLater()[0].wal;
    var after := objects[SnapshotKey(generation) := data];
    CutLaterFrames();
    SnapshotReplaced(cfg, objects, generation, m, snapshot, shipped, now, raw, data);
    PublishedRestores(cfg, after, generation, m, raw, shipped);
    Ones(9, 9);
    OneFrame(Two(0, 1), Frame(1, 1, Page(9)));
    Twos(9, 1, 0, 0);
    Twos(9, 1, 0, 1);
    Twos(0, 0, 0, 0);
    assert Open(cfg, RestoreLatest(cfg, after).value) == Two(9, 1);
    forall p | Reached(CutLater(), p)
      ensures Two(9, 1) != StateAt(CutLater(), p)
    {
      CutLaterStates(p);
    }
  }
}
