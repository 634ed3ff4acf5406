/** What a reset of the WAL in the wrong place does, and when it does no harm. */
module ResetLimits {
  import opened Wrappers
  import opened Wal
  import opened Replay
  import opened Manifest
  import opened Config
  import opened S3
  import opened Durable
  import opened History
  import opened Tracking
  import opened Images
  import opened Samples

  // ---------- a reset before the first sync ----------

  /**
   A snapshot was taken of a database with `k` frames of its WAL backfilled; then the WAL was reset,
   and later frames are written. Put on top of the snapshot, they show what the live database shows.
   */
  ghost predicate SurvivesReset(base: Db, lost: seq<Frame>, k: nat, snapshot: Db, next: Db, later: seq<Frame>)
    requires k <= |lost|
  {
    && Full(base) && GrowthWritten(base, lost)
    && Observe(snapshot) == Observe(Play(base, lost[..k]))
    && Observe(next) == Observe(Play(base, lost)) && GrowthWritten(next, later)
    ==> Observe(Play(snapshot, later)) == Observe(Play(next, later))
  }

  /** They do for all databases and WALs with `n` lost frames, the last of them committed being number `c`. */
  ghost predicate AlwaysSurvivesReset(n: nat, c: nat, k: nat)
    requires k <= n
  {
    forall base, lost, snapshot, next, later :: |lost| == n && Committed(lost) == c ==>
      SurvivesReset(base, lost, k, snapshot, next, later)
  }

  /** `n` frames that write the only page, of which just number `c` commits. */
  function CommitAt(n: nat, c: nat): (frames: seq<Frame>)
    ensures |frames| == n
  {
    seq(n, i => Frame(1, if i + 1 == c then 1 else 0, Page(9)))
  }

  lemma {:induction false} CommitAtPlays(n: nat, c: nat, k: nat)
    requires 0 < c <= n && k < c
    ensures Committed(CommitAt(n, c)) == c && GrowthWritten(One(0), CommitAt(n, c))
    ensures Play(One(0), CommitAt(n, c)[..k]) == One(0) && Play(One(0), CommitAt(n, c)) == One(9)
  {
    hide Page;
    var frames := CommitAt(n, c);
    var d := Committed(frames);
    assert frames[c - 1].commit == 1;
    assert d == c;
    assert Committed(frames[..k]) == 0;
    OnePageOver(frames[..c]);
    Written(0, 0, 9);
    NeverGrows(One(0), frames);
  }

  lemma {:induction false} OnePageOver(frames: seq<Frame>)
    requires frames != [] && forall f :: f in frames ==> f.page == 1 && f.image == Page(9)
    ensures Overlay(One(0).pages, frames) == One(0).pages[1 := Page(9)]
  {
    hide Page;
    var init := frames[..|frames| - 1];
    assert frames[|frames| - 1] in frames;
    if init != [] {
      assert forall f :: f in init ==> f in frames;
      OnePageOver(init);
    }
  }

  /**
   A reset between a snapshot and the first sync that captures a salt is not seen as a
   discontinuity; the new epoch's frames are shipped on top of the old epoch's snapshot. That does
   no harm, whatever the database and its WALs hold, if and only if the backfill had reached the
   last commit of the old epoch when the snapshot was taken.
   */
  lemma ResetBeforeSaltSafe(n: nat, c: nat, k: nat)
    requires c <= n && k <= n
    ensures c <= k <==> AlwaysSurvivesReset(n, c, k)
  {
    if c <= k {
      forall base, lost, snapshot, next, later | |lost| == n && Committed(lost) == c
        ensures SurvivesReset(base, lost, k, snapshot, next, later)
      {
        BackfillReached(base, lost, k, snapshot, next, later);
      }
    } else {
      CommitAtPlays(n, c, k);
      Ones(0, 9);
      OneFrame(One(0), Frame(1, 1, Page(9)));
      OneFrame(One(9), Frame(1, 1, Page(9)));
      NeverGrows(One(9), []);
      assert !SurvivesReset(One(0), CommitAt(n, c), k, One(0), One(9), []);
    }
  }

  lemma BackfillReached(base: Db, lost: seq<Frame>, k: nat, snapshot: Db, next: Db, later: seq<Frame>)
    requires Committed(lost) <= k <= |lost|
    ensures SurvivesReset(base, lost, k, snapshot, next, later)
  {
    CommittedMonotone(lost, k);
    var c := Committed(lost);
    assert lost[..k][..c] == lost[..c];
    assert later[..0] == [];
    NothingPlayed(next);
    if Observe(snapshot) == Observe(next) && GrowthWritten(next, later) {
      LookalikeReplays(next, snapshot, later, 0);
    }
  }

  /**
   The same for a snapshot of one epoch and the WAL of the next: what the next sync ships opens to the
   live database.
   */
  lemma ResetBeforeSaltShips(cfg: BackupConfig, epochs: seq<Epoch>, snapshot: Bytes, snapFrames: nat)
    requires |epochs| >= 2 && Chained(epochs) && Belongs(cfg, epochs, |epochs| - 2, snapshot, snapFrames, [])
    requires Committed(Frames(epochs[|epochs| - 2].wal)) <= snapFrames
    requires EpochGrows(epochs[|epochs| - 1], epochs[|epochs| - 1].wal)
    ensures var wal := epochs[|epochs| - 1].wal;
            && !CheckDiscontinuity(0, None, wal)
            && Open(cfg, FilesOf(snapshot, wal[..AlignedLen(wal)])) == StateAt(epochs, Tip(epochs))
  {
    hide GrowthWritten, Play, Observe;
    var last := |epochs| - 1;
    var lost, wal := Frames(epochs[last - 1].wal), epochs[last].wal;
    CommitsReached(epochs[last - 1].base, lost, snapFrames);
    assert lost[..|lost|] == lost;
    FramesOfAligned(wal);
    assert Frames(wal)[..FrameCount(wal)] == Frames(wal) && Frames(wal)[..0] == [];
    NothingPlayed(epochs[last].base);
    LookalikeReplays(epochs[last].base, cfg.formats.pager(snapshot), Frames(wal), 0);
    assert Frames([]) == [];
  }

  lemma CommitsReached(db: Db, frames: seq<Frame>, k: nat)
    requires Committed(frames) <= k <= |frames|
    ensures Play(db, frames[..k]) == Play(db, frames)
  {
    CommittedMonotone(frames, k);
    assert frames[..k][..Committed(frames)] == frames[..Committed(frames)];
  }

  // ---------- a history in which it does harm ----------

  const LOST_SALT: Bytes := [0, 0, 0, 0, 0, 0, 0, 1]
  const KEPT_SALT: Bytes := [0, 0, 0, 0, 0, 0, 0, 2]

  /** The page is rewritten, and not backfilled; after a reset a second page is added. */
  function LostAndKept(): (epochs: seq<Epoch>)
  {
    [Epoch(One(0), WalImage(LOST_SALT, [Frame(1, 1, Page(1))])),
     Epoch(One(1), WalImage(KEPT_SALT, [Frame(2, 2, Page(2))]))]
  }

  /** The frames of this history, and what they do. */
  lemma LostAndKeptFrames()
    ensures forall i :: 0 <= i < 2 ==>
              FrameCount(LostAndKept()[i].wal) == 1 && AlignedLen(LostAndKept()[i].wal) == |LostAndKept()[i].wal|
    ensures Frames(LostAndKept()[0].wal) == [Frame(1, 1, Page(1))]
    ensures Frames(LostAndKept()[1].wal) == [Frame(2, 2, Page(2))]
    ensures SaltsDistinct(LostAndKept())
    ensures Play(One(0), [Frame(1, 1, Page(1))]) == One(1) && Play(One(1), [Frame(2, 2, Page(2))]) == Two(1, 2)
    ensures Play(One(0), [Frame(2, 2, Page(2))]) == Two(0, 2)
    ensures EpochGrows(LostAndKept()[0], LostAndKept()[0].wal) && EpochGrows(LostAndKept()[1], LostAndKept()[1].wal)
  {
    hide WalImage, Page, Play, GrowthWritten;
    FramesOfImage(LOST_SALT, [Frame(1, 1, Page(1))]);
    FramesOfImage(KEPT_SALT, [Frame(2, 2, Page(2))]);
    OneFrame(One(0), Frame(1, 1, Page(1)));
    OneFrame(One(1), Frame(2, 2, Page(2)));
    OneFrame(One(0), Frame(2, 2, Page(2)));
    Written(0, 0, 1);
    Written(1, 0, 2);
    Written(0, 0, 2);
    GrowsByOne(One(0), Frame(1, 1, Page(1)));
    GrowsByOne(One(1), Frame(2, 2, Page(2)));
    assert LOST_SALT[7] != KEPT_SALT[7];
  }

  /** All the databases of this history. */
  lemma LostAndKeptStates(p: Point)
    ensures Chained(LostAndKept())
    ensures Reached(LostAndKept(), p) ==> StateAt(LostAndKept(), p) in {One(0), One(1), Two(1, 2)}
  {
    hide WalImage, Page, Play, AlignedLen, SaltsDistinct, Observe, One, Two;
    LostAndKeptFrames();
    OneFrame(One(0), Frame(1, 1, Page(1)));
    OneFrame(One(1), Frame(2, 2, Page(2)));
    Ones(0, 1);
    Ones(1, 1);
    Twos(1, 2, 1, 2);
    var epochs := LostAndKept();
    assert StateAt(epochs, Point(0, 0)) == One(0) && StateAt(epochs, Point(0, 1)) == One(1);
    assert StateAt(epochs, Point(1, 0)) == One(1) && StateAt(epochs, Point(1, 1)) == Two(1, 2);
    assert Reached(epochs, p) ==> p in {Point(0, 0), Point(0, 1), Point(1, 0), Point(1, 1)};
  }

  /**
   The snapshot was taken before the reset, with nothing backfilled; the new epoch is shipped on
   top of it. The store restores to no database that there ever was.
   */
  lemma ResetBeforeSaltLoses(cfg: BackupConfig, snapshot: Bytes, objects: Objects, generation: string,
                             m: GenerationManifest)
    requires cfg.formats.pager(snapshot) == One(0)
    ensures var epochs := LostAndKept();
            var wal := epochs[1].wal;
            && Full(One(0)) && SaltsDistinct(epochs) && Chained(epochs) && EpochGrows(epochs[1], wal)
            && Following(cfg, epochs[..1], 0, snapshot, 0, [], None) && Belongs(cfg, epochs, 0, snapshot, 0, [])
            && !CheckDiscontinuity(0, None, wal) && AlignedLen(wal) == |wal| > WAL_HEADER_SIZE
            && (Published(cfg, objects, generation, m, snapshot, wal) ==>
                  && RestoreLatest(cfg, objects).Ok?
                  && forall p :: Reached(epochs, p) ==>
                       Open(cfg, RestoreLatest(cfg, objects).value) != StateAt(epochs, p))
  {
    hide WalImage, Published, RestoreLatest, Page, StateAt, AlignedLen, SaltsDistinct, Chained, LostAndKept,
      EpochGrows, Play, Observe, Full;
    LostAndKeptBelongs(cfg, snapshot);
    LostAndKeptFrames();
    LostAndKeptStates(Point(0, 0));
    Ones(0, 0);
    var epochs := LostAndKept();
    if Published(cfg, objects, generation, m, snapshot, epochs[1].wal) {
      PublishedRestores(cfg, objects, generation, m, snapshot, epochs[1].wal);
      Twos(0, 2, 1, 2);
      assert Open(cfg, RestoreLatest(cfg, objects).value) == Two(0, 2);
      forall p | Reached(epochs, p)
        ensures Two(0, 2) != StateAt(epochs, p)
      {
        LostAndKeptStates(p);
      }
    }
  }

  lemma LostAndKeptBelongs(cfg: BackupConfig, snapshot: Bytes)
    requires cfg.formats.pager(snapshot) == One(0)
    ensures |LostAndKept()| == 2 && |LostAndKept()[1].wal| > WAL_HEADER_SIZE
    ensures Following(cfg, LostAndKept()[..1], 0, snapshot, 0, [], None)
    ensures Belongs(cfg, LostAndKept(), 0, snapshot, 0, [])
  {
    hide WalImage, Frames, Play, Observe;
    var epochs := LostAndKept();
    NothingPlayed(One(0));
    assert Frames(epochs[0].wal)[..0] == [];
    assert epochs[..1][0] == epochs[0];
  }
}
