/**
 What is remembered about every generation: which epoch its snapshot and its segments are taken
 from. With it a restore to any point in time has a meaning, long after a generation has ended.
 */
module Ledger {
  import opened Wrappers
  import opened Wal
  import opened Replay
  import opened Manifest
  import opened Config
  import opened Keys
  import opened S3
  import opened Durable
  import opened History
  import opened Tracking
  import opened Steps
  import opened Restore
  import opened PointInTime

  /** A generation; it is regular if every segment ends on a frame boundary past what the snapshot holds. */
  datatype Record = Record(epoch: nat, snapshot: Bytes, snapFrames: nat, shipped: Bytes, regular: bool)

  /**
   The records; the generations about which nothing is known, such as those of other histories;
   and how many snapshots were taken that may not fit the segments beside them.
   */
  datatype Ledger = Ledger(records: map<string, Record>, unknown: set<string>, mixes: nat)

  function Enter(ledger: Ledger, generation: string, rec: Record): (after: Ledger)
  {
    ledger.(records := ledger.records[generation := rec])
  }

  function Forget(ledger: Ledger, generation: string): (after: Ledger)
  {
    Ledger(ledger.records - {generation}, ledger.unknown + {generation}, ledger.mixes + 1)
  }

  /** If the generation has a readable manifest, its objects are what the record says. */
  predicate RecordHolds(cfg: BackupConfig, objects: Objects, epochs: seq<Epoch>, generation: string, rec: Record)
  {
    match ManifestAt(cfg, objects, generation)
    case None => true
    case Some(m) =>
      && DecodeAt(cfg, objects, SnapshotKey(generation)) == Ok(rec.snapshot)
      && Holds(cfg, objects, generation, m.segments, rec.shipped)
      && Belongs(cfg, epochs, rec.epoch, rec.snapshot, rec.snapFrames, rec.shipped)
      && (rec.regular ==> AlignedCuts(m.segments, rec.shipped, rec.snapFrames))
  }

  predicate AccountedFor(cfg: BackupConfig, objects: Objects, epochs: seq<Epoch>, ledger: Ledger, generation: string)
  {
    if generation in ledger.records then RecordHolds(cfg, objects, epochs, generation, ledger.records[generation])
    else ManifestAt(cfg, objects, generation).Some? ==> generation in ledger.unknown
  }

  /** Every generation of the store is as recorded, or known to be unknown. */
  ghost predicate Accounted(cfg: BackupConfig, objects: Objects, epochs: seq<Epoch>, ledger: Ledger)
  {
    forall g :: NoSlash(g) ==> AccountedFor(cfg, objects, epochs, ledger, g)
  }

  /** No generation became unknown. */
  predicate Calm(before: Ledger, after: Ledger)
  {
    after.unknown == before.unknown && after.mixes == before.mixes
  }

  /** And none lost its regular cuts. */
  predicate Keeps(before: Ledger, after: Ledger)
  {
    && Calm(before, after)
    && forall g :: g in after.records && !after.records[g].regular ==> g in before.records && !before.records[g].regular
  }

  /** Everything is known, and cut regularly. */
  predicate AllRegular(ledger: Ledger)
  {
    ledger.unknown == {} && forall g :: g in ledger.records ==> ledger.records[g].regular
  }

  lemma KeepsTransitive(a: Ledger, b: Ledger, c: Ledger)
    requires Keeps(a, b) && Keeps(b, c)
    ensures Keeps(a, c)
  {
  }

  lemma KeepsRegular(a: Ledger, b: Ledger)
    requires Keeps(a, b) && AllRegular(a)
    ensures AllRegular(b)
  {
  }

  lemma EnterKeeps(ledger: Ledger, generation: string, rec: Record)
    ensures Calm(ledger, Enter(ledger, generation, rec)) && Keeps(ledger, ledger)
    ensures rec.regular || (generation in ledger.records && !ledger.records[generation].regular) ==>
              Keeps(ledger, Enter(ledger, generation, rec))
    ensures generation in ledger.records && ledger.records[generation] == rec ==>
              Enter(ledger, generation, rec) == ledger
  {
    if generation in ledger.records && ledger.records[generation] == rec {
      assert ledger.records[generation := rec] == ledger.records;
    }
  }

  // ---------- what a change of the store or of the history does to the records ----------

  lemma RecordFrame(cfg: BackupConfig, a: Objects, b: Objects, epochs: seq<Epoch>, generation: string, rec: Record)
    requires RecordHolds(cfg, a, epochs, generation, rec) && SameUnder(a, b, generation)
    ensures RecordHolds(cfg, b, epochs, generation, rec)
  {
    KeyShapes(generation, 0);
    var r := ManifestAt(cfg, a, generation);
    if r.Some? {
      forall i | 0 <= i < |r.value.segments|
        ensures Under(generation, SegmentKey(generation, r.value.segments[i].index))
      {
        KeyShapes(generation, r.value.segments[i].index);
      }
      HoldsFrame(cfg, a, b, generation, r.value.segments, rec.shipped);
    }
  }

  lemma AccountedFrame(cfg: BackupConfig, a: Objects, b: Objects, epochs: seq<Epoch>, ledger: Ledger,
                       generation: string)
    requires AccountedFor(cfg, a, epochs, ledger, generation) && SameUnder(a, b, generation)
    ensures AccountedFor(cfg, b, epochs, ledger, generation)
  {
    KeyShapes(generation, 0);
    if generation in ledger.records {
      RecordFrame(cfg, a, b, epochs, generation, ledger.records[generation]);
    }
  }

  /** A change within one generation concerns its own entry only. */
  lemma AccountedStep(cfg: BackupConfig, a: Objects, b: Objects, epochs: seq<Epoch>, ledger: Ledger, after: Ledger,
                      generation: string)
    requires Accounted(cfg, a, epochs, ledger) && NoSlash(generation) && SameElsewhere(a, b, generation)
    requires after.records - {generation} == ledger.records - {generation} && ledger.unknown <= after.unknown
    requires AccountedFor(cfg, b, epochs, after, generation)
    ensures Accounted(cfg, b, epochs, after)
  {
    hide AccountedFor, SameElsewhere, SameUnder, NoSlash;
    forall g | NoSlash(g)
      ensures AccountedFor(cfg, b, epochs, after, g)
    {
      if g != generation {
        OthersSame(a, b, generation, g);
        AccountedFrame(cfg, a, b, epochs, ledger, g);
        EntryElsewhere(cfg, b, epochs, ledger, after, generation, g);
      }
    }
  }

  lemma EntryElsewhere(cfg: BackupConfig, objects: Objects, epochs: seq<Epoch>, ledger: Ledger, after: Ledger,
                       generation: string, g: string)
    requires after.records - {generation} == ledger.records - {generation} && ledger.unknown <= after.unknown
    requires g != generation
    requires AccountedFor(cfg, objects, epochs, ledger, g)
    ensures AccountedFor(cfg, objects, epochs, after, g)
  {
    hide RecordHolds, ManifestAt;
    assert g in ledger.records <==> g in ledger.records - {generation};
    assert g in after.records <==> g in after.records - {generation};
    if g in ledger.records {
      assert (ledger.records - {generation})[g] == (after.records - {generation})[g];
    }
  }

  lemma OthersSame(a: Objects, b: Objects, generation: string, g: string)
    requires SameElsewhere(a, b, generation) && NoSlash(generation) && NoSlash(g) && g != generation
    ensures SameUnder(a, b, g)
  {
    KeyShapes(g, 0);
    forall k | Under(g, k)
      ensures !Under(generation, k) && k != LATEST
    {
      if Under(generation, k) {
        GenerationsDisjoint(g, generation, k);
      }
    }
  }

  /** A generation that is published and follows the history has its record. */
  lemma AccountedPublished(cfg: BackupConfig, a: Objects, b: Objects, epochs: seq<Epoch>, ledger: Ledger,
                           generation: string, m: GenerationManifest, rec: Record)
    requires Accounted(cfg, a, epochs, ledger) && NoSlash(generation) && SameElsewhere(a, b, generation)
    requires Published(cfg, b, generation, m, rec.snapshot, rec.shipped)
    requires Belongs(cfg, epochs, rec.epoch, rec.snapshot, rec.snapFrames, rec.shipped)
    requires rec.regular ==> AlignedCuts(m.segments, rec.shipped, rec.snapFrames)
    ensures Accounted(cfg, b, epochs, Enter(ledger, generation, rec))
  {
    hide Accounted, Belongs, SameElsewhere, AlignedCuts, Holds, DecodeAt;
    AccountedStep(cfg, a, b, epochs, ledger, Enter(ledger, generation, rec), generation);
  }

  /** A generation without a manifest needs none. */
  lemma AccountedUnpublished(cfg: BackupConfig, a: Objects, b: Objects, epochs: seq<Epoch>, ledger: Ledger,
                             generation: string)
    requires Accounted(cfg, a, epochs, ledger) && NoSlash(generation) && SameElsewhere(a, b, generation)
    requires ManifestAt(cfg, b, generation).None?
    ensures Accounted(cfg, b, epochs, ledger)
  {
    hide Accounted, SameElsewhere, ManifestAt;
    AccountedStep(cfg, a, b, epochs, ledger, ledger, generation);
  }

  lemma AccountedForgotten(cfg: BackupConfig, a: Objects, b: Objects, epochs: seq<Epoch>, ledger: Ledger,
                           generation: string)
    requires Accounted(cfg, a, epochs, ledger) && NoSlash(generation) && SameElsewhere(a, b, generation)
    ensures Accounted(cfg, b, epochs, Forget(ledger, generation))
  {
    hide Accounted, SameElsewhere, ManifestAt, RecordHolds;
    AccountedStep(cfg, a, b, epochs, ledger, Forget(ledger, generation), generation);
  }

  /** The marker plays no part. */
  lemma AccountedMarker(cfg: BackupConfig, objects: Objects, epochs: seq<Epoch>, ledger: Ledger, data: Bytes)
    requires Accounted(cfg, objects, epochs, ledger)
    ensures Accounted(cfg, objects[LATEST := data], epochs, ledger)
  {
    hide AccountedFor;
    forall g | NoSlash(g)
      ensures AccountedFor(cfg, objects[LATEST := data], epochs, ledger, g)
    {
      KeyShapes(g, 0);
      assert SameUnder(objects, objects[LATEST := data], g);
      AccountedFrame(cfg, objects, objects[LATEST := data], epochs, ledger, g);
    }
  }

  lemma AccountedStable(cfg: BackupConfig, objects: Objects, before: seq<Epoch>, after: seq<Epoch>, ledger: Ledger)
    requires Accounted(cfg, objects, before, ledger) && Extends(before, after)
    ensures Accounted(cfg, objects, after, ledger)
  {
    hide Belongs, Extends, ManifestAt, Holds, AlignedCuts, NoSlash, DecodeAt;
    forall g | NoSlash(g)
      ensures AccountedFor(cfg, objects, after, ledger, g)
    {
      assert AccountedFor(cfg, objects, before, ledger, g);
      if g in ledger.records && ManifestAt(cfg, objects, g).Some? {
        var rec := ledger.records[g];
        BelongsStable(cfg, before, after, rec.epoch, rec.snapshot, rec.snapFrames, rec.shipped);
      }
    }
  }

  /** Nothing need be known about a store to begin with. */
  lemma NothingKnown(cfg: BackupConfig, objects: Objects, issued: set<string>, epochs: seq<Epoch>)
    requires Registered(cfg, objects, issued)
    ensures Accounted(cfg, objects, epochs, Ledger(map[], issued, 0))
  {
    forall g | NoSlash(g) && ManifestAt(cfg, objects, g).Some?
      ensures g in issued
    {
      KeyShapes(g, 0);
      HeadOfPrefixed(g, ManifestKey(g));
    }
  }

  // ---------- a snapshot on the way ----------

  /** What the first upload of a snapshot makes of the ledger. */
  function Snapshotted(kind: Kind, ledger: Ledger, generation: string, rec: Record): (after: Ledger)
  {
    match kind
    case Fresh => ledger
    case Tame => Enter(ledger, generation, rec)
    case Mixed => Forget(ledger, generation)
  }

  lemma SnapshotKeeps(kind: Kind, ledger: Ledger, generation: string, rec: Record, last: Record)
    requires last.regular
    ensures var first := Snapshotted(kind, ledger, generation, rec);
            && (kind.Fresh? ==> Keeps(ledger, first))
            && (kind.Fresh? ==> first == ledger)
            && (!kind.Mixed? ==> Calm(ledger, first) && Calm(ledger, Enter(first, generation, last)))
            && (!kind.Mixed? ==> Keeps(ledger, Enter(first, generation, last)))
    ensures Keeps(ledger, ledger) && Calm(ledger, ledger)
  {
  }

  lemma MixesCount(kind: Kind, ledger: Ledger, generation: string, rec: Record)
    ensures Snapshotted(kind, ledger, generation, rec).mixes == if kind.Mixed? then ledger.mixes + 1 else ledger.mixes
  {
  }

  lemma EnterMixes(ledger: Ledger, generation: string, rec: Record)
    ensures Enter(ledger, generation, rec).mixes == ledger.mixes
  {
  }

  lemma SnapshotAccounted(cfg: BackupConfig, a: Objects, b: Objects, epochs: seq<Epoch>, ledger: Ledger,
                          generation: string, kind: Kind, m: GenerationManifest, rec: Record, now: nat)
    requires Accounted(cfg, a, epochs, ledger) && SameElsewhere(a, b, generation)
    requires BeforeMarker(cfg, b, generation, kind, m, rec.snapshot, rec.shipped, now)
    requires kind.Tame? ==> Belongs(cfg, epochs, rec.epoch, rec.snapshot, rec.snapFrames, rec.shipped)
    requires rec.regular ==> rec.shipped == []
    ensures Accounted(cfg, b, epochs, Snapshotted(kind, ledger, generation, rec))
  {
    hide Accounted, Belongs, SameElsewhere, Sound, DecodeAt;
    match kind
    case Fresh =>
      KeyShapes(generation, 0);
      AccountedUnpublished(cfg, a, b, epochs, ledger, generation);
    case Tame =>
      HoldsTiles(cfg, b, generation, m.segments, rec.shipped);
      AccountedPublished(cfg, a, b, epochs, ledger, generation, m, rec);
    case Mixed =>
      AccountedForgotten(cfg, a, b, epochs, ledger, generation);
  }

  // ---------- points in time ----------

  /** Where in the history a generation cut off after `wal` stands. */
  function CutPoint(rec: Record, wal: Bytes): (p: Point)
  {
    Point(rec.epoch, if FrameCount(wal) == 0 then rec.snapFrames else FrameCount(wal))
  }

  /** The cut leaves the bare snapshot, or covers all that the snapshot holds. */
  predicate CutFits(rec: Record, wal: Bytes)
  {
    FrameCount(wal) == 0 || rec.snapFrames <= FrameCount(wal)
  }

  /** A snapshot with a fitting cut of its WAL, whole frames or not, is a database of the history. */
  lemma CutShows(cfg: BackupConfig, epochs: seq<Epoch>, rec: Record, wal: Bytes)
    requires Belongs(cfg, epochs, rec.epoch, rec.snapshot, rec.snapFrames, rec.shipped)
    requires wal <= rec.shipped && CutFits(rec, wal)
    ensures Reached(epochs, CutPoint(rec, wal))
    ensures Observe(Play(cfg.formats.pager(rec.snapshot), Frames(wal))) == StateAt(epochs, CutPoint(rec, wal))
  {
    if FrameCount(wal) == 0 {
      assert Frames(wal) == [];
      NothingPlayed(cfg.formats.pager(rec.snapshot));
    } else {
      EpochGrowsPrefix(epochs[rec.epoch], wal, rec.shipped);
      SnapshotPlusWal(cfg, epochs[rec.epoch], rec.snapshot, rec.snapFrames, wal);
    }
  }

  /** In a regular generation every time gives whole frames, and all that the snapshot holds. */
  lemma RegularCutFits(cfg: BackupConfig, objects: Objects, epochs: seq<Epoch>, m: GenerationManifest, rec: Record,
                       now: nat, timestampMs: nat)
    requires RecordHolds(cfg, objects, epochs, m.generation, rec) && ManifestAt(cfg, objects, m.generation) == Some(m)
    requires rec.regular && TimesUpTo(m.segments, now)
    ensures WalUpTo(cfg, objects, m, timestampMs).Ok?
    ensures var wal := WalUpTo(cfg, objects, m, timestampMs).value;
            wal <= rec.shipped && CutFits(rec, wal) && AlignedLen(wal) == |wal|
  {
    hide Belongs, Following, TimesUpTo, AlignedCuts;
    var n, cut := WalUpToIsPrefix(cfg, objects, m, rec.shipped, now, timestampMs);
    var c := AlignedCutsPrefix(cfg, objects, m.generation, m.segments, rec.shipped, rec.snapFrames, n);
    HoldsTiles(cfg, objects, m.generation, m.segments[..n], rec.shipped[..cut]);
  }

  /**
   Whatever time is asked for: the files restored are the snapshot and an initial part of the WAL
   of one single epoch. If the cut fits the snapshot they open to a database that the history went
   through, and it always fits in a generation that was never compacted.
   */
  lemma PitrShowsHistory(cfg: BackupConfig, objects: Objects, issued: set<string>, epochs: seq<Epoch>, ledger: Ledger,
                         timestampMs: nat, m: GenerationManifest)
    requires Registered(cfg, objects, issued) && Sound(cfg, objects) && Accounted(cfg, objects, epochs, ledger)
    requires RestorePitr(cfg, objects, timestampMs).Ok?
    requires Chosen(cfg, objects, timestampMs) == Some(m) && m.generation in ledger.records
    ensures var rec, files := ledger.records[m.generation], RestorePitr(cfg, objects, timestampMs).value;
            && files.db == rec.snapshot && WalOf(files) <= rec.shipped
            && rec.epoch < |epochs| && rec.shipped <= epochs[rec.epoch].wal
            && (rec.regular ==> CutFits(rec, WalOf(files)) && AlignedLen(WalOf(files)) == |WalOf(files)|)
            && (CutFits(rec, WalOf(files)) ==>
                  && Reached(epochs, CutPoint(rec, WalOf(files)))
                  && Open(cfg, files) == StateAt(epochs, CutPoint(rec, WalOf(files))))
  {
    hide Registered, Sound, Chosen, Belongs, AlignedCuts, Holds, Fetch, FileShows, CutFits, CutPoint;
    PitrRestores(cfg, objects, issued, timestampMs);
    var rec, files := ledger.records[m.generation], RestorePitr(cfg, objects, timestampMs).value;
    assert AccountedFor(cfg, objects, epochs, ledger, m.generation);
    var now := SoundTimes(cfg, objects, m);
    var n, cut := WalUpToIsPrefix(cfg, objects, m, rec.shipped, now, timestampMs);
    RecordEpoch(cfg, epochs, rec);
    if rec.regular {
      RegularCutFits(cfg, objects, epochs, m, rec, now, timestampMs);
    }
    if CutFits(rec, WalOf(files)) {
      CutShows(cfg, epochs, rec, WalOf(files));
    }
  }

  lemma SoundTimes(cfg: BackupConfig, objects: Objects, m: GenerationManifest) returns (now: nat)
    requires Sound(cfg, objects) && NoSlash(m.generation) && ManifestAt(cfg, objects, m.generation) == Some(m)
    ensures TimesUpTo(m.segments, now)
  {
    assert SoundGeneration(cfg, objects, m.generation);
    now :| TimesUpTo(m.segments, now);
  }

  lemma RecordEpoch(cfg: BackupConfig, epochs: seq<Epoch>, rec: Record)
    requires Belongs(cfg, epochs, rec.epoch, rec.snapshot, rec.snapFrames, rec.shipped)
    ensures rec.epoch < |epochs| && rec.shipped <= epochs[rec.epoch].wal
  {
  }

  /** A restore to this time, if there is one, opens to a database that the history went through. */
  ghost predicate TimeShown(cfg: BackupConfig, objects: Objects, epochs: seq<Epoch>, timestampMs: nat)
  {
    RestorePitr(cfg, objects, timestampMs).Ok? ==>
      exists p :: Reached(epochs, p) && Open(cfg, RestorePitr(cfg, objects, timestampMs).value) == StateAt(epochs, p)
  }

  /** With everything known and regular, every time is shown. */
  lemma EveryTimeShown(cfg: BackupConfig, objects: Objects, issued: set<string>, epochs: seq<Epoch>, ledger: Ledger)
    requires Registered(cfg, objects, issued) && Sound(cfg, objects) && Accounted(cfg, objects, epochs, ledger)
    requires AllRegular(ledger)
    ensures forall timestampMs :: TimeShown(cfg, objects, epochs, timestampMs)
  {
    hide Registered, Sound, Chosen, RestorePitr, RecordHolds, Open, StateAt, CutFits, CutPoint;
    forall timestampMs
      ensures TimeShown(cfg, objects, epochs, timestampMs)
    {
      if RestorePitr(cfg, objects, timestampMs).Ok? {
        PitrRestores(cfg, objects, issued, timestampMs);
        var m := Chosen(cfg, objects, timestampMs).value;
        assert AccountedFor(cfg, objects, epochs, ledger, m.generation);
        PitrShowsHistory(cfg, objects, issued, epochs, ledger, timestampMs, m);
      }
    }
  }
}
