/** Whole runs: any sequence of operations, with the application running in between and throughout. */
module Runs {
  import opened Wrappers
  import opened Manifest
  import opened Config
  import opened Pipeline
  import opened Keys
  import opened S3
  import opened Durable
  import opened History
  import opened Live
  import opened Tracking
  import opened Steps
  import opened Ledger
  import opened Past
  import opened Restore
  import opened PointInTime
  import opened Compaction
  import opened Retention
  import opened Manager

  datatype Command =
    | Application(resets: bool)
    | Sync
    | Compact(maxSegmentSize: Option<nat>)
    | Retention
    | Checkpoint
    | TakeSnapshot

  /** No snapshot() is called directly. */
  predicate NoSnapshots(script: seq<Command>)
  {
    forall i :: 0 <= i < |script| ==> !script[i].TakeSnapshot?
  }

  /** The command leaves every generation cut at frame boundaries. */
  predicate Regular(c: Command)
  {
    !c.TakeSnapshot? && !c.Compact?
  }

  predicate AllRegularCommands(script: seq<Command>)
  {
    forall i :: 0 <= i < |script| ==> Regular(script[i])
  }

  /** And it removes nothing. */
  predicate AllAdding(script: seq<Command>)
  {
    forall i :: 0 <= i < |script| ==> Regular(script[i]) && !script[i].Retention?
  }

  /** The chunk size that a compaction is asked for. */
  ghost function SizeOf(c: Command): (size: nat)
  {
    if c.Compact? && c.maxSegmentSize.Some? then c.maxSegmentSize.value else 4194304
  }

  /**
   A compaction that would not end, or would lose data, is not started. A failed one can be left at
   that, unless the manifest could not be uploaded.
   */
  method CompactIfSafe(mgr: BackupManager, maxSegmentSize: Option<nat>) returns (ok: bool)
    requires mgr.Valid()
    modifies mgr, mgr.s3, mgr.live, mgr.host`clock
    ensures mgr.Intact() && (ok ==> mgr.Valid()) && mgr.hasReadTransaction == old(mgr.hasReadTransaction)
    ensures old(mgr.s3.trace) <= mgr.s3.trace && Extends(old(mgr.live.epochs), mgr.live.epochs)
    ensures old(mgr.host.clock) <= mgr.host.clock
    ensures old(mgr.points) <= mgr.points && Ascending(mgr.points, |old(mgr.points)| - 1)
    ensures mgr.ledger.mixes == old(mgr.ledger.mixes) && mgr.shutdownComplete == old(mgr.shutdownComplete)
    ensures old(mgr.s3.failures) <= mgr.s3.failures
    ensures mgr.s3.failures == old(mgr.s3.failures) && Able(mgr.cfg) ==> ok
    ensures mgr.generation == old(mgr.generation) && mgr.manifest.createdAtMs == old(mgr.manifest.createdAtMs)
    ensures mgr.s3.failures == old(mgr.s3.failures) && Able(mgr.cfg)
            && old(|mgr.manifest.segments|) > 1 && old(mgr.CanCompact(SizeOf(Compact(maxSegmentSize)))) ==>
              Recut(old(mgr.manifest.segments), mgr.manifest.segments, old(mgr.walIndex), mgr.walOffset,
                    SizeOf(Compact(maxSegmentSize)), old(mgr.host.clock))
  {
    hide *;
    ok := true;
    var _ := mgr.CurrentPosition();
    ghost var before := mgr.ledger;
    ExtendsReflexive(mgr.live.epochs);
    AscendingStart(mgr.points);
    SizeAsked(Compact(maxSegmentSize), mgr);
    var safe := mgr.MayCompact(maxSegmentSize);
    if safe {
      var m, i := mgr.manifest, mgr.walIndex;
      var r := mgr.Compact(maxSegmentSize);
      EnterMixes(before, mgr.generation, Record(mgr.epoch, mgr.snapshot, mgr.snapFrames, mgr.shipped, false));
      ok := r.Ok? || mgr.manifest == m || mgr.walIndex != i;
      CompactionInOrder(mgr, m, i);
    }
  }

  /** One operation. */
  method Execute(mgr: BackupManager, c: Command) returns (ok: bool)
    requires mgr.Valid()
    modifies mgr, mgr.s3, mgr.live, mgr.host, mgr.readConn
    ensures mgr.Intact() && (ok ==> mgr.Valid())
    ensures ok && old(mgr.hasReadTransaction) ==> mgr.hasReadTransaction
    ensures old(mgr.s3.trace) <= mgr.s3.trace && Extends(old(mgr.live.epochs), mgr.live.epochs)
    ensures old(mgr.host.issued) <= mgr.host.issued && old(mgr.host.clock) <= mgr.host.clock
    ensures old(mgr.points) <= mgr.points && old(mgr.readConn.heldUp) <= mgr.readConn.heldUp
    ensures old(mgr.ledger.mixes) <= mgr.ledger.mixes
    // A reader is never taken back, except by a checkpoint that others held up, or by a bare snapshot.
    ensures !c.TakeSnapshot? && mgr.readConn.heldUp == old(mgr.readConn.heldUp) ==>
              Ascending(mgr.points, |old(mgr.points)| - 1)
    // A reader always gets a state of the history, except from a snapshot beside segments that do not fit it.
    ensures mgr.ledger.mixes == old(mgr.ledger.mixes) ==> Placed(mgr.points, |old(mgr.points)| - 1)
    ensures !c.TakeSnapshot? || old(mgr.live.epochs != [] && mgr.Tidy()) ==> mgr.ledger.mixes == old(mgr.ledger.mixes)
    // It fails only if a store call fails, an encoder refuses its input, or a checkpoint is refused.
    ensures old(mgr.s3.failures) <= mgr.s3.failures
    ensures mgr.s3.failures == old(mgr.s3.failures) && Able(mgr.cfg) && Obliging(mgr.readConn) ==> ok
    // What each command achieves if nothing fails.
    ensures c.Sync? && mgr.s3.failures == old(mgr.s3.failures) && Able(mgr.cfg) && old(mgr.SameEpoch()) ==>
              mgr.Position() == if old(mgr.Unshipped()) then old(Tip(mgr.live.epochs)) else old(mgr.Position())
    ensures c.Checkpoint? && ok ==> mgr.generation !in old(mgr.host.issued) && mgr.shipped == []
    ensures c.TakeSnapshot? && ok ==>
              mgr.generation == old(mgr.generation) && mgr.snapshot == old(mgr.live.file) && mgr.shipped == []
    ensures c.Compact? && mgr.s3.failures == old(mgr.s3.failures) && Able(mgr.cfg)
            && old(|mgr.manifest.segments|) > 1 && old(mgr.CanCompact(SizeOf(c))) ==>
              Recut(old(mgr.manifest.segments), mgr.manifest.segments, old(mgr.walIndex), mgr.walOffset, SizeOf(c),
                    old(mgr.host.clock))
    ensures c.Retention? && mgr.s3.failures == old(mgr.s3.failures) && mgr.cfg.retentionMs.Some? ==>
              Retained(mgr.cfg, old(mgr.s3.objects), mgr.s3.objects, mgr.generation, mgr.cfg.retentionMs.value,
                       mgr.host.clock)
    // A generation keeps its time of creation; a new one is created now.
    ensures if mgr.generation == old(mgr.generation) then mgr.manifest.createdAtMs == old(mgr.manifest.createdAtMs)
            else mgr.generation !in old(mgr.host.issued) && old(mgr.host.clock) <= mgr.manifest.createdAtMs
    ensures mgr.shutdownComplete == old(mgr.shutdownComplete)
    // Restores to times past.
    ensures Regular(c) ==> Keeps(old(mgr.ledger), mgr.ledger)
    ensures Regular(c) && !c.Retention? ==> Onward(mgr.cfg, old(mgr.Moment()), mgr.Moment())
  {
    hide *;
    ok := true;
    var _ := mgr.CurrentPosition();
    ghost var m0 := mgr.Standing();
    ghost var p0 := mgr.points;
    ExtendsReflexive(mgr.live.epochs);
    AscendingStart(mgr.points);
    OnwardStill(mgr.cfg, m0);
    KeepsItself(mgr.ledger);
    CommandKinds(c);
    SizeAsked(c, mgr);
    ObligingNow(mgr.readConn);
    match c {
      case Application(resets) =>
        mgr.ApplicationRuns(resets);
        var _ := mgr.CurrentPosition();
      case Sync =>
        var m, g := mgr.manifest, mgr.generation;
        var r := mgr.SyncWal();
        // A failed sync can be left at that, unless the manifest could not be uploaded.
        ok := r.Ok? || (mgr.generation == g && mgr.manifest == m);
      case Compact(maxSegmentSize) =>
        ok := CompactIfSafe(mgr, maxSegmentSize);
      case Retention =>
        ghost var p := mgr.Position();
        var r := mgr.EnforceRetention();
        StayingAscends(p0, mgr.points, p);
        var _ := mgr.CurrentPosition();
      case Checkpoint =>
        var r, _ := mgr.Checkpoint();
        ok := r.Ok?;
      case TakeSnapshot =>
        mgr.PublishedAlready();
        mgr.TidyBelongs();
        ghost var kind := if mgr.Tidy() then Tame else Mixed;
        var r := mgr.Snapshot(kind);
        ok := r.Ok?;
        CalmCount(m0.ledger, mgr.ledger);
    }
    ghost var m1 := mgr.Standing();
    OnwardKeeps(mgr.cfg, m0, m1);
    CalmCount(m0.ledger, mgr.ledger);
    if Ascending(mgr.points, |p0| - 1) {
      AscendingIsPlaced(mgr.points, |p0| - 1);
    }
  }

  lemma CompactionInOrder(mgr: BackupManager, before: GenerationManifest, index: nat)
    ensures mgr.CompactionFailed(before, index) && (mgr.manifest == before || mgr.walIndex != index) ==> mgr.Valid()
  {
  }

  lemma SizeAsked(c: Command, mgr: BackupManager)
    ensures c.Compact? ==> SizeOf(c) == match c.maxSegmentSize case Some(n) => n case None => 4194304
    ensures mgr.CanCompact(SizeOf(c)) ==> SizeOf(c) > 0
  {
    hide SafeToCompact;
  }

  lemma ObligingNow(conn: Connection)
    ensures Obliging(conn) ==> !conn.refuses(conn.checkpoints)
    ensures (forall n :: !conn.refuses(n)) ==> Obliging(conn)
  {
  }

  lemma CommandKinds(c: Command)
    ensures Regular(c) <==> !c.TakeSnapshot? && !c.Compact?
  {
  }

  lemma KeepsItself(ledger: Ledger)
    ensures Keeps(ledger, ledger) && Calm(ledger, ledger)
  {
  }

  lemma CalmCount(a: Ledger, b: Ledger)
    ensures Keeps(a, b) ==> Calm(a, b)
    ensures Calm(a, b) ==> a.mixes == b.mixes
  {
  }

  /**
   A run of any length, ended early by the first failure. Readers of the latest backup are never
   taken back as long as no checkpoint is held up and no bare snapshot is taken; they get a state
   of the history at every moment unless a snapshot was put beside segments that do not fit it.
   Restores to any time past keep their meaning too, and without compaction all of them have one.
   */
  method RunAll(mgr: BackupManager, script: seq<Command>) returns (ok: bool)
    requires mgr.Valid()
    modifies mgr, mgr.s3, mgr.live, mgr.host, mgr.readConn
    ensures mgr.Intact() && (ok ==> mgr.Valid())
    ensures ok && old(mgr.hasReadTransaction) ==> mgr.hasReadTransaction
    ensures old(mgr.s3.trace) <= mgr.s3.trace && Extends(old(mgr.live.epochs), mgr.live.epochs)
    ensures old(mgr.host.issued) <= mgr.host.issued && old(mgr.host.clock) <= mgr.host.clock
    ensures old(mgr.points) <= mgr.points && old(mgr.readConn.heldUp) <= mgr.readConn.heldUp
    ensures old(mgr.ledger.mixes) <= mgr.ledger.mixes
    ensures NoSnapshots(script) && mgr.readConn.heldUp == old(mgr.readConn.heldUp) ==>
              Ascending(mgr.points, |old(mgr.points)| - 1)
    ensures NoSnapshots(script) ==> mgr.ledger.mixes == old(mgr.ledger.mixes)
    ensures mgr.ledger.mixes == old(mgr.ledger.mixes) ==>
              && Placed(mgr.points, |old(mgr.points)| - 1)
              && AllShown(mgr.cfg, mgr.s3.trace, mgr.live.epochs, mgr.points, |old(mgr.s3.trace)| - 1)
    ensures AllRegularCommands(script) ==> Keeps(old(mgr.ledger), mgr.ledger)
    ensures AllRegularCommands(script) && AllRegular(old(mgr.ledger)) ==>
              forall timestampMs :: TimeShown(mgr.cfg, mgr.s3.objects, mgr.live.epochs, timestampMs)
    ensures AllAdding(script) ==> Onward(mgr.cfg, old(mgr.Moment()), mgr.Moment())
    // A run gets to its end unless a store call fails, an encoder refuses its input or a checkpoint is refused.
    ensures old(mgr.s3.failures) <= mgr.s3.failures
    ensures mgr.s3.failures == old(mgr.s3.failures) && Able(mgr.cfg) && Obliging(mgr.readConn) ==> ok
    ensures if mgr.generation == old(mgr.generation) then mgr.manifest.createdAtMs == old(mgr.manifest.createdAtMs)
            else mgr.generation !in old(mgr.host.issued) && old(mgr.host.clock) <= mgr.manifest.createdAtMs
    ensures ok && script != [] && script[|script| - 1].Checkpoint? ==>
              mgr.generation !in old(mgr.host.issued) && mgr.shipped == []
  {
    hide *;
    ok := true;
    ghost var m0 := mgr.Standing();
    ghost var e0, p0 := mgr.live.epochs, mgr.points;
    var _ := mgr.CurrentPosition();
    ExtendsReflexive(e0);
    AscendingStart(p0);
    AscendingIsPlaced(p0, |p0| - 1);
    OnwardStill(mgr.cfg, m0);
    KeepsItself(mgr.ledger);
    var i := 0;
    while i < |script| && ok
      invariant 0 <= i <= |script|
      invariant mgr.Intact() && (ok ==> mgr.Valid())
      invariant ok && old(mgr.hasReadTransaction) ==> mgr.hasReadTransaction
      invariant old(mgr.s3.trace) <= mgr.s3.trace && Extends(e0, mgr.live.epochs)
      invariant old(mgr.host.issued) <= mgr.host.issued && old(mgr.host.clock) <= mgr.host.clock
      invariant p0 <= mgr.points && old(mgr.readConn.heldUp) <= mgr.readConn.heldUp
      invariant old(mgr.ledger.mixes) <= mgr.ledger.mixes
      invariant NoSnapshots(script) && mgr.readConn.heldUp == old(mgr.readConn.heldUp) ==>
                  Ascending(mgr.points, |p0| - 1)
      invariant NoSnapshots(script) ==> mgr.ledger.mixes == old(mgr.ledger.mixes)
      invariant mgr.ledger.mixes == old(mgr.ledger.mixes) ==> Placed(mgr.points, |p0| - 1)
      invariant AllRegularCommands(script) ==> Keeps(m0.ledger, mgr.ledger)
      invariant AllAdding(script) ==> Onward(mgr.cfg, m0, mgr.Moment())
      invariant old(mgr.s3.failures) <= mgr.s3.failures
      invariant mgr.s3.failures == old(mgr.s3.failures) && Able(mgr.cfg) && Obliging(mgr.readConn) ==> ok
      invariant ok && i > 0 && script[i - 1].Checkpoint? ==>
                  mgr.generation !in old(mgr.host.issued) && mgr.shipped == []
      invariant old(mgr.generation) in old(mgr.host.issued)
      invariant if mgr.generation == old(mgr.generation) then
                  mgr.manifest.createdAtMs == old(mgr.manifest.createdAtMs)
                else mgr.generation !in old(mgr.host.issued) && old(mgr.host.clock) <= mgr.manifest.createdAtMs
      decreases |script| - i
    {
      ghost var e, p, held, mixes := mgr.live.epochs, mgr.points, mgr.readConn.heldUp, mgr.ledger.mixes;
      ghost var m := mgr.Standing();
      var last := mgr.CurrentPosition();
      OfScript(script, i);
      ok := Execute(mgr, script[i]);
      ExtendsTransitive(e0, e, mgr.live.epochs);
      if NoSnapshots(script) && mgr.readConn.heldUp == old(mgr.readConn.heldUp) {
        AscendingOn(p0, p, mgr.points);
      }
      if mgr.ledger.mixes == old(mgr.ledger.mixes) {
        PlacedOn(p0, p, mgr.points);
      }
      if AllRegularCommands(script) {
        KeepsTransitive(m0.ledger, m.ledger, mgr.ledger);
      }
      if AllAdding(script) {
        OnwardOn(mgr.cfg, m0, m, mgr.Moment());
      }
      i := i + 1;
    }
    if mgr.ledger.mixes == old(mgr.ledger.mixes) {
      PlacedIsShown(mgr, |p0| - 1);
    }
    if AllRegularCommands(script) && AllRegular(m0.ledger) {
      KeepsRegular(m0.ledger, mgr.ledger);
      AllTimesShown(mgr);
    }
  }

  lemma OfScript(script: seq<Command>, i: nat)
    requires i < |script|
    ensures NoSnapshots(script) ==> !script[i].TakeSnapshot?
    ensures AllRegularCommands(script) ==> Regular(script[i])
    ensures AllAdding(script) ==> Regular(script[i]) && !script[i].Retention?
  {
  }

  /** From index `from` on, every durable state restores to the position recorded for it, and none lies. */
  ghost predicate AllShown(cfg: BackupConfig, trace: seq<Objects>, epochs: seq<Epoch>, places: Places, from: int)
  {
    && |places| == |trace|
    && forall t :: 0 <= t < |trace| && from <= t ==> places[t].Some? && Shows(cfg, trace[t], epochs, places[t].value)
  }

  lemma PlacedIsShown(mgr: BackupManager, from: int)
    requires mgr.Intact() && Placed(mgr.points, from)
    ensures AllShown(mgr.cfg, mgr.s3.trace, mgr.live.epochs, mgr.points, from)
  {
    hide Shows, Sound, Registered, LiveDatabase.Valid, S3Client.Valid, Lawful, Accounted;
  }

  lemma AllTimesShown(mgr: BackupManager)
    requires mgr.Intact() && AllRegular(mgr.ledger)
    ensures forall timestampMs :: TimeShown(mgr.cfg, mgr.s3.objects, mgr.live.epochs, timestampMs)
  {
    hide Tracked, Sound, Registered, LiveDatabase.Valid, S3Client.Valid, Lawful, Accounted, TimeShown;
    EveryTimeShown(mgr.cfg, mgr.s3.objects, mgr.host.issued, mgr.live.epochs, mgr.ledger);
  }

  /**
   From an empty bucket and a database file without a WAL, with no hypothesis about the store: a
   manager is started and runs through the script. `first` is the durable state in which the store
   stood when it had started; `fate` and `refuses` say what will become of store calls and checkpoints.
   */
  method FromScratch(cfg: BackupConfig, file: Bytes, prefix: string, now: nat, script: seq<Command>,
                     fate: nat -> Outcome, refuses: nat -> bool)
    returns (r: Result<BackupManager>, ok: bool, ghost first: nat)
    requires Lawful(cfg) && Carries(cfg, file)
    ensures r.Ok? ==> r.value.cfg == cfg && r.value.Intact() && (ok ==> r.value.Valid() && r.value.hasReadTransaction)
    ensures r.Ok? ==> first < |r.value.s3.trace| && |r.value.points| == |r.value.s3.trace|
    ensures r.Ok? && NoSnapshots(script) && r.value.readConn.heldUp == 0 ==> Ascending(r.value.points, first)
    ensures r.Ok? && (NoSnapshots(script) || r.value.ledger.mixes == 0) ==>
              AllShown(cfg, r.value.s3.trace, r.value.live.epochs, r.value.points, first)
    ensures r.Ok? && AllRegularCommands(script) ==>
              forall timestampMs :: TimeShown(cfg, r.value.s3.objects, r.value.live.epochs, timestampMs)
    // In a world in which nothing fails, nothing does.
    ensures Able(cfg) && (forall n :: fate(n).Done?) && (forall n :: !refuses(n)) ==> r.Ok? && ok
  {
    hide *;
    ok, first := true, 0;
    var s3 := new S3Client(prefix, map[], fate);
    var live := new LiveDatabase(cfg, file);
    var host := new Host(now);
    var conn := new Connection(refuses);
    ObligingNow(conn);
    ghost var past, places, known := Ledger(map[], {}, 0), [None], Ledger(map[], {}, 0);
    NothingStored(cfg, s3, live, host);
    ghost var m0 := Past.Moment(s3.objects, past, host.clock);
    r, known, places := BackupManager.New(cfg, s3, live, host, conn, past, places);
    NothingFailed(cfg, s3, live, host, known, places);
    if r.Err? {
      return;
    }
    var mgr := r.value;
    var _ := mgr.CurrentPosition();
    OnwardKeeps(cfg, m0, Past.Moment(s3.objects, known, host.clock));
    CalmCount(past, known);
    KeepsRegular(past, known);
    first := |mgr.s3.trace| - 1;
    ok := RunAll(mgr, script);
    CalmCount(known, mgr.ledger);
    mgr.PointsTraced();
    IntactIsResumable(mgr);
    NothingFailed(cfg, s3, live, host, mgr.ledger, mgr.points);
  }

  lemma NothingFailed(cfg: BackupConfig, s3: S3Client, live: LiveDatabase, host: Host, ledger: Ledger, places: Places)
    requires Resumable(cfg, s3, live, host, ledger, places)
    ensures (forall n :: s3.fate(n).Done?) ==> s3.failures == 0
  {
    hide Tracked, Sound, Registered, LiveDatabase.Valid, S3Client.Valid, Lawful, Accounted;
    if forall n :: s3.fate(n).Done? {
      s3.Unfailing();
    }
  }

  // ---------- one manager after the other ----------

  /** All scripts are free of bare snapshots; or regular; or only add. */
  predicate LivesWithoutSnapshots(lives: seq<seq<Command>>)
  {
    forall i :: 0 <= i < |lives| ==> NoSnapshots(lives[i])
  }

  predicate RegularLives(lives: seq<seq<Command>>)
  {
    forall i :: 0 <= i < |lives| ==> AllRegularCommands(lives[i])
  }

  predicate AddingLives(lives: seq<seq<Command>>)
  {
    forall i :: 0 <= i < |lives| ==> AllAdding(lives[i])
  }

  lemma OfLives(lives: seq<seq<Command>>, i: nat)
    requires i < |lives|
    ensures LivesWithoutSnapshots(lives) ==> NoSnapshots(lives[i])
    ensures RegularLives(lives) ==> AllRegularCommands(lives[i])
    ensures AddingLives(lives) ==> AllAdding(lives[i])
  {
  }

  /**
   Any number of lives: a manager starts on what the one before left behind, wherever that one
   failed, and runs through its script. The database runs on in between. Once a durable state
   could be restored, it and all later ones, of every life, restore to databases of the history.
   */
  method RunLives(cfg: BackupConfig, s3: S3Client, live: LiveDatabase, host: Host, lives: seq<seq<Command>>,
                  refusals: nat -> nat -> bool, ghost past: Ledger, ghost places: Places)
    returns (ghost known: Ledger, ghost shown: Places)
    requires Resumable(cfg, s3, live, host, past, places) && Unbroken(places) && Honest(cfg, s3.trace, places)
    modifies s3, live, host
    ensures Resumable(cfg, s3, live, host, known, shown)
    ensures old(s3.trace) <= s3.trace && Extends(old(live.epochs), live.epochs)
    ensures LivesWithoutSnapshots(lives) ==> AlwaysShown(cfg, s3.trace, live.epochs)
    ensures RegularLives(lives) ==> Keeps(past, known)
    ensures RegularLives(lives) && AllRegular(past) ==>
              forall timestampMs :: TimeShown(cfg, s3.objects, live.epochs, timestampMs)
    ensures AddingLives(lives) ==>
              Onward(cfg, old(Past.Moment(s3.objects, past, host.clock)), Past.Moment(s3.objects, known, host.clock))
  {
    hide *;
    known, shown := past, places;
    ghost var e0, m0 := live.epochs, Past.Moment(s3.objects, past, host.clock);
    ExtendsReflexive(e0);
    KeepsItself(past);
    OnwardStill(cfg, m0);
    for i := 0 to |lives|
      invariant Resumable(cfg, s3, live, host, known, shown)
      invariant old(s3.trace) <= s3.trace && Extends(e0, live.epochs)
      invariant LivesWithoutSnapshots(lives) ==> Unbroken(shown) && Honest(cfg, s3.trace, shown)
      invariant RegularLives(lives) ==> Keeps(past, known)
      invariant AddingLives(lives) ==> Onward(cfg, m0, Past.Moment(s3.objects, known, host.clock))
    {
      ghost var e, m, l := live.epochs, Past.Moment(s3.objects, known, host.clock), known;
      OfLives(lives, i);
      known, shown := RunLife(cfg, s3, live, host, lives[i], refusals(i), known, shown);
      ExtendsTransitive(e0, e, live.epochs);
      if RegularLives(lives) {
        KeepsTransitive(past, l, known);
      }
      if AddingLives(lives) {
        OnwardOn(cfg, m0, m, Past.Moment(s3.objects, known, host.clock));
      }
    }
    if LivesWithoutSnapshots(lives) {
      ResumableIs(cfg, s3, live, host, known, shown);
      HonestShows(cfg, s3.trace, live.epochs, shown);
    }
    if RegularLives(lives) && AllRegular(past) {
      KeepsRegular(past, known);
      ResumableTimes(cfg, s3, live, host, known, shown);
    }
  }

  /** One life: start, run, and be gone. */
  method RunLife(cfg: BackupConfig, s3: S3Client, live: LiveDatabase, host: Host, script: seq<Command>,
                 refuses: nat -> bool, ghost past: Ledger, ghost places: Places)
    returns (ghost known: Ledger, ghost shown: Places)
    requires Resumable(cfg, s3, live, host, past, places)
    modifies s3, live, host
    ensures Resumable(cfg, s3, live, host, known, shown)
    ensures old(s3.trace) <= s3.trace && Extends(old(live.epochs), live.epochs)
    ensures NoSnapshots(script) && Unbroken(places) && old(Honest(cfg, s3.trace, places)) ==>
              Unbroken(shown) && Honest(cfg, s3.trace, shown)
    ensures AllRegularCommands(script) ==> Keeps(past, known)
    ensures AllAdding(script) ==>
              Onward(cfg, old(Past.Moment(s3.objects, past, host.clock)), Past.Moment(s3.objects, known, host.clock))
  {
    hide *;
    ghost var e0, m0, tr0 := live.epochs, Past.Moment(s3.objects, past, host.clock), s3.trace;
    ResumableIs(cfg, s3, live, host, past, places);
    ApplicationAlone(cfg, s3, live, host, past, places);
    ghost var e1 := live.epochs;
    var conn := new Connection(refuses);
    var r;
    r, known, shown := BackupManager.New(cfg, s3, live, host, conn, past, places);
    ghost var e2, m2, tr2 := live.epochs, Past.Moment(s3.objects, known, host.clock), s3.trace;
    ExtendsTransitive(e0, e1, e2);
    OnwardKeeps(cfg, m0, m2);
    if Honest(cfg, tr0, places) {
      HonestOn(cfg, tr0, places, tr2, shown);
    }
    if r.Ok? {
      var mgr := r.value;
      var _ := mgr.CurrentPosition();
      ghost var m3 := mgr.Standing();
      var _ := RunAll(mgr, script);
      ghost var m4 := mgr.Standing();
      mgr.PointsTraced();
      ExtendsTransitive(e0, e2, live.epochs);
      if NoSnapshots(script) && Unbroken(places) && Honest(cfg, tr0, places) {
        PlacedUnbroken(shown, mgr.points);
        HonestPlaced(cfg, tr2, shown, s3.trace, mgr.points);
      }
      if AllRegularCommands(script) {
        KeepsTransitive(past, known, mgr.ledger);
      }
      if AllAdding(script) {
        OnwardOn(cfg, m0, m3, m4);
      }
      known, shown := mgr.ledger, mgr.points;
      IntactIsResumable(mgr);
    }
  }

  lemma IntactIsResumable(mgr: BackupManager)
    requires mgr.Intact()
    ensures Resumable(mgr.cfg, mgr.s3, mgr.live, mgr.host, mgr.ledger, mgr.points)
  {
  }

  lemma ResumableTimes(cfg: BackupConfig, s3: S3Client, live: LiveDatabase, host: Host, ledger: Ledger, places: Places)
    requires Resumable(cfg, s3, live, host, ledger, places) && AllRegular(ledger)
    ensures forall timestampMs :: TimeShown(cfg, s3.objects, live.epochs, timestampMs)
  {
    hide Tracked, Sound, Registered, LiveDatabase.Valid, S3Client.Valid, Lawful, Accounted, TimeShown;
    EveryTimeShown(cfg, s3.objects, host.issued, live.epochs, ledger);
  }

  /**
   From an empty bucket and a database file without a WAL, with no hypothesis about the store:
   once a durable state can be restored all later ones restore to a database of the history, and
   so do restores to any time.
   */
  method LivesFromScratch(cfg: BackupConfig, file: Bytes, prefix: string, now: nat, lives: seq<seq<Command>>,
                          fate: nat -> Outcome, refusals: nat -> nat -> bool)
    returns (s3: S3Client, live: LiveDatabase)
    requires Lawful(cfg) && Carries(cfg, file)
    ensures s3.Valid() && live.Valid()
    ensures LivesWithoutSnapshots(lives) ==> AlwaysShown(cfg, s3.trace, live.epochs)
    ensures RegularLives(lives) ==> forall timestampMs :: TimeShown(cfg, s3.objects, live.epochs, timestampMs)
  {
    hide *;
    s3 := new S3Client(prefix, map[], fate);
    live := new LiveDatabase(cfg, file);
    var host := new Host(now);
    ghost var past, places := Ledger(map[], {}, 0), [None];
    NothingStored(cfg, s3, live, host);
    ghost var known, shown := RunLives(cfg, s3, live, host, lives, refusals, past, places);
    ResumableIs(cfg, s3, live, host, known, shown);
  }

  lemma ResumableIs(cfg: BackupConfig, s3: S3Client, live: LiveDatabase, host: Host, ledger: Ledger, places: Places)
    requires Resumable(cfg, s3, live, host, ledger, places)
    ensures s3.Valid() && live.Valid() && Tracked(cfg, s3.trace, live.epochs, places)
    ensures s3.trace != [] && s3.trace[|s3.trace| - 1] == s3.objects && |places| == |s3.trace|
  {
  }

  /** An empty bucket is a store that a manager can start on. */
  lemma NothingStored(cfg: BackupConfig, s3: S3Client, live: LiveDatabase, host: Host)
    requires s3.Valid() && s3.bucket == map[] && s3.trace == [s3.objects] && host.issued == {}
    requires live.Valid() && live.cfg == cfg && Lawful(cfg)
    ensures Resumable(cfg, s3, live, host, Ledger(map[], {}, 0), [None]) && Unbroken([None])
    ensures AllRegular(Ledger(map[], {}, 0))
    ensures Honest(cfg, s3.trace, [None])
  {
    hide Lawful, LiveDatabase.Valid;
    forall k
      ensures k !in s3.objects
    {
      assert FullKey(s3.prefix, k) !in s3.bucket;
    }
  }

  // ---------- backup and restore together ----------

  /**
   After a sync that shipped something, the files restored under any configuration with the same
   key open to what the application saw when the sync read the WAL.
   */
  method SyncThenRestore(mgr: BackupManager, dec: BackupConfig) returns (synced: Result<bool>, files: Result<Files>)
    requires mgr.Valid() && SameReading(mgr.cfg, dec)
    modifies mgr, mgr.s3, mgr.live, mgr.host, mgr.readConn
    ensures synced == Ok(true) ==> files.Ok? && Open(dec, files.value) == old(mgr.live.Content())
    ensures old(mgr.SameEpoch()) && synced.Ok? ==> synced.value == old(mgr.Unshipped())
    ensures mgr.s3.failures == old(mgr.s3.failures) && Able(mgr.cfg) ==> synced.Ok?
  {
    hide *;
    mgr.SyncFacts();
    synced := mgr.SyncWal();
    StoreIsValid(mgr);
    files := RestoreFiles(dec, mgr.s3, None);
    RestoreIgnoresAlgorithm(mgr.cfg, dec, mgr.s3.objects, 0);
    if files.Ok? {
      OpenIgnoresAlgorithm(mgr.cfg, dec, files.value);
    }
  }

  /**
   A restore to a time past gives what a restore of the latest backup gave at that time: the files
   as they were then, whatever has been synced, checkpointed, recovered or crashed since.
   */
  method RestoreAsOf(mgr: BackupManager, timestampMs: nat, script: seq<Command>, dec: BackupConfig)
    returns (files: Result<Files>)
    requires mgr.Valid() && SameReading(mgr.cfg, dec) && AllAdding(script) && mgr.host.clock <= timestampMs
    requires forall g :: NoSlash(g) && g != mgr.generation && ManifestAt(mgr.cfg, mgr.s3.objects, g).Some? ==>
               ManifestAt(mgr.cfg, mgr.s3.objects, g).value.snapshotTimestampMs < mgr.manifest.snapshotTimestampMs
    modifies mgr, mgr.s3, mgr.live, mgr.host, mgr.readConn
    ensures files == old(RestoreLatest(mgr.cfg, mgr.s3.objects)) && files.Ok?
    ensures Open(dec, files.value) == old(StateAt(mgr.live.epochs, mgr.Position()))
  {
    hide *;
    PositionReached(mgr);
    mgr.PresentIsLatest(timestampMs);
    mgr.Idle(timestampMs);
    ghost var m0 := mgr.Standing();
    var _ := RunAll(mgr, script);
    ghost var m1 := mgr.Standing();
    StoreIsValid(mgr);
    files := RestoreFiles(dec, mgr.s3, Some(timestampMs));
    RestoreIgnoresAlgorithm(mgr.cfg, dec, mgr.s3.objects, timestampMs);
    OnwardAt(mgr.cfg, m0, m1, timestampMs);
    OpenIgnoresAlgorithm(mgr.cfg, dec, files.value);
  }

  lemma OnwardAt(cfg: BackupConfig, a: Past.Moment, b: Past.Moment, timestampMs: nat)
    requires Onward(cfg, a, b) && timestampMs < a.clock && RestorePitr(cfg, a.objects, timestampMs).Ok?
    ensures RestorePitr(cfg, b.objects, timestampMs) == RestorePitr(cfg, a.objects, timestampMs)
  {
    hide RestorePitr;
    assert SameAt(cfg, a.objects, b.objects, timestampMs);
  }

  lemma PositionReached(mgr: BackupManager)
    requires mgr.Valid()
    ensures Reached(mgr.live.epochs, mgr.Position())
  {
    hide Tracked, Sound, Registered, LiveDatabase.Valid, S3Client.Valid, Lawful, Accounted;
    BelongsShows(mgr.cfg, mgr.live.epochs, mgr.epoch, mgr.snapshot, mgr.snapFrames, mgr.shipped);
  }

  lemma StoreIsValid(mgr: BackupManager)
    requires mgr.Intact()
    ensures mgr.s3.Valid()
  {
  }

  lemma OpenIgnoresAlgorithm(a: BackupConfig, b: BackupConfig, files: Files)
    requires SameReading(a, b)
    ensures Open(a, files) == Open(b, files)
  {
  }
}
