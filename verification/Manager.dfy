/** The backup manager (src/manager.rs): uploads, snapshots, syncs, recovery and checkpoints. */
module Manager {
  import opened Wrappers
  import opened Wal
  import opened Replay
  import opened Manifest
  import opened Config
  import opened Pipeline
  import opened Keys
  import opened S3
  import opened Durable
  import opened History
  import opened Live
  import opened Tracking
  import opened Steps
  import opened Ledger
  import opened Past
  import opened Restore
  import opened PointInTime
  import opened Compaction
  import opened Retention

  datatype CompactionResult = CompactionResult(segmentsBefore: nat, segmentsAfter: nat)

  /** A store, a database and a clock on which a manager can start, or start again. */
  ghost predicate Resumable(cfg: BackupConfig, s3: S3Client, live: LiveDatabase, host: Host, ledger: Ledger,
                            places: Places)
    reads s3, live, host`issued
  {
    && s3.Valid() && live.Valid() && live.cfg == cfg && Lawful(cfg)
    && Registered(cfg, s3.objects, host.issued) && Sound(cfg, s3.objects)
    && Tracked(cfg, s3.trace, live.epochs, places) && Accounted(cfg, s3.objects, live.epochs, ledger)
  }

  /** The application runs while there is no manager. */
  method ApplicationAlone(cfg: BackupConfig, s3: S3Client, live: LiveDatabase, host: Host, ghost ledger: Ledger,
                          ghost places: Places)
    requires Resumable(cfg, s3, live, host, ledger, places)
    modifies live
    ensures Resumable(cfg, s3, live, host, ledger, places) && Extends(old(live.epochs), live.epochs)
  {
    hide Sound, Registered, LawfulCodecs, LawfulFormats, S3Client.Valid, LiveDatabase.Valid, Extends, Accounted,
      Tracked;
    live.Interfere(true);
    TrackedStable(cfg, s3.trace, old(live.epochs), live.epochs, places);
    AccountedStable(cfg, s3.objects, old(live.epochs), live.epochs, ledger);
  }

  /** From number `from` on, every durable state restores to the one or the other. */
  ghost predicate TraceRestores(cfg: BackupConfig, trace: seq<Objects>, from: nat, a: Result<Files>, b: Result<Files>)
  {
    forall t :: from <= t < |trace| ==> RestoreLatest(cfg, trace[t]) == a || RestoreLatest(cfg, trace[t]) == b
  }

  class BackupManager {
    const cfg: BackupConfig
    const s3: S3Client
    const live: LiveDatabase
    const host: Host
    const readConn: Connection
    var generation: string
    /** Byte offset in the WAL up to which we have synced. */
    var walOffset: nat
    /** Index of the next WAL segment. */
    var walIndex: nat
    /** Salt captured on first read. */
    var walHeaderSalt: Option<Bytes>
    var manifest: GenerationManifest
    var hasReadTransaction: bool
    var shutdownComplete: bool

    /** The epoch being shipped, the snapshot taken in it and the WAL bytes shipped since. */
    ghost var epoch: nat
    ghost var snapshot: Bytes
    ghost var snapFrames: nat
    ghost var shipped: Bytes
    /** The current segment list is the work of a compaction, which cuts anywhere. */
    ghost var compacted: bool
    /** For each durable state of the store, the position it restores to, if known. */
    ghost var points: Places
    /** What is remembered about the generations in the store. */
    ghost var ledger: Ledger

    /** What holds at every moment, also after an operation that failed half-way. */
    ghost predicate Intact()
      reads this`points, this`ledger, this`hasReadTransaction, s3, live, host`issued, readConn`inTransaction
    {
      && s3.Valid() && live.Valid() && live.cfg == cfg && Lawful(cfg)
      && Registered(cfg, s3.objects, host.issued) && Sound(cfg, s3.objects)
      && Tracked(cfg, s3.trace, live.epochs, points)
      && Accounted(cfg, s3.objects, live.epochs, ledger)
      && readConn.inTransaction == hasReadTransaction
    }

    /** The bookkeeping agrees with the store and with the live database. */
    ghost predicate Valid()
      reads this, s3, live, host, readConn`inTransaction
    {
      && Intact()
      && NoSlash(generation) && generation in host.issued && manifest.generation == generation
      && Published(cfg, s3.objects, generation, manifest, snapshot, shipped)
      && IndicesBelow(manifest.segments, walIndex) && TimesUpTo(manifest.segments, host.clock)
      && manifest.snapshotTimestampMs <= host.clock
      && |shipped| == walOffset && (!compacted ==> AlignedCuts(manifest.segments, shipped, snapFrames))
      && Following(cfg, live.epochs, epoch, snapshot, snapFrames, shipped, walHeaderSalt)
      && LastOf(points) == Some(Position())
      && Entered()
    }

    ghost function Position(): (p: Point)
      reads this`epoch, this`snapFrames, this`shipped
    {
      Here(epoch, snapFrames, shipped)
    }

    /** The current generation's record. */
    ghost function Mine(): (rec: Record)
      reads this`epoch, this`snapshot, this`snapFrames, this`shipped, this`compacted
    {
      Record(epoch, snapshot, snapFrames, shipped, !compacted)
    }

    ghost predicate Entered()
      reads this`ledger, this`generation, this`epoch, this`snapshot, this`snapFrames, this`shipped, this`compacted
    {
      generation in ledger.records && ledger.records[generation] == Mine()
    }

    ghost function Moment(): (m: Moment)
      reads s3`objects, this`ledger, host`clock
    {
      Past.Moment(s3.objects, ledger, host.clock)
    }

    /** The live WAL is still the one being followed. */
    ghost predicate SameEpoch()
      reads this, live
    {
      epoch == |live.epochs| - 1
    }

    /** The store as it was left shows the last position tracked. */
    lemma LastShown()
      requires Intact()
      ensures Fits(cfg, s3.objects, live.epochs, LastOf(points))
    {
      hide Shows, Sound, Registered, LiveDatabase.Valid, Lawful, Accounted;
      assert s3.trace[|s3.trace| - 1] == s3.objects;
    }

    constructor (cfg: BackupConfig, s3: S3Client, live: LiveDatabase, host: Host, readConn: Connection,
                 generation: string, nowMs: nat, ghost past: Ledger, ghost places: Places)
      ensures this.cfg == cfg && this.s3 == s3 && this.live == live && this.host == host && this.readConn == readConn
      ensures this.generation == generation && manifest == NewManifest(generation, nowMs)
      ensures hasReadTransaction && !shutdownComplete && points == places && ledger == past
      ensures walOffset == 0 && walIndex == 0 && walHeaderSalt.None?
    {
      this.cfg, this.s3, this.live, this.host, this.readConn := cfg, s3, live, host, readConn;
      this.generation := generation;
      walOffset, walIndex, walHeaderSalt := 0, 0, None;
      manifest := NewManifest(generation, nowMs);
      hasReadTransaction, shutdownComplete := true, false;
      epoch, snapshot, snapFrames, shipped, compacted := 0, [], 0, [], false;
      points, ledger := places, past;
    }

    /** The key is the generation's own, or the marker with bytes that name the generation. */
    ghost predicate MayPut(key: string, data: Bytes)
      reads this
    {
      && NoSlash(generation)
      && (OwnKey(generation, key) || (key == LATEST && cfg.formats.fromUtf8(data) == Some(generation)))
    }

    lemma PutKeepsRegistered(key: string, data: Bytes)
      requires MayPut(key, data) && generation in host.issued
      requires Registered(cfg, s3.objects, host.issued)
      ensures Registered(cfg, s3.objects[key := data], host.issued)
    {
      if OwnKey(generation, key) {
        RegisteredPut(cfg, s3.objects, host.issued, generation, key, data);
      } else {
        RegisteredMarker(cfg, s3.objects, host.issued, generation, data);
      }
    }

    /**
     One upload. With it in effect the store shows the position `move`, if any, and is as `next`
     records it; otherwise nothing has changed.
     */
    method Put(key: string, data: Bytes, ghost move: Option<Point>, ghost next: Ledger) returns (ok: bool)
      requires Intact() && MayPut(key, data) && generation in host.issued
      requires Fits(cfg, s3.objects[key := data], live.epochs, move)
      requires Accounted(cfg, s3.objects[key := data], live.epochs, next)
      modifies s3, this`points, this`ledger
      ensures Intact() && s3.trace == old(s3.trace) + [s3.objects]
      ensures s3.objects == old(s3.objects)[key := data] || (!ok && s3.objects == old(s3.objects))
      ensures points == old(points) + [if ok || s3.objects != old(s3.objects) then move else LastOf(old(points))]
      ensures ledger == if ok || s3.objects != old(s3.objects) then next else old(ledger)
      ensures s3.failures == old(s3.failures) + if ok then 0 else 1
    {
      hide Sound, Shows, Tracked, Registered, LawfulCodecs, LawfulFormats, S3Client.Valid, LiveDatabase.Valid, MayPut,
        FullKey, Accounted;
      LastShown();
      PutKeepsRegistered(key, data);
      ok := s3.PutObject(key, data);
      ghost var p := if ok || s3.objects != old(s3.objects) then move else LastOf(points);
      TrackedAppend(cfg, old(s3.trace), live.epochs, points, s3.objects, p);
      points := points + [p];
      ledger := if ok || s3.objects != old(s3.objects) then next else ledger;
    }

    /** One upload, while the application goes on running. */
    method Upload(key: string, data: Bytes, mayReset: bool, ghost move: Option<Point>, ghost next: Ledger)
      returns (ok: bool)
      requires Intact() && MayPut(key, data) && generation in host.issued
      requires Fits(cfg, s3.objects[key := data], live.epochs, move)
      requires Accounted(cfg, s3.objects[key := data], live.epochs, next)
      modifies s3, live, this`points, this`ledger
      ensures Intact() && s3.trace == old(s3.trace) + [s3.objects]
      ensures s3.objects == old(s3.objects)[key := data] || (!ok && s3.objects == old(s3.objects))
      ensures Extends(old(live.epochs), live.epochs)
      ensures !mayReset ==> |live.epochs| == |old(live.epochs)|
      ensures points == old(points) + [if ok || s3.objects != old(s3.objects) then move else LastOf(old(points))]
      ensures ledger == if ok || s3.objects != old(s3.objects) then next else old(ledger)
      ensures s3.failures == old(s3.failures) + if ok then 0 else 1
    {
      hide Sound, Shows, Tracked, Registered, LawfulCodecs, LawfulFormats, S3Client.Valid, LiveDatabase.Valid, MayPut,
        Accounted, Fits;
      ok := Put(key, data, move, next);
      Meanwhile(mayReset);
    }

    /** The application runs on; what the store shows stays what it was. */
    method Meanwhile(mayReset: bool)
      requires Intact()
      modifies live
      ensures Intact() && Extends(old(live.epochs), live.epochs)
      ensures !mayReset ==> |live.epochs| == |old(live.epochs)|
    {
      hide Sound, Shows, Tracked, Registered, LawfulCodecs, LawfulFormats, S3Client.Valid, LiveDatabase.Valid, Extends,
        Accounted;
      live.Interfere(mayReset);
      HistoryGrows(old(live.epochs));
    }

    /** What is known about the store is about the past of the history, and stays true. */
    lemma HistoryGrows(before: seq<Epoch>)
      requires Tracked(cfg, s3.trace, before, points) && Accounted(cfg, s3.objects, before, ledger)
      requires Extends(before, live.epochs)
      ensures Tracked(cfg, s3.trace, live.epochs, points) && Accounted(cfg, s3.objects, live.epochs, ledger)
    {
      TrackedStable(cfg, s3.trace, before, live.epochs, points);
      AccountedStable(cfg, s3.objects, before, live.epochs, ledger);
    }

    /** Compress, then encrypt with a fresh salt and nonce. */
    method PipelineEncode(data: Bytes) returns (r: Result<Bytes>)
      requires Lawful(cfg)
      ensures r.Ok? && Carries(cfg, data) ==> Decode(cfg, r.value) == Ok(data)
      ensures r.Err? ==> !Able(cfg)
    {
      var salt := host.FillBytes(SALT_LEN);
      var nonce := host.FillBytes(NONCE_LEN);
      r := Encode(cfg, data, salt, nonce);
      if Carries(cfg, data) {
        RoundTrip(cfg, cfg, data, salt, nonce);
      }
    }

    method EncodeManifest() returns (r: Result<Bytes>)
      requires Lawful(cfg)
      ensures r.Ok? ==> DecodeManifest(cfg, r.value) == Some(manifest)
      ensures r.Err? ==> !Able(cfg)
    {
      var json := cfg.formats.toJson(manifest);
      assert |json| >= MAGIC_LEN ==> json[..MAGIC_LEN][0] == json[0] == '{' as int;
      r := PipelineEncode(json);
    }

    /** What the ledger says of the generation once it holds `data`. */
    ghost function With(data: Bytes): (next: Ledger)
      reads this`ledger, this`generation, this`epoch, this`snapshot, this`snapFrames, this`compacted
    {
      Enter(ledger, generation, Record(epoch, snapshot, snapFrames, data, !compacted))
    }

    /** All that uploading the manifest takes and gives; `after` is the store with it. */
    lemma ManifestFits(data: Bytes, encoded: Bytes, present: nat)
      requires Intact() && NoSlash(generation) && generation in host.issued && manifest.generation == generation
      requires LatestGeneration(cfg, s3.objects) == Ok(generation)
      requires DecodeAt(cfg, s3.objects, SnapshotKey(generation)) == Ok(snapshot)
      requires Holds(cfg, s3.objects, generation, manifest.segments, data)
      requires TimesUpTo(manifest.segments, host.clock)
      requires (!compacted ==> AlignedCuts(manifest.segments, data, snapFrames))
      requires Belongs(cfg, live.epochs, epoch, snapshot, snapFrames, data)
      requires present == 0 || Continues(cfg, s3.objects, manifest, present)
      requires DecodeManifest(cfg, encoded) == Some(manifest)
      ensures var after := s3.objects[ManifestKey(generation) := encoded];
              && Published(cfg, after, generation, manifest, snapshot, data)
              && Fits(cfg, after, live.epochs, Some(Here(epoch, snapFrames, data)))
              && RestoreLatest(cfg, after) == Ok(FilesOf(snapshot, data))
              && SameElsewhere(s3.objects, after, generation)
              && Accounted(cfg, after, live.epochs, With(data))
              && SamePast(cfg, s3.objects, after, present)
      ensures MayPut(ManifestKey(generation), encoded)
    {
      hide Sound, Shows, Tracked, Registered, RestoreLatest, LawfulCodecs, LawfulFormats, S3Client.Valid, Accounted,
        Belongs, LiveDatabase.Valid, Published, Holds, TimesUpTo, LatestGeneration, DecodeAt, AlignedCuts,
        DecodeManifest, NoSlash, SamePast, Continues, SameElsewhere;
      var key := ManifestKey(generation);
      var after := s3.objects[key := encoded];
      ManifestUploaded(cfg, s3.objects, generation, manifest, snapshot, data, host.clock, encoded);
      ShowsPublished(cfg, after, generation, manifest, snapshot, data, live.epochs, epoch, snapFrames);
      PublishedRestores(cfg, after, generation, manifest, snapshot, data);
      assert OwnKey(generation, key);
      PutElsewhere(s3.objects, generation, key, encoded);
      AccountedPublished(cfg, s3.objects, after, live.epochs, ledger, generation, manifest,
        Record(epoch, snapshot, snapFrames, data, !compacted));
      if present == 0 {
        SamePastNever(cfg, s3.objects, after);
      } else {
        PutKeepsRegistered(key, encoded);
        ManifestPast(cfg, s3.objects, host.issued, manifest, encoded, present);
      }
    }

    /**
     Uploads the manifest. Once it is there the generation holds `data`; before, a reader still
     gets what it got. Restores to times before `present` do not change.
     */
    method UploadManifest(mayReset: bool, ghost data: Bytes, ghost present: nat) returns (ok: bool)
      requires Intact() && NoSlash(generation) && generation in host.issued && manifest.generation == generation
      requires LatestGeneration(cfg, s3.objects) == Ok(generation)
      requires DecodeAt(cfg, s3.objects, SnapshotKey(generation)) == Ok(snapshot)
      requires Holds(cfg, s3.objects, generation, manifest.segments, data)
      requires TimesUpTo(manifest.segments, host.clock)
      requires (!compacted ==> AlignedCuts(manifest.segments, data, snapFrames))
      requires Belongs(cfg, live.epochs, epoch, snapshot, snapFrames, data)
      requires present == 0 || Continues(cfg, s3.objects, manifest, present)
      modifies s3, live, this`points, this`ledger
      ensures Intact() && SameElsewhere(old(s3.objects), s3.objects, generation)
      ensures Extends(old(live.epochs), live.epochs)
      ensures !mayReset ==> |live.epochs| == |old(live.epochs)|
      ensures ok ==> Published(cfg, s3.objects, generation, manifest, snapshot, data)
      ensures ok ==> points == old(points) + [Some(Here(epoch, snapFrames, data))]
      ensures || points == old(points)
              || points == old(points) + [LastOf(old(points))]
              || points == old(points) + [Some(Here(epoch, snapFrames, data))]
      ensures s3.trace == old(s3.trace) || s3.trace == old(s3.trace) + [s3.objects]
      ensures s3.objects == old(s3.objects) || RestoreLatest(cfg, s3.objects) == Ok(FilesOf(snapshot, data))
      ensures forall k :: k != ManifestKey(generation) ==> (k in s3.objects <==> k in old(s3.objects))
      ensures ledger == old(With(data)) || (!ok && ledger == old(ledger))
      ensures SamePast(cfg, old(s3.objects), s3.objects, present)
      ensures ok ==> s3.failures == old(s3.failures)
      ensures !ok ==> s3.failures == old(s3.failures) + 1 || (s3.failures == old(s3.failures) && !Able(cfg))
    {
      hide Sound, Shows, Tracked, Registered, RestoreLatest, LawfulCodecs, LawfulFormats, S3Client.Valid, Accounted,
        Belongs, LiveDatabase.Valid, Published, Holds, TimesUpTo, LatestGeneration, DecodeAt, AlignedCuts, NoSlash,
        Fits, MayPut, SamePast, Continues, With, SameElsewhere, Extends;
      PutNothing(s3.objects);
      SamePastReflexive(cfg, s3.objects, present);
      ExtendsReflexive(live.epochs);
      var encoded := EncodeManifest();
      if encoded.Err? {
        return false;
      }
      ManifestFits(data, encoded.value, present);
      ok := Upload(ManifestKey(generation), encoded.value, mayReset, Some(Here(epoch, snapFrames, data)), With(data));
    }

    /** What a reader may get while the files of a generation are being published. */
    ghost predicate RestoresEither(from: nat, a: Result<Files>, b: Result<Files>)
      reads this, s3
    {
      TraceRestores(cfg, s3.trace, from, a, b)
    }

    lemma RestoredSoFar(from: nat, a: Result<Files>, b: Result<Files>)
      requires RestoresEither(from, a, b)
      ensures TraceRestores(cfg, s3.trace, from, a, b)
    {
    }

    /** At most one more state, which restores to the latter or is the last one again. */
    lemma RestoredThen(earlier: seq<Objects>, from: nat, a: Result<Files>, b: Result<Files>)
      requires TraceRestores(cfg, earlier, from, a, b) && from < |earlier|
      requires s3.trace == earlier || s3.trace == earlier + [s3.objects]
      requires s3.objects == earlier[|earlier| - 1] || RestoreLatest(cfg, s3.objects) == b
      ensures RestoresEither(from, a, b)
    {
      hide RestoreLatest;
    }

    /** If nothing changes for a reader up to some moment, and nothing from there on, nothing changes. */
    lemma RestoredOn(earlier: seq<Objects>, from: nat, a: Result<Files>)
      requires TraceRestores(cfg, earlier, from, a, a) && earlier <= s3.trace && RestoresEither(|earlier|, a, a)
      ensures RestoresEither(from, a, a)
    {
      hide RestoreLatest;
      forall t | from <= t < |s3.trace|
        ensures RestoreLatest(cfg, s3.trace[t]) == a
      {
        assert t < |earlier| ==> s3.trace[t] == earlier[t];
      }
    }

    /** One more state, or none. */
    lemma RestoredOnce(earlier: seq<Objects>, a: Result<Files>)
      requires s3.trace == earlier || s3.trace == earlier + [s3.objects]
      requires RestoreLatest(cfg, s3.objects) == a
      ensures TraceRestores(cfg, s3.trace, |earlier|, a, a)
    {
      hide RestoreLatest;
    }

    lemma MarkerText()
      requires LawfulFormats(cfg.formats) && NoSlash(generation)
      ensures MayPut(LATEST, cfg.formats.toUtf8(generation))
    {
    }

    /** The record of the generation with the snapshot at `footing` under the segments shipped so far. */
    ghost function Retaken(raw: Bytes, footing: Point): (rec: Record)
      reads this`shipped
    {
      Record(footing.epoch, raw, footing.frames, shipped, shipped == [])
    }

    method UploadSnapshot(data: Bytes, ghost raw: Bytes, ghost kind: Kind, ghost footing: Point) returns (ok: bool)
      requires Intact() && generation in host.issued && Decode(cfg, data) == Ok(raw)
      requires BeforeSnapshot(cfg, s3.objects, generation, kind, manifest, snapshot, shipped, host.clock)
      requires kind.Tame? ==> Belongs(cfg, live.epochs, footing.epoch, raw, footing.frames, shipped)
      modifies s3, live, this`points, this`ledger
      ensures Intact() && s3.trace == old(s3.trace) + [s3.objects]
      ensures Extends(old(live.epochs), live.epochs) && |live.epochs| == |old(live.epochs)|
      ensures SameElsewhere(old(s3.objects), s3.objects, generation)
      ensures kind.Fresh? ==> RestoreLatest(cfg, s3.objects) == RestoreLatest(cfg, old(s3.objects))
      ensures kind.Fresh? ==> SamePast(cfg, old(s3.objects), s3.objects, host.clock)
      ensures || points == old(points) + [LastOf(old(points))]
              || points == old(points) + [AfterSnapshot(kind, LastOf(old(points)), footing, shipped)]
      ensures ok ==> points == old(points) + [AfterSnapshot(kind, LastOf(old(points)), footing, shipped)]
      ensures kind.Mixed? && ledger == old(ledger) ==> points == old(points) + [LastOf(old(points))]
      ensures || ledger == Snapshotted(kind, old(ledger), generation, Retaken(raw, footing))
              || (!ok && ledger == old(ledger))
      ensures ok ==> BeforeMarker(cfg, s3.objects, generation, kind, manifest, raw, shipped, host.clock)
      ensures s3.failures == old(s3.failures) + if ok then 0 else 1
    {
      hide Sound, Shows, Tracked, Registered, S3Client.Valid, LiveDatabase.Valid, LawfulCodecs, LawfulFormats,
        Accounted, Belongs, RestoreLatest, DecodeAt, Extends, SnapshotKey, NoSlash, Under, BeforeMarker, OwnKey,
        SamePast, SameElsewhere, AfterSnapshot, Snapshotted;
      LastShown();
      ghost var key, p := SnapshotKey(generation), AfterSnapshot(kind, LastOf(points), footing, shipped);
      ghost var before, after := s3.objects, s3.objects[key := data];
      SnapshotFits(cfg, before, live.epochs, LastOf(points), footing, generation, kind, manifest, snapshot, shipped,
        host.clock, data, raw);
      SnapshotAccounted(cfg, before, after, live.epochs, ledger, generation, kind, manifest, Retaken(raw, footing),
        host.clock);
      PutNothing(before);
      SamePastReflexive(cfg, before, host.clock);
      if kind.Fresh? {
        SnapshotPast(data);
      }
      MixesCount(kind, ledger, generation, Retaken(raw, footing));
      ok := Upload(SnapshotKey(generation), data, false, p, Snapshotted(kind, ledger, generation, Retaken(raw,
        footing)));
    }

    /** The first snapshot of a generation concerns no time past. */
    lemma SnapshotPast(data: Bytes)
      requires Intact() && generation in host.issued && Unused(cfg, s3.objects, generation)
      requires Sound(cfg, s3.objects[SnapshotKey(generation) := data])
      ensures SamePast(cfg, s3.objects, s3.objects[SnapshotKey(generation) := data], host.clock)
    {
      hide Sound, Shows, Tracked, Registered, S3Client.Valid, LiveDatabase.Valid, LawfulCodecs, LawfulFormats,
        Accounted, SamePast, MayPut;
      KeyShapes(generation, 0);
      assert OwnKey(generation, SnapshotKey(generation));
      MayPutOwn(SnapshotKey(generation), data);
      PutKeepsRegistered(SnapshotKey(generation), data);
      UnnamedPast(cfg, s3.objects, host.issued, generation, SnapshotKey(generation), data, host.clock);
    }

    lemma MayPutOwn(key: string, data: Bytes)
      requires NoSlash(generation) && OwnKey(generation, key)
      ensures MayPut(key, data)
    {
    }

    method UploadMarker(ghost raw: Bytes, ghost kind: Kind, ghost start: Point, ghost footing: Point) returns (ok: bool)
      requires Intact() && generation in host.issued
      requires BeforeMarker(cfg, s3.objects, generation, kind, manifest, raw, shipped, host.clock)
      requires Belongs(cfg, live.epochs, start.epoch, raw, start.frames, [])
      requires kind.Tame? ==> Belongs(cfg, live.epochs, footing.epoch, raw, footing.frames, shipped)
      modifies s3, live, this`points, this`ledger
      ensures Intact() && s3.trace == old(s3.trace) + [s3.objects]
      ensures Extends(old(live.epochs), live.epochs) && |live.epochs| == |old(live.epochs)|
      ensures SameElsewhere(old(s3.objects), s3.objects, generation)
      ensures kind.Fresh? ==>
                RestoreLatest(cfg, s3.objects) in {RestoreLatest(cfg, old(s3.objects)), Ok(Files(raw, None))}
      ensures SamePast(cfg, old(s3.objects), s3.objects, host.clock)
      ensures || points == old(points) + [LastOf(old(points))]
              || points == old(points) + [AfterMarker(kind, start, footing, shipped)]
      ensures ok ==> points == old(points) + [AfterMarker(kind, start, footing, shipped)]
      ensures points == old(points) + [AfterMarker(kind, start, footing, shipped)] || s3.objects == old(s3.objects)
      ensures ledger == old(ledger)
      ensures ok ==>
                && BeforeManifest(cfg, s3.objects, generation, raw)
                && (kind.Fresh? ==> ManifestAt(cfg, s3.objects, generation).None?)
      ensures ok && kind.Fresh? ==> RestoreLatest(cfg, s3.objects) == Ok(Files(raw, None))
      ensures s3.failures == old(s3.failures) + if ok then 0 else 1
    {
      hide Sound, Shows, Tracked, Registered, S3Client.Valid, LiveDatabase.Valid, LawfulCodecs, LawfulFormats,
        Accounted, Belongs, RestoreLatest, DecodeAt, Extends, SnapshotKey, Under, BeforeManifest, MayPut, SamePast,
        SameElsewhere, AfterMarker;
      ghost var before, text := s3.objects, cfg.formats.toUtf8(generation);
      MarkerFits(cfg, before, live.epochs, start, footing, generation, kind, manifest, raw, shipped, host.clock);
      MarkerText();
      AccountedMarker(cfg, before, live.epochs, ledger, text);
      PutNothing(before);
      SamePastReflexive(cfg, before, host.clock);
      MarkerPast(text);
      MarkerIsNoManifest(text);
      if kind.Fresh? {
        NoManifestYet(raw);
      }
      ok := Upload(LATEST, cfg.formats.toUtf8(generation), false, AfterMarker(kind, start, footing, shipped), ledger);
    }

    lemma MarkerPast(text: Bytes)
      requires Intact() && generation in host.issued && MayPut(LATEST, text)
      requires Sound(cfg, s3.objects[LATEST := text])
      ensures SamePast(cfg, s3.objects, s3.objects[LATEST := text], host.clock)
    {
      hide Sound, Shows, Tracked, Registered, S3Client.Valid, LiveDatabase.Valid, LawfulCodecs, LawfulFormats,
        Accounted, SamePast;
      KeyShapes(generation, 0);
      PutKeepsRegistered(LATEST, text);
      UnnamedPast(cfg, s3.objects, host.issued, generation, LATEST, text, host.clock);
    }

    lemma MarkerIsNoManifest(text: Bytes)
      ensures ManifestAt(cfg, s3.objects[LATEST := text], generation) == ManifestAt(cfg, s3.objects, generation)
    {
      KeyShapes(generation, 0);
    }

    lemma NoManifestYet(raw: Bytes)
      requires BeforeMarker(cfg, s3.objects, generation, Fresh, manifest, raw, shipped, host.clock)
      ensures ManifestAt(cfg, s3.objects, generation).None?
    {
      KeyShapes(generation, 0);
    }

    /** The database file as it is now shows the current epoch. */
    lemma FileFollows()
      requires Intact()
      ensures live.epochs != []
      ensures Belongs(cfg, live.epochs, |live.epochs| - 1, live.file, live.backfilled, [])
      ensures Carries(cfg, live.file)
    {
    }

    /** Where a snapshot of the database file taken now stands. */
    function SnapshotPoint(): (p: Point)
      requires live.epochs != []
      reads live
    {
      Point(|live.epochs| - 1, live.backfilled)
    }

    lemma FilePoint() returns (p: Point)
      requires Intact()
      ensures live.epochs != [] && p == SnapshotPoint() == Point(|live.epochs| - 1, live.backfilled)
      ensures LastOf(points).Some? ==> LastOf(points).value.epoch <= p.epoch
    {
      hide Sound, Registered, Accounted, Lawful, RestoreLatest, Open, StateAt;
      LastShown();
      p := SnapshotPoint();
    }

    /**
     Where the database file stands, counted in the epoch of the segments shipped, if there are any:
     a later epoch starts where all frames of the one before are in the file.
     */
    ghost function Footing(): (p: Point)
      requires live.epochs != []
      reads this, live
    {
      if shipped == [] || SameEpoch() then SnapshotPoint() else Point(epoch, FrameCount(shipped))
    }

    /**
     The segments shipped go with the database file as it is now: there are none, or they are of
     the current epoch and reach at least as far as the backfill has come, or they are all of the
     epoch before and nothing has been backfilled since.
     */
    ghost predicate Tidy()
      requires live.epochs != []
      reads this, live
    {
      || shipped == []
      || (SameEpoch() && live.backfilled <= FrameCount(shipped))
      || (epoch + 2 == |live.epochs| && live.backfilled == 0
          && FrameCount(shipped) == FrameCount(live.epochs[epoch].wal))
    }

    lemma TidyBelongs()
      requires Valid() && live.epochs != []
      ensures Tidy() ==> Belongs(cfg, live.epochs, Footing().epoch, live.file, Footing().frames, shipped)
      ensures Tidy() && LastOf(points).Some? ==> LastOf(points).value.epoch <= Footing().epoch
    {
      hide Shows, Sound, Tracked, Registered, Accounted, Published, S3Client.Valid, Lawful, FrameCount, AlignedLen,
        SaltsDistinct, CarriesCuts, HasSalt, Play, Observe, EpochGrows;
      if Tidy() && shipped != [] && !SameEpoch() {
        OlderEpochFits(cfg, live.epochs, live.file, epoch);
      }
    }

    /** The first two uploads of a snapshot: the file, then the marker. */
    method UploadSnapshotAndMarker(raw: Bytes, ghost kind: Kind, ghost start: Point, ghost footing: Point)
      returns (r: Result<()>)
      requires Intact() && generation in host.issued && Carries(cfg, raw)
      requires BeforeSnapshot(cfg, s3.objects, generation, kind, manifest, snapshot, shipped, host.clock)
      requires Belongs(cfg, live.epochs, start.epoch, raw, start.frames, [])
      requires kind.Tame? ==> Belongs(cfg, live.epochs, footing.epoch, raw, footing.frames, shipped)
      modifies s3, live, this`points, this`ledger
      ensures Intact() && old(s3.trace) <= s3.trace
      ensures Extends(old(live.epochs), live.epochs) && |live.epochs| == |old(live.epochs)|
      ensures SameElsewhere(old(s3.objects), s3.objects, generation)
      ensures r.Ok? ==>
                && BeforeManifest(cfg, s3.objects, generation, raw)
                && (kind.Fresh? ==> ManifestAt(cfg, s3.objects, generation).None?)
      ensures r.Ok? && kind.Fresh? ==> RestoreLatest(cfg, s3.objects) == Ok(Files(raw, None))
      ensures kind.Fresh? ==> RestoresEither(|old(s3.trace)|, RestoreLatest(cfg, old(s3.objects)), Ok(Files(raw, None)))
      ensures kind.Fresh? ==> SamePast(cfg, old(s3.objects), s3.objects, host.clock)
      ensures Staged(old(points), points, AfterSnapshot(kind, LastOf(old(points)), footing, shipped), AfterMarker(kind,
                start, footing, shipped), Some(start))
      ensures r.Ok? ==>
                points == old(points) + [AfterSnapshot(kind, LastOf(old(points)), footing, shipped),
                                         AfterMarker(kind, start, footing, shipped)]
      ensures || ledger == Snapshotted(kind, old(ledger), generation, Retaken(raw, footing))
              || (r.Err? && ledger == old(ledger))
      ensures kind.Mixed? && ledger == old(ledger) ==>
                points == old(points) || points == old(points) + [LastOf(old(points))]
      ensures kind.Fresh? ==>
                UnplacedAsBefore(cfg, s3.trace, points, |old(s3.trace)|, RestoreLatest(cfg, old(s3.objects)))
      ensures r.Ok? ==> s3.failures == old(s3.failures)
      ensures r.Err? ==> s3.failures == old(s3.failures) + 1 || (s3.failures == old(s3.failures) && !Able(cfg))
    {
      hide Sound, Shows, Tracked, Registered, S3Client.Valid, LiveDatabase.Valid, LawfulCodecs, LawfulFormats,
        RestoreLatest, Accounted, Extends, BeforeSnapshot, BeforeMarker, BeforeManifest, Belongs, SameElsewhere,
        Carries, AtMost, SamePast, ManifestAt, Snapshotted, AfterSnapshot, AfterMarker;
      ghost var e0, o0, p0 := live.epochs, s3.objects, points;
      ExtendsReflexive(e0);
      PutNothing(o0);
      SamePastReflexive(cfg, o0, host.clock);
      PointsTraced();
      MarkerPlaces(kind, start, footing);
      var encoded := PipelineEncode(raw);
      if encoded.Err? {
        return Err(encoded.error);
      }
      var ok := UploadSnapshot(encoded.value, raw, kind, footing);
      ghost var e1, o1 := live.epochs, s3.objects;
      MixesCount(kind, old(ledger), generation, Retaken(raw, footing));
      if !ok {
        return Err(S3);
      }
      BelongsStable(cfg, e0, e1, start.epoch, raw, start.frames, []);
      if kind.Tame? {
        BelongsStable(cfg, e0, e1, footing.epoch, raw, footing.frames, shipped);
      }
      ok := UploadMarker(raw, kind, start, footing);
      ExtendsTransitive(e0, e1, live.epochs);
      SameElsewhereTransitive(o0, o1, s3.objects, generation);
      if kind.Fresh? {
        SamePastOn(cfg, o0, o1, s3.objects, host.clock, host.clock);
      }
      r := if ok then Ok(()) else Err(S3);
    }

    lemma PutNothing(objects: Objects)
      ensures SameElsewhere(objects, objects, generation)
    {
    }

    /** The snapshot is the new point of reference: nothing is shipped yet. */
    ghost method Rebase(raw: Bytes, start: Point)
      modifies this`epoch, this`snapshot, this`snapFrames, this`shipped, this`compacted
      ensures epoch == start.epoch && snapshot == raw && snapFrames == start.frames && shipped == [] && !compacted
    {
      epoch, snapshot, snapFrames, shipped, compacted := start.epoch, raw, start.frames, [], false;
    }

    /** Segments are relative to the snapshot: offset, index and salt start over. */
    method ResetTracking()
      modifies this`walOffset, this`walIndex, this`walHeaderSalt
      ensures walOffset == 0 && walIndex == 0 && walHeaderSalt == None
    {
      walOffset := 0;
      walIndex := 0;
      walHeaderSalt := None;
    }

    /** The end of snapshot(): tracking starts over, and the manifest with no segments goes up. */
    method StartSegments(ghost raw: Bytes, ghost start: Point, ghost isNew: bool) returns (ok: bool)
      requires Intact() && generation in host.issued && manifest.generation == generation
      requires BeforeManifest(cfg, s3.objects, generation, raw)
      requires (isNew ==> ManifestAt(cfg, s3.objects, generation).None?)
      requires Belongs(cfg, live.epochs, start.epoch, raw, start.frames, []) && start.epoch == |live.epochs| - 1
      modifies this, s3, live, host`clock
      ensures Intact() && generation == old(generation) && hasReadTransaction == old(hasReadTransaction)
      ensures Extends(old(live.epochs), live.epochs) && |live.epochs| == |old(live.epochs)|
      ensures SameElsewhere(old(s3.objects), s3.objects, generation)
      ensures ok ==> Valid() && SameEpoch() && shipped == [] && walIndex == 0 && walHeaderSalt.None?
      ensures ok ==> manifest.segments == [] && snapshot == raw && Position() == start
      ensures ok ==> points == old(points) + [Some(start)]
      ensures manifest == old(manifest).(snapshotTimestampMs := host.clock, segments := [])
      ensures walOffset == 0 && walIndex == 0 && walHeaderSalt.None? && old(host.clock) <= host.clock
      ensures || points == old(points)
              || points == old(points) + [LastOf(old(points))]
              || points == old(points) + [Some(start)]
      ensures s3.trace == old(s3.trace) || s3.trace == old(s3.trace) + [s3.objects]
      ensures s3.objects == old(s3.objects) || RestoreLatest(cfg, s3.objects) == Ok(Files(raw, None))
      ensures || ledger == Enter(old(ledger), generation, Record(start.epoch, raw, start.frames, [], true))
              || (!ok && ledger == old(ledger))
      ensures isNew ==> SamePast(cfg, old(s3.objects), s3.objects, old(host.clock))
      ensures ok ==> s3.failures == old(s3.failures)
      ensures !ok ==> s3.failures == old(s3.failures) + 1 || (s3.failures == old(s3.failures) && !Able(cfg))
      ensures shutdownComplete == old(shutdownComplete)
    {
      hide *;
      ghost var present, l0 := if isNew then host.clock else 0, ledger;
      ResetTracking();
      Rebase(raw, start);
      var now := host.NowMs();
      manifest := manifest.(snapshotTimestampMs := now, segments := []);
      BeforeManifestParts(cfg, s3.objects, generation, raw);
      EmptyList(cfg, s3.objects, generation, now, snapFrames);
      ManifestNowhere(s3.objects, present);
      EntersAnew(l0, Record(start.epoch, raw, start.frames, [], true));
      ok := UploadManifest(false, [], present);
      BelongsStable(cfg, old(live.epochs), live.epochs, epoch, raw, snapFrames, []);
      if ok {
        FollowsAnew(cfg, live.epochs, epoch, raw, snapFrames);
        ExtendsReflexive(live.epochs);
        LastIs(old(points), start);
        EnteredIs(l0, Record(start.epoch, raw, start.frames, [], true));
        ValidWhile(live.epochs);
        ItsEpoch();
      }
      RestoredBare(raw);
    }

    lemma ManifestNowhere(objects: Objects, present: nat)
      ensures ManifestAt(cfg, objects, manifest.generation).None? && manifest.snapshotTimestampMs >= present ==>
                Continues(cfg, objects, manifest, present)
    {
    }

    /** The bookkeeping as it is once the snapshot is the point of reference. */
    lemma EntersAnew(before: Ledger, rec: Record)
      requires rec == Record(epoch, snapshot, snapFrames, [], true) && shipped == [] && !compacted && ledger == before
      ensures With([]) == Enter(before, generation, rec)
      ensures Position() == Point(epoch, snapFrames) == Here(epoch, snapFrames, [])
      ensures Enter(before, generation, rec).records[generation] == rec == Mine()
    {
    }

    lemma EnteredIs(before: Ledger, rec: Record)
      requires ledger == Enter(before, generation, rec) && rec == Mine()
      ensures Entered()
    {
    }

    lemma LastIs(before: Places, p: Point)
      ensures LastOf(before + [Some(p)]) == Some(p)
    {
    }

    lemma ItsEpoch()
      ensures SameEpoch() <==> epoch == |live.epochs| - 1
    {
    }

    lemma RestoredBare(raw: Bytes)
      ensures FilesOf(raw, []) == Files(raw, None)
    {
    }

    /**
     Uploads a full copy of the database file and starts an empty segment list. For a new
     generation a reader gets what it got before or the snapshot, at every moment. For one that is
     published already, every durable state shows the history as long as its segments are tidy.
     */
    method Snapshot(ghost kind: Kind) returns (r: Result<()>)
      requires Intact() && generation in host.issued
      requires BeforeSnapshot(cfg, s3.objects, generation, kind, manifest, snapshot, shipped, host.clock)
      requires kind.Tame? ==> Belongs(cfg, live.epochs, Footing().epoch, live.file, Footing().frames, shipped)
      requires kind.Tame? && LastOf(points).Some? ==> LastOf(points).value.epoch <= Footing().epoch
      requires kind.Mixed? ==> !Tidy()
      modifies this, s3, live, host`clock
      ensures Intact() && old(s3.trace) <= s3.trace
      ensures Extends(old(live.epochs), live.epochs)
      ensures generation == old(generation) && hasReadTransaction == old(hasReadTransaction)
      ensures old(host.clock) <= host.clock
      ensures SameElsewhere(old(s3.objects), s3.objects, generation)
      ensures r.Ok? ==> Valid() && SameEpoch() && shipped == [] && walIndex == 0 && walHeaderSalt.None?
      ensures r.Ok? ==> manifest.segments == [] && snapshot == old(live.file) && Position() == old(SnapshotPoint())
      ensures r.Ok? ==>
                && manifest == old(manifest).(snapshotTimestampMs := host.clock, segments := [])
                && walOffset == 0
      // After a failure tracking has either not been touched or has started over.
      ensures r.Err? ==>
                || (manifest == old(manifest) && walOffset == old(walOffset) && walIndex == old(walIndex)
                    && walHeaderSalt == old(walHeaderSalt))
                || (manifest == old(manifest).(snapshotTimestampMs := host.clock, segments := [])
                    && walOffset == 0 && walIndex == 0 && walHeaderSalt.None?)
      ensures kind.Fresh? ==>
                RestoresEither(|old(s3.trace)|, RestoreLatest(cfg, old(s3.objects)), Ok(Files(old(live.file), None)))
      // What each of the three uploads shows: all of them, if all succeed.
      ensures Staged(old(points), points, AfterSnapshot(kind, LastOf(old(points)), old(Footing()), old(shipped)),
                     AfterMarker(kind, old(SnapshotPoint()), old(Footing()), old(shipped)), Some(old(SnapshotPoint())))
      ensures old(points) <= points && (r.Ok? ==> |points| == |old(points)| + 3)
      ensures kind.Fresh? ==>
                UnplacedAsBefore(cfg, s3.trace, points, |old(s3.trace)|, RestoreLatest(cfg, old(s3.objects)))
      // Restores to times past: a new generation leaves them alone.
      ensures !kind.Mixed? ==> Calm(old(ledger), ledger)
      ensures kind.Fresh? ==> Onward(cfg, old(Moment()), Moment())
      ensures r.Ok? && kind.Tame? ==> Keeps(old(ledger), ledger)
      // Unless the snapshot was uploaded beside segments that may not fit it, a reader always gets a state of the
      // history.
      ensures old(ledger.mixes) <= ledger.mixes
      ensures ledger.mixes == old(ledger.mixes) && LastOf(old(points)).Some? ==> Placed(points, |old(points)| - 1)
      ensures r.Ok? ==> s3.failures == old(s3.failures)
      ensures r.Err? ==> s3.failures == old(s3.failures) + 1 || (s3.failures == old(s3.failures) && !Able(cfg))
      ensures shutdownComplete == old(shutdownComplete)
    {
      hide *;
      PointsTraced();
      FileFollows();
      ghost var start := FilePoint();
      ghost var footing := Footing();
      FootingInOrder(kind);
      var raw := live.file;
      ghost var e0, isNew, p0, l0, o0, held := live.epochs, kind.Fresh?, points, ledger, s3.objects, shipped;
      ghost var m0 := Standing();
      ghost var rec, last := Retaken(raw, footing), Record(start.epoch, raw, start.frames, [], true);
      ghost var a, b := AfterSnapshot(kind, LastOf(p0), footing, held), AfterMarker(kind, start, footing, held);
      SnapshotBasics(kind);
      RecordsOf(kind, l0, raw, start, footing);
      r := UploadSnapshotAndMarker(raw, kind, start, footing);
      ghost var m1 := Standing();
      SnapshotPlaces(kind, p0, points, start, footing, held, ledger.mixes == l0.mixes);
      if isNew {
        OnwardParts(cfg, m0, m1);
      }
      if r.Err? {
        return;
      }
      ghost var e1, o1, p1, tr1 := live.epochs, s3.objects, points, s3.trace;
      PointsTraced();
      if isNew {
        RestoredSoFar(|old(s3.trace)|, RestoreLatest(cfg, o0), Ok(Files(raw, None)));
      }
      BelongsStable(cfg, e0, e1, start.epoch, raw, start.frames, []);
      var ok := StartSegments(raw, start, isNew);
      ghost var m2 := Standing();
      ExtendsTransitive(e0, e1, live.epochs);
      SameElsewhereTransitive(o0, o1, s3.objects, generation);
      StagesEnd(p0, p1, points, a, b, Some(start));
      PointsTraced();
      if isNew {
        RestoredThen(tr1, |old(s3.trace)|, RestoreLatest(cfg, o0), Ok(Files(raw, None)));
        LastStage(p0, p1, points, a, start, footing, held);
        UnplacedOn(cfg, tr1, p1, s3.trace, points, |old(s3.trace)|, RestoreLatest(cfg, o0));
      }
      SnapshotPlaces(kind, p0, points, start, footing, held, ledger.mixes == l0.mixes);
      if isNew {
        SamePastOn(cfg, o0, o1, s3.objects, m0.clock, m0.clock);
        OnwardParts(cfg, m0, m2);
      }
      r := if ok then Ok(()) else Err(S3);
    }

    lemma MarkerPlaces(kind: Kind, start: Point, footing: Point)
      ensures !kind.Mixed? ==> AfterMarker(kind, start, footing, shipped).Some?
    {
    }

    lemma PointsTraced()
      requires Intact()
      ensures |points| == |s3.trace| && s3.trace != [] && s3.trace[|s3.trace| - 1] == s3.objects
    {
    }

    /** The marker of a new generation has shown its position before the manifest comes. */
    lemma LastStage(before: Places, two: Places, after: Places, a: Option<Point>, start: Point, footing: Point,
                    held: Bytes)
      requires two == before + [a, AfterMarker(Fresh, start, footing, held)]
      requires after == two || after == two + [LastOf(two)] || after == two + [Some(start)]
      ensures after == two || exists p :: after == two + [Some(p)]
    {
      assert LastOf(two) == Some(start);
    }

    /** What the ledger can come to be in the course of a snapshot. */
    lemma RecordsOf(kind: Kind, before: Ledger, raw: Bytes, start: Point, footing: Point)
      ensures var first := Snapshotted(kind, before, generation, Retaken(raw, footing));
              var next := Enter(first, generation, Record(start.epoch, raw, start.frames, [], true));
              && Keeps(before, before) && Calm(before, before)
              && (kind.Fresh? ==> first == before && Keeps(before, next))
              && (!kind.Mixed? ==> Calm(before, first) && Calm(before, next) && Keeps(before, next))
              && first.mixes == next.mixes == if kind.Mixed? then before.mixes + 1 else before.mixes
    {
      hide Keeps, Calm, Snapshotted, Enter;
      var last := Record(start.epoch, raw, start.frames, [], true);
      SnapshotKeeps(kind, before, generation, Retaken(raw, footing), last);
      MixesCount(kind, before, generation, Retaken(raw, footing));
      EnterMixes(Snapshotted(kind, before, generation, Retaken(raw, footing)), generation, last);
    }

    lemma SnapshotPlaces(kind: Kind, before: Places, after: Places, start: Point, footing: Point, held: Bytes,
                         unmixed: bool)
      requires Staged(before, after, AfterSnapshot(kind, LastOf(before), footing, held), AfterMarker(kind, start,
                 footing, held), Some(start))
      requires kind.Mixed? && unmixed ==> after == before || after == before + [LastOf(before)]
      requires LastOf(before).Some? ==> LastOf(before).value.epoch <= start.epoch
      requires kind.Tame? ==>
                 footing.epoch <= start.epoch && (LastOf(before).Some? ==> LastOf(before).value.epoch <= footing.epoch)
      ensures before <= after && (unmixed && LastOf(before).Some? ==> Placed(after, |before| - 1))
    {
      hide Staged;
      StagedPlaces(before, after, AfterSnapshot(kind, LastOf(before), footing, held), AfterMarker(kind, start, footing,
        held), Some(start));
    }

    /** The file stands in the current epoch, and no reader has been shown a later one. */
    lemma FootingInOrder(kind: Kind)
      requires Intact() && live.epochs != []
      requires kind.Tame? ==> Belongs(cfg, live.epochs, Footing().epoch, live.file, Footing().frames, shipped)
      ensures kind.Tame? ==> Footing().epoch < |live.epochs|
    {
      hide Intact;
    }

    lemma SnapshotBasics(kind: Kind)
      requires BeforeSnapshot(cfg, s3.objects, generation, kind, manifest, snapshot, shipped, host.clock)
      ensures manifest.generation == generation
    {
    }

    /** What the manager knows survives whatever the application does, once a salt is captured. */
    lemma ValidWhile(before: seq<Epoch>)
      requires Intact() && NoSlash(generation) && generation in host.issued && manifest.generation == generation
      requires Published(cfg, s3.objects, generation, manifest, snapshot, shipped)
      requires IndicesBelow(manifest.segments, walIndex) && TimesUpTo(manifest.segments, host.clock)
      requires manifest.snapshotTimestampMs <= host.clock && |shipped| == walOffset
      requires !compacted ==> AlignedCuts(manifest.segments, shipped, snapFrames)
      requires Following(cfg, before, epoch, snapshot, snapFrames, shipped, walHeaderSalt)
      requires Extends(before, live.epochs) && (walHeaderSalt.None? ==> |live.epochs| == |before|)
      requires LastOf(points) == Some(Position()) && Entered()
      ensures Valid()
    {
      hide Entered, Intact, Published, Following, IndicesBelow, TimesUpTo, AlignedCuts, Extends;
      FollowingStable(cfg, before, live.epochs, epoch, snapshot, snapFrames, shipped, walHeaderSalt);
    }

    /**
     The second half of sync_wal(): the new bytes go up as a segment, then the manifest that
     names it. A reader gets the bytes shipped before or all of `goal`, at every moment.
     */
    method ShipSegment(newData: Bytes, ghost goal: Bytes) returns (ok: bool)
      requires Valid() && walHeaderSalt.Some? && walOffset < |goal| && newData == goal[walOffset..]
      requires shipped <= goal && Carries(cfg, newData)
      requires Following(cfg, live.epochs, epoch, snapshot, snapFrames, goal, walHeaderSalt)
      requires AtMost(Position(), Here(epoch, snapFrames, goal))
      modifies this, s3, live, host`clock
      ensures Intact() && old(s3.trace) <= s3.trace && Extends(old(live.epochs), live.epochs)
      ensures ok ==> Valid() && shipped == goal && walIndex == old(walIndex) + 1
      ensures ok ==>
                manifest == AddSegment(old(manifest), old(walIndex), host.clock, old(walOffset),
                                       |goal| - old(walOffset))
      // A failure before the manifest changed does no harm; a failed upload of the manifest does.
      ensures !ok ==> SyncFailed(old(manifest), old(walIndex), old(walOffset), |goal| - old(walOffset))
      ensures old(host.clock) <= host.clock
      ensures generation == old(generation) && epoch == old(epoch) && snapshot == old(snapshot)
      ensures snapFrames == old(snapFrames)
      ensures hasReadTransaction == old(hasReadTransaction) && walHeaderSalt == old(walHeaderSalt)
      ensures RestoresEither(|old(s3.trace)|, RestoreLatest(cfg, old(s3.objects)), Ok(FilesOf(snapshot, goal)))
      ensures old(points) <= points && Ascending(points, |old(points)| - 1)
      ensures SameElsewhere(old(s3.objects), s3.objects, generation)
      ensures Onward(cfg, old(Moment()), Moment())
      ensures ok ==> s3.failures == old(s3.failures)
      ensures !ok ==> s3.failures == old(s3.failures) + 1 || (s3.failures == old(s3.failures) && !Able(cfg))
      ensures shutdownComplete == old(shutdownComplete)
    {
      hide *;
      ghost var e0, o0, p0, m0 := live.epochs, s3.objects, points, Moment();
      ghost var tr0, here := s3.trace, Position();
      ExtendsReflexive(e0);
      PutNothing(o0);
      Bookkeeping();
      AscendingStart(p0);
      AtMostReflexive(here);
      OnwardStill(cfg, m0);
      RestoredNowhere(RestoreLatest(cfg, o0), Ok(FilesOf(snapshot, goal)));
      StillSynced(manifest, walIndex, walOffset, |goal| - walOffset);
      var encoded := PipelineEncode(newData);
      if encoded.Err? {
        return false;
      }
      PublishedParts(cfg, s3.objects, generation, manifest, snapshot, shipped);
      ok := UploadSegment(walIndex, encoded.value, newData, manifest.segments, shipped);
      ghost var e1, o1, p1, m1 := live.epochs, s3.objects, points, Moment();
      ghost var tr1 := s3.trace;
      Bookkeeping();
      AscendingAdvance(p0, |p0| - 1, p1, here);
      RestoredNext(tr0, tr1, RestoreLatest(cfg, o0), Ok(FilesOf(snapshot, goal)));
      StillSynced(manifest, walIndex, walOffset, |goal| - walOffset);
      if !ok {
        return;
      }
      FollowingStable(cfg, e0, e1, epoch, snapshot, snapFrames, goal, walHeaderSalt);
      assert shipped + newData == goal;
      ok := RecordSegment(|newData|, goal);
      RestoredNext(tr0, tr1, RestoreLatest(cfg, o0), Ok(FilesOf(snapshot, goal)));
      if !ok {
        NowBehind(old(manifest), old(walIndex), old(walOffset), |newData|);
      }
      ExtendsTransitive(e0, e1, live.epochs);
      SameElsewhereTransitive(o0, o1, s3.objects, generation);
      LeadsOn(p1, here, Here(epoch, snapFrames, goal));
      AscendingAdvance(p1, |p0| - 1, points, Here(epoch, snapFrames, goal));
      OnwardOn(cfg, m0, m1, Moment());
    }

    lemma RestoredNowhere(a: Result<Files>, b: Result<Files>)
      ensures RestoresEither(|s3.trace|, a, b)
    {
    }

    /** One more state that restores to the one, and perhaps another that restores to either. */
    lemma RestoredNext(before: seq<Objects>, one: seq<Objects>, a: Result<Files>, b: Result<Files>)
      requires |one| == |before| + 1 && before <= one && RestoreLatest(cfg, one[|before|]) == a
      requires s3.trace == one || s3.trace == one + [s3.objects]
      requires s3.objects == one[|before|] || RestoreLatest(cfg, s3.objects) == b
      ensures RestoresEither(|before|, a, b) && before <= s3.trace
    {
      hide RestoreLatest;
    }

    lemma LeadsOn(places: Places, p: Point, q: Point)
      requires LastOf(places) == Some(p) && AtMost(p, q)
      ensures Leads(places, q)
    {
    }

    lemma AddedDiffers(before: GenerationManifest)
      ensures forall i, t, o, n :: AddSegment(before, i, t, o, n) != before
    {
      forall i, t, o, n
        ensures AddSegment(before, i, t, o, n) != before
      {
        assert |AddSegment(before, i, t, o, n).segments| == |before.segments| + 1;
      }
    }

    lemma AtMostReflexive(p: Point)
      ensures AtMost(p, p)
    {
    }

    lemma GoalAligned(goal: Bytes)
      requires Following(cfg, live.epochs, epoch, snapshot, snapFrames, goal, walHeaderSalt) && goal != []
      ensures AlignedEnd(goal, snapFrames)
    {
    }

    /** The uploaded segment joins the manifest in memory. */
    method AddUploaded(size: nat, ghost goal: Bytes)
      requires Valid() && shipped <= goal && |goal| == walOffset + size && size > 0
      requires HoldsNext(cfg, s3.objects, generation, manifest.segments, walIndex, walOffset, size, goal)
      requires Following(cfg, live.epochs, epoch, snapshot, snapFrames, goal, walHeaderSalt)
      modifies this`manifest, host`clock
      ensures host.clock >= old(host.clock)
      ensures manifest == AddSegment(old(manifest), walIndex, host.clock, walOffset, size)
      ensures Holds(cfg, s3.objects, generation, manifest.segments, goal)
      ensures IndicesBelow(manifest.segments, walIndex + 1) && TimesUpTo(manifest.segments, host.clock)
      ensures !compacted ==> AlignedCuts(manifest.segments, goal, snapFrames)
      ensures Continues(cfg, s3.objects, manifest, old(host.clock))
      ensures manifest.generation == old(manifest.generation)
      ensures manifest.snapshotTimestampMs == old(manifest.snapshotTimestampMs)
    {
      hide Intact, Following, HoldsNext, IndicesBelow, TimesUpTo, Holds, AlignedCuts, AlignedLen, Continues, Belongs,
        ManifestAt, DecodeAt;
      ghost var t0 := host.clock;
      var now := host.NowMs();
      NextSegment(cfg, s3.objects, generation, manifest, t0, walIndex, now, walOffset, size, goal);
      GoalAligned(goal);
      if !compacted {
        NextAligned(manifest.segments, shipped, SegmentMeta(walIndex, now, walOffset, size), goal, snapFrames);
      }
      AddedAtPresent(cfg, s3.objects, manifest, walIndex, now, walOffset, size, t0);
      manifest := AddSegment(manifest, walIndex, now, walOffset, size);
    }

    method MoveOn(size: nat, ghost goal: Bytes)
      modifies this`walOffset, this`walIndex, this`shipped
      ensures walOffset == old(walOffset) + size && walIndex == old(walIndex) + 1 && shipped == goal
    {
      walOffset := walOffset + size;
      walIndex := walIndex + 1;
      shipped := goal;
    }

    /** Adds the uploaded segment to the manifest, uploads that, and moves on. */
    method RecordSegment(size: nat, ghost goal: Bytes) returns (ok: bool)
      requires Valid() && walHeaderSalt.Some? && shipped <= goal && |goal| == walOffset + size && size > 0
      requires HoldsNext(cfg, s3.objects, generation, manifest.segments, walIndex, walOffset, size, goal)
      requires Following(cfg, live.epochs, epoch, snapshot, snapFrames, goal, walHeaderSalt)
      modifies this, s3, live, host`clock
      ensures Intact() && Extends(old(live.epochs), live.epochs)
      ensures ok ==> Valid() && shipped == goal && walIndex == old(walIndex) + 1
      ensures ok ==>
                manifest == AddSegment(old(manifest), old(walIndex), host.clock, old(walOffset),
                                       |goal| - old(walOffset))
      ensures !ok ==> LeftBehind(old(manifest), old(walIndex), old(walOffset), size) && !Valid()
      ensures old(host.clock) <= host.clock
      ensures generation == old(generation) && epoch == old(epoch) && snapshot == old(snapshot)
      ensures snapFrames == old(snapFrames)
      ensures hasReadTransaction == old(hasReadTransaction) && walHeaderSalt == old(walHeaderSalt)
      ensures s3.trace == old(s3.trace) || s3.trace == old(s3.trace) + [s3.objects]
      ensures s3.objects == old(s3.objects) || RestoreLatest(cfg, s3.objects) == Ok(FilesOf(snapshot, goal))
      ensures points == old(points) || points == old(points) + [LastOf(old(points))]
              || points == old(points) + [Some(Here(epoch, snapFrames, goal))]
      ensures SameElsewhere(old(s3.objects), s3.objects, generation)
      ensures Onward(cfg, old(Moment()), Moment())
      ensures ok ==> s3.failures == old(s3.failures)
      ensures !ok ==> s3.failures == old(s3.failures) + 1 || (s3.failures == old(s3.failures) && !Able(cfg))
      ensures shutdownComplete == old(shutdownComplete)
    {
      hide *;
      ghost var e0 := live.epochs;
      ghost var m0 := Standing();
      ghost var rec := Record(epoch, snapshot, snapFrames, goal, !compacted);
      Bookkeeping();
      MineGoesOn(goal);
      PublishedParts(cfg, s3.objects, generation, manifest, snapshot, shipped);
      FollowingBelongs(cfg, e0, epoch, snapshot, snapFrames, goal, walHeaderSalt);
      AddUploaded(size, goal);
      ok := UploadManifest(true, goal, m0.clock);
      ghost var m1 := Standing();
      OnwardParts(cfg, m0, m1);
      if !ok {
        LeftBehindIsOut(old(manifest), old(walIndex), old(walOffset), size);
      }
      if ok {
        MoveOn(size, goal);
        Bearings();
        EnteredIs(m0.ledger, rec);
        LastIs(old(points), Here(epoch, snapFrames, goal));
        ValidWhile(e0);
      }
    }

    /** The segment is in the manifest, but index and offset have not moved on. */
    ghost predicate LeftBehind(before: GenerationManifest, index: nat, offset: nat, size: nat)
      reads this`manifest, this`walIndex, this`walOffset, host`clock
    {
      && manifest == AddSegment(before, index, host.clock, offset, size)
      && walIndex == index && walOffset == offset
    }

    /**
     After a sync that failed: the manager is in order if and only if its manifest is what it was.
     If it is not, it was the upload of the manifest that failed.
     */
    ghost predicate SyncFailed(before: GenerationManifest, index: nat, offset: nat, size: nat)
      reads this, s3, live, host, readConn`inTransaction
    {
      && (Valid() <==> manifest == before) && walIndex == index && walOffset == offset
      && (manifest != before ==> LeftBehind(before, index, offset, size))
    }

    lemma FailedInOrder(before: GenerationManifest, index: nat, offset: nat, size: nat)
      requires SyncFailed(before, index, offset, size)
      ensures manifest == before ==> Valid()
      ensures manifest == before.(segments := manifest.segments)
    {
    }

    lemma StillSynced(before: GenerationManifest, index: nat, offset: nat, size: nat)
      requires Valid() && manifest == before && walIndex == index && walOffset == offset
      ensures SyncFailed(before, index, offset, size) && Lawful(cfg)
    {
    }

    lemma NowBehind(before: GenerationManifest, index: nat, offset: nat, size: nat)
      requires LeftBehind(before, index, offset, size) && !Valid()
      ensures SyncFailed(before, index, offset, size)
    {
      hide Valid;
      AddedDiffers(before);
    }

    /** Then the bookkeeping is out of order, whatever became of the upload. */
    lemma LeftBehindIsOut(before: GenerationManifest, index: nat, offset: nat, size: nat)
      requires manifest == AddSegment(before, index, host.clock, offset, size) && walOffset == offset
      requires walIndex == index && size > 0
      ensures LeftBehind(before, index, offset, size) && !Valid()
    {
      hide Intact, IndicesBelow, TimesUpTo, AlignedCuts, Following, Entered, ManifestAt, DecodeAt;
      assert manifest.segments[|manifest.segments| - 1] == SegmentMeta(index, host.clock, offset, size);
    }

    /** The record of the generation goes on as it is. */
    lemma MineGoesOn(data: Bytes)
      requires Entered()
      ensures With(data) == Enter(ledger, generation, Record(epoch, snapshot, snapFrames, data, !compacted))
      ensures Keeps(ledger, ledger) && Keeps(ledger, With(data))
    {
      EnterKeeps(ledger, generation, Record(epoch, snapshot, snapFrames, data, !compacted));
    }

    lemma Bearings()
      ensures Mine() == Record(epoch, snapshot, snapFrames, shipped, !compacted)
      ensures Position() == Here(epoch, snapFrames, shipped)
    {
    }

    /** The parts of the bookkeeping, one by one. */
    lemma Bookkeeping()
      requires Valid()
      ensures Intact() && NoSlash(generation) && generation in host.issued && manifest.generation == generation
      ensures Published(cfg, s3.objects, generation, manifest, snapshot, shipped)
      ensures IndicesBelow(manifest.segments, walIndex) && TimesUpTo(manifest.segments, host.clock)
      ensures manifest.snapshotTimestampMs <= host.clock && |shipped| == walOffset
      ensures !compacted ==> AlignedCuts(manifest.segments, shipped, snapFrames)
      ensures Following(cfg, live.epochs, epoch, snapshot, snapFrames, shipped, walHeaderSalt)
      ensures Belongs(cfg, live.epochs, epoch, snapshot, snapFrames, shipped)
      ensures LastOf(points) == Some(Position()) && Position() == Here(epoch, snapFrames, shipped) && Entered()
    {
      hide Intact, Published, IndicesBelow, TimesUpTo, AlignedCuts, Belongs, Entered;
    }

    /**
     Uploads one segment under an index not in use; no reader notices it. `segments` is the list
     to be extended by it, `held` what these segments hold.
     */
    method UploadSegment(index: nat, data: Bytes, ghost chunk: Bytes, ghost segments: seq<SegmentMeta>,
                         ghost held: Bytes)
      returns (ok: bool)
      requires Valid() && walHeaderSalt.Some? && Decode(cfg, data) == Ok(chunk) && chunk != []
      requires walIndex <= index && Holds(cfg, s3.objects, generation, segments, held) && IndicesBelow(segments, index)
      modifies s3, live, this`points, this`ledger
      ensures Valid() && s3.trace == old(s3.trace) + [s3.objects] && Extends(old(live.epochs), live.epochs)
      ensures points == old(points) + [Some(Position())] && ledger == old(ledger)
      ensures RestoreLatest(cfg, s3.objects) == RestoreLatest(cfg, old(s3.objects))
      ensures SameElsewhere(old(s3.objects), s3.objects, generation)
      ensures Onward(cfg, old(Moment()), Moment())
      ensures ok ==> HoldsNext(cfg, s3.objects, generation, segments, index, |held|, |chunk|, held + chunk)
      ensures s3.failures == old(s3.failures) + if ok then 0 else 1
    {
      hide Sound, Shows, Tracked, Registered, S3Client.Valid, LiveDatabase.Valid, LawfulCodecs, LawfulFormats,
        RestoreLatest, Accounted, Extends, Published, HoldsNext, IndicesBelow, TimesUpTo, OwnKey, SegmentKey, Decode,
        Holds, Belongs, SamePast, Keeps, Onward, Enter, AlignedCuts, SameElsewhere, NoSlash;
      ghost var before, e0, m0 := s3.objects, live.epochs, Moment();
      ghost var after := before[SegmentKey(generation, index) := data];
      IndicesBelowHigher(manifest.segments, walIndex, index);
      SegmentFits(cfg, before, generation, manifest, snapshot, shipped, host.clock, e0, epoch, snapFrames,
        segments, held, index, data, chunk);
      MineStands(after);
      SegmentPast(index, data);
      PutNothing(before);
      SamePastReflexive(cfg, before, host.clock);
      EnterKeeps(ledger, generation, Mine());
      ok := Upload(SegmentKey(generation, index), data, true, Some(Position()), ledger);
      ValidWhile(e0);
      OnwardParts(cfg, m0, Moment());
    }

    /** A segment under an unused index concerns no time at all. */
    lemma SegmentPast(index: nat, data: Bytes)
      requires Valid() && IndicesBelow(manifest.segments, index)
      requires Sound(cfg, s3.objects[SegmentKey(generation, index) := data])
      requires OwnKey(generation, SegmentKey(generation, index))
      ensures SamePast(cfg, s3.objects, s3.objects[SegmentKey(generation, index) := data], host.clock)
      ensures MayPut(SegmentKey(generation, index), data)
    {
      hide Sound, Shows, Tracked, Registered, S3Client.Valid, LiveDatabase.Valid, LawfulCodecs, LawfulFormats,
        Accounted, SamePast, Following, TimesUpTo, OwnKey, Holds, AlignedCuts, NoSlash, DecodeAt, SegmentKey, Reads;
      MayPutOwn(SegmentKey(generation, index), data);
      PutKeepsRegistered(SegmentKey(generation, index), data);
      KeyShapes(generation, index);
      FreshIndexUnread(generation, manifest.segments, index);
      UnnamedPast(cfg, s3.objects, host.issued, generation, SegmentKey(generation, index), data, host.clock);
    }

    /** As long as the generation is published as it is, its record stays right. */
    lemma MineStands(after: Objects)
      requires Valid() && Published(cfg, after, generation, manifest, snapshot, shipped)
      requires SameElsewhere(s3.objects, after, generation)
      ensures Accounted(cfg, after, live.epochs, ledger)
    {
      hide Sound, Shows, Tracked, Registered, S3Client.Valid, LiveDatabase.Valid, Lawful, Published, IndicesBelow,
        TimesUpTo, Belongs, Accounted, AlignedCuts, SameElsewhere, NoSlash, Enter;
      AccountedPublished(cfg, s3.objects, after, live.epochs, ledger, generation, manifest, Mine());
      EnterKeeps(ledger, generation, Mine());
    }

    /** Opens the read transaction that pins the WAL, unless it is open. */
    method BeginReadTransaction()
      requires Intact()
      modifies this`hasReadTransaction, readConn`inTransaction
      ensures Intact() && (old(Valid()) ==> Valid())
      ensures hasReadTransaction && readConn.inTransaction
      ensures Position() == old(Position()) && SameEpoch() == old(SameEpoch())
    {
      hide Sound, Shows, Tracked, S3Client.Valid, LiveDatabase.Valid, Lawful, Registered, Published, Following,
        IndicesBelow, TimesUpTo, Accounted;
      if !hasReadTransaction {
        readConn.inTransaction := true;
        hasReadTransaction := true;
      }
    }

    method EndReadTransaction()
      requires Intact()
      modifies this`hasReadTransaction, readConn`inTransaction
      ensures Intact() && (old(Valid()) ==> Valid())
      ensures !hasReadTransaction && !readConn.inTransaction
    {
      hide Sound, Shows, Tracked, S3Client.Valid, LiveDatabase.Valid, Lawful, Registered, Published, Following,
        IndicesBelow, TimesUpTo, Accounted;
      if hasReadTransaction {
        readConn.inTransaction := false;
        hasReadTransaction := false;
      }
    }

    /** A fresh generation id with an empty manifest; nothing in the store belongs to it. */
    method NewGeneration()
      requires Intact()
      modifies this`generation, this`manifest, host
      ensures Intact() && generation in host.issued && generation !in old(host.issued)
      ensures old(host.issued) <= host.issued
      ensures BeforeSnapshot(cfg, s3.objects, generation, Fresh, manifest, snapshot, shipped, host.clock)
      ensures manifest == GenerationManifest(generation, host.clock, host.clock, []) && old(host.clock) <= host.clock
      ensures manifest.generation == generation && manifest.createdAtMs == host.clock
    {
      hide Sound, Shows, Tracked, S3Client.Valid, LiveDatabase.Valid, LawfulCodecs, LawfulFormats, Registered, Unused,
        Accounted;
      ghost var issued := host.issued;
      generation := host.NewUuid();
      var now := host.NowMs();
      manifest := NewManifest(generation, now);
      NewIdUnused(cfg, s3.objects, issued, generation);
    }

    /** A new generation with a fresh snapshot, tracked from where the last one was left. */
    method Restart() returns (r: Result<()>)
      requires Intact()
      modifies this, s3, live, host
      ensures Intact() && old(s3.trace) <= s3.trace && Extends(old(live.epochs), live.epochs)
      ensures generation !in old(host.issued) && old(host.issued) <= host.issued && old(host.clock) <= host.clock
      ensures hasReadTransaction == old(hasReadTransaction)
      ensures SameElsewhere(old(s3.objects), s3.objects, generation)
      ensures r.Ok? ==> Valid() && SameEpoch() && shipped == [] && walHeaderSalt.None?
      ensures r.Ok? ==> snapshot == old(live.file) && Position() == old(SnapshotPoint())
      ensures r.Ok? ==> old(host.clock) <= manifest.createdAtMs <= manifest.snapshotTimestampMs == host.clock
      ensures RestoresEither(|old(s3.trace)|, RestoreLatest(cfg, old(s3.objects)), Ok(Files(old(live.file), None)))
      ensures old(points) <= points && (LastOf(old(points)).Some? ==> Placed(points, |old(points)| - 1))
      ensures r.Ok? && old(points) != [] ==>
                |points| == |old(points)| + 3 && points[|points| - 4] == LastOf(old(points))
      ensures Leads(old(points), old(SnapshotPoint())) ==> Ascending(points, |old(points)| - 1)
      ensures Onward(cfg, old(Moment()), Moment())
      ensures r.Ok? ==> s3.failures == old(s3.failures)
      ensures r.Err? ==> s3.failures == old(s3.failures) + 1 || (s3.failures == old(s3.failures) && !Able(cfg))
      ensures shutdownComplete == old(shutdownComplete)
      ensures old(host.clock) <= manifest.createdAtMs <= host.clock && manifest.generation == generation
      ensures r.Ok? ==> walOffset == 0 && walIndex == 0 && manifest.segments == []
    {
      hide *;
      ghost var start := FilePoint();
      ghost var m0 := Standing();
      ghost var p0, held := points, shipped;
      NewGeneration();
      ghost var footing := Footing();
      ghost var m1 := Moment();
      OnwardClock(m0);
      r := Snapshot(Fresh);
      FreshStages(p0, points, start, footing, held);
      OnwardOn(cfg, m0, m1, Moment());
    }

    lemma Standing() returns (m: Past.Moment)
      ensures m == Moment() && m.objects == s3.objects && m.ledger == ledger && m.clock == host.clock
    {
      m := Moment();
    }

    lemma OnwardClock(m0: Past.Moment)
      requires m0.objects == s3.objects && m0.ledger == ledger && m0.clock <= host.clock
      ensures Onward(cfg, m0, Moment())
    {
      hide SamePast;
      SamePastReflexive(cfg, m0.objects, m0.clock);
    }

    /** The stages of a new generation's snapshot: what was there before, then the snapshot. */
    lemma FreshStages(before: Places, after: Places, start: Point, footing: Point, held: Bytes)
      requires Staged(before, after, AfterSnapshot(Fresh, LastOf(before), footing, held), AfterMarker(Fresh, start,
                 footing, held), Some(start))
      requires LastOf(before).Some? ==> LastOf(before).value.epoch <= start.epoch
      ensures before <= after && (LastOf(before).Some? ==> Placed(after, |before| - 1))
      ensures |after| == |before| + 3 && before != [] ==> after[|after| - 4] == LastOf(before)
      ensures Leads(before, start) ==> Ascending(after, |before| - 1)
      ensures Unbroken(before) ==> Unbroken(after)
    {
      hide Staged, Placed, Ascending, AtMost, Unbroken;
      if Unbroken(before) {
        StagedUnbroken(before, after, start);
      }
      StagedPlaces(before, after, LastOf(before), Some(start), Some(start));
      if Leads(before, start) {
        StagedAscends(before, after, LastOf(before), start);
      }
    }

    /** After a discontinuity: a new generation with a fresh snapshot of the database as it is now. */
    method Recover() returns (r: Result<()>)
      requires Valid() && !SameEpoch()
      modifies this, s3, live, host, readConn`inTransaction
      ensures Intact() && old(s3.trace) <= s3.trace && Extends(old(live.epochs), live.epochs)
      ensures r.Ok? ==> Valid() && SameEpoch() && shipped == [] && walHeaderSalt.None? && hasReadTransaction
      ensures generation !in old(host.issued) && old(host.issued) <= host.issued && old(host.clock) <= host.clock
      ensures r.Ok? ==> snapshot == old(live.file) && Position() == old(SnapshotPoint())
      ensures RestoresEither(|old(s3.trace)|, RestoreLatest(cfg, old(s3.objects)), Ok(Files(old(live.file), None)))
      ensures old(points) <= points && Ascending(points, |old(points)| - 1)
      ensures SameElsewhere(old(s3.objects), s3.objects, generation)
      ensures Onward(cfg, old(Moment()), Moment())
      ensures r.Ok? ==> s3.failures == old(s3.failures)
      ensures r.Err? ==> s3.failures == old(s3.failures) + 1 || (s3.failures == old(s3.failures) && !Able(cfg))
      ensures shutdownComplete == old(shutdownComplete)
      ensures hasReadTransaction == r.Ok?
      ensures old(host.clock) <= manifest.createdAtMs <= host.clock && manifest.generation == generation
      ensures r.Ok? ==> walOffset == 0 && walIndex == 0 && manifest.segments == []
      ensures r.Ok? ==> manifest.createdAtMs <= manifest.snapshotTimestampMs == host.clock
      ensures r.Ok? ==> |points| == |old(points)| + 3
    {
      hide Sound, Shows, Tracked, S3Client.Valid, LiveDatabase.Valid, LawfulCodecs, LawfulFormats, Registered,
        RestoreLatest, Accounted, Extends, Published, BeforeSnapshot, IndicesBelow, TimesUpTo, FileShows,
        SameElsewhere, Onward, Placed;
      EndReadTransaction();
      r := Restart();
      if r.Err? {
        return;
      }
      BeginReadTransaction();
    }

    /** The same, with the application running on between the read of the WAL and of the file. */
    method RecoverLater() returns (r: Result<()>)
      requires Valid() && !SameEpoch()
      modifies this, s3, live, host, readConn`inTransaction
      ensures Intact() && old(s3.trace) <= s3.trace && Extends(old(live.epochs), live.epochs)
      ensures r.Ok? ==> Valid() && shipped == [] && walHeaderSalt.None? && hasReadTransaction
      ensures generation !in old(host.issued) && old(host.issued) <= host.issued && old(host.clock) <= host.clock
      ensures old(points) <= points && Ascending(points, |old(points)| - 1)
      ensures SameElsewhere(old(s3.objects), s3.objects, generation)
      ensures Onward(cfg, old(Moment()), Moment())
      ensures r.Ok? ==> s3.failures == old(s3.failures)
      ensures r.Err? ==> s3.failures == old(s3.failures) + 1 || (s3.failures == old(s3.failures) && !Able(cfg))
      ensures shutdownComplete == old(shutdownComplete)
      ensures hasReadTransaction == r.Ok?
      ensures old(host.clock) <= manifest.createdAtMs <= host.clock && manifest.generation == generation
      ensures r.Ok? ==> walOffset == 0 && walIndex == 0 && manifest.segments == []
      ensures r.Ok? ==> manifest.createdAtMs <= manifest.snapshotTimestampMs == host.clock
      ensures r.Ok? ==> |points| == |old(points)| + 3
    {
      hide Sound, Shows, Tracked, S3Client.Valid, LiveDatabase.Valid, LawfulCodecs, LawfulFormats, Registered,
        RestoreLatest, Accounted, Published, IndicesBelow, TimesUpTo, FileShows, SameElsewhere, Ascending, Onward;
      ghost var e0 := live.epochs;
      Meanwhile(true);
      ValidWhile(e0);
      ghost var e1 := live.epochs;
      r := Recover();
      ExtendsTransitive(e0, e1, live.epochs);
    }

    predicate WalNeedsRecovery(wal: Bytes)
      reads this
    {
      CheckDiscontinuity(walOffset, walHeaderSalt, wal)
    }

    /** What shipping the aligned part of the live WAL would achieve. */
    lemma ShippingReachesTip(captured: Option<Bytes>)
      requires Valid() && SameEpoch() && |live.Wal()| > WAL_HEADER_SIZE && captured == Some(SaltOf(live.Wal()))
      ensures walHeaderSalt.Some? ==> walHeaderSalt == captured
      ensures Following(cfg, live.epochs, epoch, snapshot, snapFrames, shipped, captured)
      ensures Unshipped() ==>
                var goal := live.Wal()[..AlignedLen(live.Wal())];
                && walOffset < |goal| && shipped <= goal && Carries(cfg, goal[walOffset..])
                && Following(cfg, live.epochs, epoch, snapshot, snapFrames, goal, captured)
                && AtMost(Position(), Here(epoch, snapFrames, goal))
                && Here(epoch, snapFrames, goal) == Tip(live.epochs)
                && Open(cfg, FilesOf(snapshot, goal)) == live.Content()
    {
      hide Sound, Shows, Tracked, S3Client.Valid, Lawful, Registered, RestoreLatest, Published, StateAt, Observe,
        FileShows, Open, Accounted, EpochGrows, Holds, Play;
      var wal := live.Wal();
      FramesOfAligned(wal);
      ShipNext(cfg, live.epochs, epoch, snapshot, snapFrames, shipped, walHeaderSalt, captured);
      if Unshipped() {
        var goal := wal[..AlignedLen(wal)];
        live.ContentIsTip();
        BelongsShows(cfg, live.epochs, epoch, snapshot, snapFrames, goal);
        CutCarried(cfg, wal, walOffset, |goal|);
        assert goal[walOffset..] == wal[walOffset..|goal|];
      }
    }

    /** The rest of sync_wal() once the WAL read is known to continue the epoch being followed. */
    method SyncFollowed(walData: Bytes) returns (r: Result<bool>)
      requires Valid() && SameEpoch() && walData == live.Wal() && |walData| > WAL_HEADER_SIZE
      modifies this, s3, live, host`clock
      ensures Intact() && old(s3.trace) <= s3.trace && Extends(old(live.epochs), live.epochs)
      ensures r.Ok? ==> Valid() && r.value == old(Unshipped())
      ensures r.Err? ==>
                && old(walOffset) <= AlignedLen(walData)
                && SyncFailed(old(manifest), old(walIndex), old(walOffset), AlignedLen(walData) - old(walOffset))
      ensures hasReadTransaction == old(hasReadTransaction)
      ensures old(points) <= points && Ascending(points, |old(points)| - 1)
      ensures SameElsewhere(old(s3.objects), s3.objects, generation)
      ensures generation == old(generation) && epoch == old(epoch) && snapshot == old(snapshot)
      ensures r.Ok? ==> shipped == if r.value then walData[..AlignedLen(walData)] else old(shipped)
      ensures r == Ok(true) ==>
                Open(cfg, FilesOf(snapshot, shipped)) == old(live.Content()) && Position() == old(Tip(live.epochs))
      ensures r == Ok(true) ==>
                && manifest == old(manifest).(segments := manifest.segments)
                && manifest.segments ==
                     old(manifest.segments) + [SegmentMeta(old(walIndex), host.clock, old(walOffset),
                                                           AlignedLen(walData) - old(walOffset))]
      ensures r == Ok(false) ==> manifest == old(manifest) && Position() == old(Position())
      ensures r.Ok? ==> walIndex == old(walIndex) + if r.value then 1 else 0
      ensures walHeaderSalt == Some(SaltOf(walData))
      ensures old(host.clock) <= host.clock
      ensures r == Ok(false) ==> s3.objects == old(s3.objects)
      ensures RestoresEither(|old(s3.trace)|, RestoreLatest(cfg, old(s3.objects)), Ok(FilesOf(old(snapshot),
                walData[..AlignedLen(walData)])))
      ensures Onward(cfg, old(Moment()), Moment())
      ensures r.Ok? ==> s3.failures == old(s3.failures)
      ensures r.Err? ==> s3.failures == old(s3.failures) + 1 || (s3.failures == old(s3.failures) && !Able(cfg))
      ensures shutdownComplete == old(shutdownComplete)
    {
      hide SyncFailed;
      hide Sound, Shows, Tracked, Registered, S3Client.Valid, LiveDatabase.Valid, LawfulCodecs, LawfulFormats,
        RestoreLatest, Published, Following, SameElsewhere, Ascending, AtMost, Carries, AlignedLen, Open, IndicesBelow,
        TimesUpTo, Extends, LiveDatabase.Content, Accounted, Onward, AlignedCuts;
      OnwardStill(cfg, Moment());
      ShippingReachesTip(Some(SaltOf(walData)));
      FramesOfAligned(walData);
      ExtendsReflexive(live.epochs);
      PutNothing(s3.objects);
      AscendingStart(points);
      if walHeaderSalt.None? && |walData| >= WAL_SALT_OFFSET + WAL_SALT_LEN {
        walHeaderSalt := Some(SaltOf(walData));
      }
      var alignedLen := AlignedLen(walData);
      if alignedLen <= WAL_HEADER_SIZE || alignedLen <= walOffset {
        return Ok(false);
      }
      var goal := walData[..alignedLen];
      assert goal[walOffset..] == walData[walOffset..alignedLen];
      var ok := ShipSegment(walData[walOffset..alignedLen], goal);
      r := if ok then Ok(true) else Err(S3);
    }

    /**
     Ships the complete frames written since the last sync. True means that the store now
     restores to exactly what the application sees; an ended epoch starts a new generation.
     */
    method SyncWal() returns (r: Result<bool>)
      requires Valid()
      modifies this, s3, live, host, readConn`inTransaction
      ensures Intact() && old(s3.trace) <= s3.trace && Extends(old(live.epochs), live.epochs)
      ensures r.Ok? ==> Valid() && (old(hasReadTransaction) ==> hasReadTransaction)
      ensures old(host.issued) <= host.issued && old(host.clock) <= host.clock
      // At every moment a reader restores a position that is no older than any before.
      ensures old(points) <= points && Ascending(points, |old(points)| - 1)
      ensures SameElsewhere(old(s3.objects), s3.objects, generation)
      // Restores to times past are none of its business.
      ensures Onward(cfg, old(Moment()), Moment())
      // True: the restored database is the live one, exactly.
      ensures r == Ok(true) ==>
                && RestoreLatest(cfg, s3.objects).Ok?
                && Open(cfg, RestoreLatest(cfg, s3.objects).value) == old(live.Content())
      // While the epoch lasts: what is shipped, when, and what a crash can leave.
      ensures old(SameEpoch()) ==> generation == old(generation) && epoch == old(epoch) && snapshot == old(snapshot)
      ensures old(SameEpoch()) && r.Ok? ==>
                && r.value == old(Unshipped())
                && Position() == (if r.value then old(Tip(live.epochs)) else old(Position()))
                && walIndex == old(walIndex) + (if r.value then 1 else 0)
                && manifest == old(manifest).(segments := manifest.segments)
                && manifest.segments == old(manifest.segments)
                     + (if r.value
                        then [SegmentMeta(old(walIndex), host.clock, old(walOffset),
                                          AlignedLen(old(live.Wal())) - old(walOffset))]
                        else [])
                && shipped == (if r.value then old(live.Wal())[..AlignedLen(old(live.Wal()))] else old(shipped))
      ensures old(SameEpoch()) ==>
                RestoresEither(|old(s3.trace)|, RestoreLatest(cfg, old(s3.objects)),
                               Ok(FilesOf(old(snapshot), old(live.Wal())[..AlignedLen(old(live.Wal()))])))
      // An error leaves the manager in order unless it was the manifest that could not be uploaded.
      ensures old(SameEpoch()) && r.Err? ==>
                && old(walOffset) <= AlignedLen(old(live.Wal()))
                && SyncFailed(old(manifest), old(walIndex), old(walOffset),
                              AlignedLen(old(live.Wal())) - old(walOffset))
      ensures r.Err? && generation == old(generation) && manifest == old(manifest) ==> Valid()
      ensures r.Err? && old(SameEpoch()) ==> manifest == old(manifest).(segments := manifest.segments)
      // The salt is captured as soon as there is a frame, whole or torn.
      ensures old(SameEpoch()) && |old(live.Wal())| > WAL_HEADER_SIZE ==> walHeaderSalt == Some(SaltOf(old(live.Wal())))
      // Without a frame nothing happens.
      ensures |old(live.Wal())| <= WAL_HEADER_SIZE ==>
                && r == Ok(false) && s3.trace == old(s3.trace) && manifest == old(manifest)
                && walOffset == old(walOffset) && walIndex == old(walIndex) && walHeaderSalt == old(walHeaderSalt)
      // After a reset: nothing of the new epoch joins the old generation.
      ensures !old(SameEpoch()) && |old(live.Wal())| > WAL_HEADER_SIZE ==>
                generation !in old(host.issued) && r != Ok(true)
      ensures !old(SameEpoch()) && |old(live.Wal())| > WAL_HEADER_SIZE && r.Ok? ==>
                && shipped == [] && walHeaderSalt.None? && walOffset == 0 && walIndex == 0 && manifest.segments == []
                && manifest.createdAtMs <= manifest.snapshotTimestampMs == host.clock
                && |points| == |old(points)| + 3
      // The read transaction is left alone, but for a recovery: held after it if and only if that succeeded.
      ensures hasReadTransaction ==
                if !old(SameEpoch()) && |old(live.Wal())| > WAL_HEADER_SIZE then r.Ok? else old(hasReadTransaction)
      // A generation keeps its time of creation.
      ensures if generation == old(generation) then manifest.createdAtMs == old(manifest.createdAtMs)
              else generation !in old(host.issued) && old(host.clock) <= manifest.createdAtMs <= host.clock
      ensures r.Ok? ==> s3.failures == old(s3.failures)
      ensures r.Err? ==> s3.failures == old(s3.failures) + 1 || (s3.failures == old(s3.failures) && !Able(cfg))
      ensures shutdownComplete == old(shutdownComplete)
    {
      hide *;
      SyncFacts();
      if !live.walExists {
        return Ok(false);
      }
      var walData := live.Wal();
      if |walData| <= WAL_HEADER_SIZE {
        return Ok(false);
      }
      if WalNeedsRecovery(walData) {
        var recovered := RecoverLater();
        return if recovered.Ok? then Ok(false) else Err(recovered.error);
      }
      r := SyncFollowed(walData);
      if r.Ok? {
        SegmentsHoldShipped();
      } else {
        FailedInOrder(old(manifest), old(walIndex), old(walOffset), AlignedLen(walData) - old(walOffset));
      }
    }

    /** What sync_wal() can rely on when it starts. */
    lemma SyncFacts()
      requires Valid()
      ensures Intact() && live.epochs != [] && Ascending(points, |points| - 1)
      ensures SameElsewhere(s3.objects, s3.objects, generation)
      ensures Extends(live.epochs, live.epochs) && RestoresEither(|s3.trace|, Err(S3), Err(S3))
      ensures forall a, b :: RestoresEither(|s3.trace|, a, b)
      ensures Onward(cfg, Moment(), Moment())
      ensures !live.walExists ==> live.Wal() == []
      ensures |live.Wal()| <= WAL_HEADER_SIZE ==> !Unshipped()
      ensures |live.Wal()| > WAL_HEADER_SIZE ==> (WalNeedsRecovery(live.Wal()) <==> !SameEpoch())
      ensures |shipped| == walOffset && generation in host.issued
    {
      hide Sound, Shows, Tracked, Registered, S3Client.Valid, Lawful, Published, SameElsewhere, Ascending, AlignedLen,
        IndicesBelow, TimesUpTo, Extends, FileShows, SaltsDistinct, Chained, CarriesCuts, CheckDiscontinuity,
        AlignedCuts, Accounted, Onward;
      OnwardStill(cfg, Moment());
      ExtendsReflexive(live.epochs);
      PutNothing(s3.objects);
      AscendingStart(points);
      if |live.Wal()| > WAL_HEADER_SIZE {
        DiscontinuityIsReset(cfg, live.epochs, epoch, snapshot, snapFrames, shipped, walHeaderSalt);
      }
    }

    /** The WAL has complete frames past what has been shipped. */
    ghost predicate Unshipped()
      requires live.epochs != []
      reads this, live
    {
      AlignedLen(live.Wal()) > WAL_HEADER_SIZE && AlignedLen(live.Wal()) > walOffset
    }

    /** The TRUNCATE checkpoint; the store is not involved. */
    method Truncate() returns (ok: bool)
      requires Intact()
      modifies live, readConn`checkpoints, readConn`heldUp
      ensures readConn.checkpoints == old(readConn.checkpoints) + 1
      ensures old(readConn.heldUp) <= readConn.heldUp <= old(readConn.heldUp) + 1
      ensures Intact() && Extends(old(live.epochs), live.epochs)
      ensures ok && readConn.heldUp == old(readConn.heldUp) ==> |live.epochs| == |old(live.epochs)| + 1
      ensures !ok ==> readConn.heldUp == old(readConn.heldUp)
      ensures !ok || readConn.heldUp != old(readConn.heldUp) ==> live.epochs == old(live.epochs)
      ensures ok <==> !readConn.inTransaction && !readConn.refuses(old(readConn.checkpoints))
    {
      hide Sound, Shows, Tracked, Registered, LawfulCodecs, LawfulFormats, S3Client.Valid, LiveDatabase.Valid, Extends,
        Accounted;
      ok := live.CheckpointTruncate(readConn);
      HistoryGrows(old(live.epochs));
    }

    /** The read transaction makes way for the checkpoint; the application runs before and after it. */
    method ReleaseAndTruncate() returns (ok: bool)
      requires Intact()
      modifies live, this`hasReadTransaction, readConn
      ensures Intact() && !hasReadTransaction && Extends(old(live.epochs), live.epochs)
      ensures readConn.checkpoints == old(readConn.checkpoints) + 1
      ensures old(readConn.heldUp) <= readConn.heldUp <= old(readConn.heldUp) + 1
      ensures ok && readConn.heldUp == old(readConn.heldUp) ==> |live.epochs| > |old(live.epochs)|
      ensures !readConn.inTransaction && (ok <==> !readConn.refuses(old(readConn.checkpoints)))
    {
      hide *;
      ghost var e0 := live.epochs;
      Meanwhile(true);
      ghost var e1 := live.epochs;
      EndReadTransaction();
      ok := Truncate();
      ghost var e2 := live.epochs;
      Meanwhile(true);
      ExtendsTransitive(e0, e1, e2);
      ExtendsTransitive(e0, e2, live.epochs);
      ExtendsCount(e0, e1);
      ExtendsCount(e2, live.epochs);
    }

    /** The second half of checkpoint(): the TRUNCATE, and a new generation from the file it leaves. */
    method TruncateAndRestart(ghost synced: Point) returns (r: Result<()>)
      requires Intact() && LastOf(points) == Some(synced) && synced.epoch < |live.epochs|
      modifies this, s3, live, host, readConn
      ensures readConn.checkpoints == old(readConn.checkpoints) + 1
      // The WAL is pinned again once the TRUNCATE has reported success, even if the snapshot then fails.
      ensures hasReadTransaction == readConn.inTransaction == !readConn.refuses(old(readConn.checkpoints))
      // A TRUNCATE that is refused ends it there.
      ensures readConn.refuses(old(readConn.checkpoints)) ==>
                && r.Err? && s3.failures == old(s3.failures) && s3.trace == old(s3.trace)
                && generation == old(generation) && manifest == old(manifest) && host.clock == old(host.clock)
      ensures !readConn.refuses(old(readConn.checkpoints)) ==>
                && generation !in old(host.issued) && old(host.clock) <= manifest.createdAtMs <= host.clock
      ensures r.Ok? ==> s3.failures == old(s3.failures) && walOffset == 0 && walIndex == 0 && manifest.segments == []
      ensures r.Err? && !readConn.refuses(old(readConn.checkpoints)) ==>
                s3.failures == old(s3.failures) + 1 || (s3.failures == old(s3.failures) && !Able(cfg))
      ensures old(readConn.heldUp) <= readConn.heldUp <= old(readConn.heldUp) + 1
      ensures Intact() && old(s3.trace) <= s3.trace && Extends(old(live.epochs), live.epochs)
      ensures r.Ok? ==> Valid() && SameEpoch() && shipped == [] && hasReadTransaction && generation !in old(host.issued)
      ensures old(host.issued) <= host.issued && old(host.clock) <= host.clock
      ensures Onward(cfg, old(Moment()), Moment())
      ensures old(points) <= points && Placed(points, |old(points)| - 1)
      ensures readConn.heldUp == old(readConn.heldUp) ==> Ascending(points, |old(points)| - 1)
      ensures r.Ok? && readConn.heldUp == old(readConn.heldUp) ==> |live.epochs| > |old(live.epochs)|
      ensures r.Ok? ==>
                && |points| == |old(points)| + 3
                && points[|points| - 4] == Some(synced)
                && LastOf(points) == Some(Position())
      ensures r.Ok? && AtMost(synced, Position()) ==> Ascending(points, |old(points)| - 1)
      ensures r.Ok? ==> old(host.clock) <= manifest.createdAtMs <= manifest.snapshotTimestampMs == host.clock
      ensures shutdownComplete == old(shutdownComplete)
    {
      hide *;
      ghost var e0, p0 := live.epochs, points;
      ghost var m0 := Standing();
      AscendingStart(p0);
      AscendingIsPlaced(p0, |p0| - 1);
      OnwardStill(cfg, m0);
      var ok := ReleaseAndTruncate();
      ghost var e1 := live.epochs;
      if !ok {
        return Err(S3);
      }
      ghost var start := FilePoint();
      if readConn.heldUp == old(readConn.heldUp) {
        LaterEpoch(synced, start);
      }
      LeadsFrom(points, synced, start);
      r := Restart();
      ExtendsTransitive(e0, e1, live.epochs);
      ExtendsCount(e1, live.epochs);
      BeginReadTransaction();
      if r.Ok? {
        var _ := CurrentPosition();
      }
    }

    /**
     Syncs, backfills the WAL into the database file, and starts a new generation from it.
     `synced` is the position reached by the sync. Whether other readers held the checkpoint up is
     for the connection's counter to say.
     */
    method Checkpoint() returns (r: Result<()>, ghost synced: Point)
      requires Valid()
      modifies this, s3, live, host, readConn
      ensures r.Ok? ==>
                && readConn.checkpoints == old(readConn.checkpoints) + 1
                && !readConn.refuses(old(readConn.checkpoints)) && s3.failures == old(s3.failures)
      // If the sync fails no checkpoint is asked for, and the read transaction is as the sync leaves it.
      ensures readConn.checkpoints == old(readConn.checkpoints) ==>
                && r.Err? && hasReadTransaction == (old(SameEpoch()) && old(hasReadTransaction))
                && (s3.failures == old(s3.failures) + 1 || (s3.failures == old(s3.failures) && !Able(cfg)))
      // If it is refused the WAL stays unpinned; if not it is pinned in the end, even if the snapshot fails.
      ensures readConn.checkpoints != old(readConn.checkpoints) ==>
                && readConn.checkpoints == old(readConn.checkpoints) + 1
                && hasReadTransaction == readConn.inTransaction == !readConn.refuses(old(readConn.checkpoints))
                && (readConn.refuses(old(readConn.checkpoints)) ==> r.Err? && s3.failures == old(s3.failures))
                && (r.Err? && !readConn.refuses(old(readConn.checkpoints)) ==>
                      s3.failures == old(s3.failures) + 1 || (s3.failures == old(s3.failures) && !Able(cfg)))
      ensures if generation == old(generation) then manifest.createdAtMs == old(manifest.createdAtMs)
              else generation !in old(host.issued) && old(host.clock) <= manifest.createdAtMs <= host.clock
      ensures r.Ok? ==> walOffset == 0 && walIndex == 0 && manifest.segments == []
      ensures r.Ok? && !old(SameEpoch()) && |old(live.Wal())| > WAL_HEADER_SIZE ==> |points| == |old(points)| + 6
      ensures old(readConn.heldUp) <= readConn.heldUp <= old(readConn.heldUp) + 1
      ensures Intact() && old(s3.trace) <= s3.trace && Extends(old(live.epochs), live.epochs)
      ensures r.Ok? ==> Valid() && SameEpoch() && shipped == [] && hasReadTransaction && generation !in old(host.issued)
      ensures old(host.issued) <= host.issued && old(host.clock) <= host.clock
      ensures Onward(cfg, old(Moment()), Moment())
      ensures old(points) <= points && Placed(points, |old(points)| - 1)
      // Not held up: no reader is ever taken back, not even if some step fails.
      ensures readConn.heldUp == old(readConn.heldUp) ==> Ascending(points, |old(points)| - 1)
      ensures r.Ok? && readConn.heldUp == old(readConn.heldUp) ==> |live.epochs| > |old(live.epochs)|
      // Held up or not: readers are not taken back if and only if the backfill reached the synced position.
      ensures r.Ok? ==> |points| >= |old(points)| + 3 && points[|points| - 4] == Some(synced)
      ensures r.Ok? ==> (Ascending(points, |old(points)| - 1) <==> AtMost(synced, Position()))
      // While the epoch lasts, everything in the WAL is shipped first.
      ensures old(SameEpoch()) && r.Ok? ==>
                synced == if old(Unshipped()) then old(Tip(live.epochs)) else old(Position())
      ensures r.Ok? ==> old(host.clock) <= manifest.createdAtMs <= manifest.snapshotTimestampMs == host.clock
      ensures shutdownComplete == old(shutdownComplete)
    {
      hide *;
      var _ := CurrentPosition();
      ghost var m0 := Standing();
      ghost var p0, e0 := points, live.epochs;
      var sync := SyncWal();
      synced := Position();
      AscendingIsPlaced(points, |p0| - 1);
      if sync.Err? {
        return Err(sync.error), synced;
      }
      ghost var p1, e1 := points, live.epochs;
      var _ := CurrentPosition();
      ghost var m1 := Standing();
      r := TruncateAndRestart(synced);
      ExtendsTransitive(e0, e1, live.epochs);
      ExtendsCount(e0, e1);
      if readConn.heldUp == old(readConn.heldUp) {
        AscendingOn(p0, p1, points);
      }
      if r.Ok? {
        AscendingThrough(p0, p1, points, synced, Position());
      }
      PlacedOn(p0, p1, points);
      OnwardOn(cfg, m0, m1, Moment());
    }

    /** The position is inside the history, and is the last one tracked. */
    lemma CurrentPosition() returns (p: Point)
      requires Valid()
      ensures p == Position() && p.epoch < |live.epochs| && LastOf(points) == Some(p) && points != []
      ensures generation in host.issued
      ensures Intact() && |points| == |s3.trace|
    {
      p := Position();
    }

    lemma LaterEpoch(p: Point, q: Point)
      requires p.epoch < q.epoch
      ensures AtMost(p, q)
    {
    }

    lemma ExtendsCount(a: seq<Epoch>, b: seq<Epoch>)
      requires Extends(a, b)
      ensures |a| <= |b|
    {
    }

    /** A last, best-effort sync, whose failure is swallowed, and the read transaction is given back. */
    method Shutdown()
      requires !shutdownComplete ==> Valid()
      requires live.epochs != []
      modifies this, s3, live, host, readConn`inTransaction
      ensures shutdownComplete
      ensures old(shutdownComplete) ==>
                s3.trace == old(s3.trace) && points == old(points) && hasReadTransaction == old(hasReadTransaction)
      ensures !old(shutdownComplete) ==>
                && Intact() && !hasReadTransaction && old(s3.trace) <= s3.trace
                && old(points) <= points && Ascending(points, |old(points)| - 1) && Onward(cfg, old(Moment()), Moment())
                && (generation == old(generation) && manifest == old(manifest) ==> Valid())
                && (!old(SameEpoch()) && |old(live.Wal())| > WAL_HEADER_SIZE ==> generation !in old(host.issued))
      // As long as no call fails, everything complete has been shipped.
      ensures !old(shutdownComplete) && s3.failures == old(s3.failures) && Able(cfg) ==>
                && Valid()
                && (old(SameEpoch()) && old(Unshipped()) ==>
                      && RestoreLatest(cfg, s3.objects).Ok? && Position() == old(Tip(live.epochs))
                      && Open(cfg, RestoreLatest(cfg, s3.objects).value) == old(live.Content()))
    {
      hide Sound, Shows, Tracked, S3Client.Valid, LiveDatabase.Valid, LawfulCodecs, LawfulFormats, Registered,
        RestoreLatest, Extends, Published, IndicesBelow, TimesUpTo, Following, SameElsewhere, LiveDatabase.Content,
        Open, RestoresEither, Unshipped, Ascending, Accounted, Onward, AlignedCuts;
      if shutdownComplete {
        return;
      }
      var _ := SyncWal();
      EndReadTransaction();
      shutdownComplete := true;
    }

    /**
     Starts a manager on a database: read transaction, new generation, first snapshot. The store
     may hold what earlier managers left behind, finished or not; `past` is what is known about
     their generations and `places` what the durable states so far have shown.
     */
    static method New(cfg: BackupConfig, s3: S3Client, live: LiveDatabase, host: Host, readConn: Connection,
                      ghost past: Ledger, ghost places: Places)
      returns (r: Result<BackupManager>, ghost known: Ledger, ghost shown: Places)
      requires Resumable(cfg, s3, live, host, past, places)
      modifies s3, live, host, readConn`inTransaction
      ensures Resumable(cfg, s3, live, host, known, shown)
      ensures old(s3.trace) <= s3.trace && Extends(old(live.epochs), live.epochs) && old(host.issued) <= host.issued
      ensures r.Ok? ==>
                && fresh(r.value) && r.value.cfg == cfg && r.value.s3 == s3 && r.value.live == live
                && r.value.host == host
                && r.value.readConn == readConn && r.value.Valid() && r.value.hasReadTransaction
                && r.value.Position() == old(Point(|live.epochs| - 1, live.backfilled))
                && r.value.ledger == known && r.value.points == shown && r.value.generation !in old(host.issued)
      ensures forall t :: |old(s3.trace)| <= t < |s3.trace| ==>
                || RestoreLatest(cfg, s3.trace[t]) == RestoreLatest(cfg, old(s3.objects))
                || RestoreLatest(cfg, s3.trace[t]) == Ok(Files(old(live.file), None))
      ensures places <= shown && (LastOf(places).Some? ==> Placed(shown, |places| - 1))
      ensures (Unbroken(places) ==> Unbroken(shown))
      ensures Leads(places, old(Point(|live.epochs| - 1, live.backfilled))) ==> Ascending(shown, |places| - 1)
      ensures UnplacedAsBefore(cfg, s3.trace, shown, |old(s3.trace)|, RestoreLatest(cfg, old(s3.objects)))
      ensures Onward(cfg, old(Past.Moment(s3.objects, past, host.clock)), Past.Moment(s3.objects, known, host.clock))
      ensures r.Ok? ==> s3.failures == old(s3.failures)
      ensures r.Err? ==> s3.failures == old(s3.failures) + 1 || (s3.failures == old(s3.failures) && !Able(cfg))
      ensures old(host.clock) <= host.clock
      ensures r.Ok? ==> r.value.walOffset == 0 && r.value.walIndex == 0 && r.value.walHeaderSalt.None?
      ensures r.Ok? ==> !r.value.shutdownComplete
      // The generation is stamped with the time at which it starts.
      ensures r.Ok? ==>
                && r.value.manifest.generation == r.value.generation && r.value.manifest.segments == []
                && old(host.clock) <= r.value.manifest.createdAtMs <= r.value.manifest.snapshotTimestampMs == host.clock
                && r.value.snapshot == old(live.file) && r.value.shipped == []
    {
      hide Sound, Shows, S3Client.Valid, LawfulCodecs, LawfulFormats, Registered, RestoreLatest, Extends, Published,
        Accounted, Tracked, Following, SameElsewhere, Unused, LiveDatabase.Valid, Onward, Placed, Ascending, Staged,
        AfterSnapshot, AfterMarker, AtMost, Unbroken;
      readConn.inTransaction := true;
      ghost var issued, held := host.issued, [];
      ghost var m0 := Past.Moment(s3.objects, past, host.clock);
      var generation := host.NewUuid();
      var ts := host.NowMs();
      var mgr := new BackupManager(cfg, s3, live, host, readConn, generation, ts, past, places);
      NewIdUnused(cfg, s3.objects, issued, generation);
      ghost var start := mgr.FilePoint();
      ghost var m1 := mgr.Standing();
      mgr.OnwardClock(m0);
      held := mgr.shipped;
      ghost var footing := mgr.Footing();
      var done := mgr.Snapshot(Fresh);
      mgr.FreshStages(places, mgr.points, start, footing, held);
      OnwardOn(cfg, m0, m1, mgr.Moment());
      known, shown := mgr.ledger, mgr.points;
      r := if done.Ok? then Ok(mgr) else Err(done.error);
    }

    // ---------- compaction ----------

    /** now_ms() while the bookkeeping is in order. */
    method Now() returns (t: nat)
      requires Valid()
      modifies host`clock
      ensures Valid() && t == host.clock && host.clock >= old(host.clock)
    {
      hide Sound, Shows, Tracked, Registered, S3Client.Valid, LiveDatabase.Valid, Lawful, Published, Following,
        IndicesBelow;
      t := host.NowMs();
    }

    /** Uploads one chunk under `index` and describes it. */
    method UploadChunk(index: nat, offset: nat, chunk: Bytes, ghost segments: seq<SegmentMeta>, ghost held: Bytes)
      returns (r: Result<SegmentMeta>)
      requires Valid() && walHeaderSalt.Some? && Carries(cfg, chunk) && chunk != [] && offset == |held|
      requires walIndex <= index && Holds(cfg, s3.objects, generation, segments, held)
      requires IndicesBelow(segments, index) && TimesUpTo(segments, host.clock)
      modifies s3, live, this`points, this`ledger, host`clock
      ensures Valid() && Extends(old(live.epochs), live.epochs) && old(host.clock) <= host.clock
      ensures s3.trace == old(s3.trace) || s3.trace == old(s3.trace) + [s3.objects]
      ensures (points == old(points) || points == old(points) + [Some(Position())]) && ledger == old(ledger)
      ensures RestoreLatest(cfg, s3.objects) == RestoreLatest(cfg, old(s3.objects))
      ensures SameElsewhere(old(s3.objects), s3.objects, generation)
      ensures SamePast(cfg, old(s3.objects), s3.objects, old(host.clock))
      ensures r.Ok? ==>
                && r.value.index == index && r.value.offset == offset && r.value.size == |chunk|
                && old(host.clock) <= r.value.timestampMs == host.clock
                && Holds(cfg, s3.objects, generation, segments + [r.value], held + chunk)
                && IndicesBelow(segments + [r.value], index + 1) && TimesUpTo(segments + [r.value], host.clock)
      ensures r.Ok? ==> s3.failures == old(s3.failures)
      ensures r.Err? ==> s3.failures == old(s3.failures) + 1 || (s3.failures == old(s3.failures) && !Able(cfg))
    {
      hide Sound, Shows, Tracked, Registered, S3Client.Valid, LiveDatabase.Valid, LawfulCodecs, LawfulFormats,
        RestoreLatest, Extends, Published, Following, IndicesBelow, TimesUpTo, OwnKey, Holds, Carries, SameElsewhere,
        Accounted, Entered, AlignedCuts, Onward, SamePast;
      ExtendsReflexive(live.epochs);
      PutNothing(s3.objects);
      SamePastReflexive(cfg, s3.objects, host.clock);
      ghost var m0 := Moment();
      var encoded := PipelineEncode(chunk);
      if encoded.Err? {
        return Err(encoded.error);
      }
      var ok := UploadSegment(index, encoded.value, chunk, segments, held);
      OnwardPast(cfg, m0, Moment());
      if !ok {
        return Err(S3);
      }
      ghost var t0 := host.clock;
      var now := Now();
      r := Ok(SegmentMeta(index, now, offset, |chunk|));
      AppendKeepsOrder(segments, index, t0, r.value);
    }

    /** The chunk loop of compact(): all the shipped bytes go up again under new indices. */
    method UploadChunks(allData: Bytes, maxSize: nat) returns (r: Result<seq<SegmentMeta>>)
      requires Valid() && walHeaderSalt.Some? && allData == shipped && maxSize > 0
      requires SafeToCompact(cfg, allData, maxSize)
      modifies s3, live, this`points, this`ledger, host`clock
      ensures Valid() && old(s3.trace) <= s3.trace && Extends(old(live.epochs), live.epochs)
      ensures old(points) <= points && StaysAt(points, |old(points)|, Position()) && ledger == old(ledger)
      ensures RestoreLatest(cfg, s3.objects) == RestoreLatest(cfg, old(s3.objects))
      ensures RestoresEither(|old(s3.trace)|, RestoreLatest(cfg, old(s3.objects)), RestoreLatest(cfg, old(s3.objects)))
      ensures SameElsewhere(old(s3.objects), s3.objects, generation)
      ensures old(host.clock) <= host.clock && SamePast(cfg, old(s3.objects), s3.objects, old(host.clock))
      ensures r.Ok? ==>
                && Holds(cfg, s3.objects, generation, r.value, allData) && Chunked(r.value, walIndex, maxSize)
                && IndicesBelow(r.value, walIndex + |r.value|) && TimesUpTo(r.value, host.clock)
                && StampedFrom(r.value, old(host.clock))
      ensures r.Ok? ==> s3.failures == old(s3.failures)
      ensures r.Err? ==> s3.failures == old(s3.failures) + 1 || (s3.failures == old(s3.failures) && !Able(cfg))
    {
      hide Valid, Intact, RestoreLatest, Extends, Holds, IndicesBelow, TimesUpTo, SameElsewhere, Carries, Here,
        Position, Chunked, FullChunks, SafeToCompact, SamePast;
      SamePastReflexive(cfg, s3.objects, host.clock);
      ExtendsReflexive(live.epochs);
      PutNothing(s3.objects);
      assert allData[0..] == allData;
      var newIndex := walIndex;
      var newSegments: seq<SegmentMeta> := [];
      var offset := 0;
      NothingHeld(walIndex, host.clock, maxSize);
      while offset < |allData|
        invariant 0 <= offset <= |allData| && newIndex == walIndex + |newSegments|
        invariant Valid() && old(s3.trace) <= s3.trace && Extends(old(live.epochs), live.epochs)
        invariant s3.failures == old(s3.failures)
        invariant old(points) <= points && StaysAt(points, |old(points)|, Position()) && ledger == old(ledger)
        invariant RestoreLatest(cfg, s3.objects) == RestoreLatest(cfg, old(s3.objects))
        invariant RestoresEither(|old(s3.trace)|, RestoreLatest(cfg, old(s3.objects)), RestoreLatest(cfg,
                    old(s3.objects)))
        invariant SameElsewhere(old(s3.objects), s3.objects, generation)
        invariant Holds(cfg, s3.objects, generation, newSegments, allData[..offset])
        invariant Chunked(newSegments, walIndex, maxSize)
        invariant offset < |allData| ==> FullChunks(newSegments, walIndex, maxSize)
        invariant SafeToCompact(cfg, allData[offset..], maxSize)
        invariant IndicesBelow(newSegments, newIndex) && TimesUpTo(newSegments, host.clock)
        invariant StampedFrom(newSegments, old(host.clock)) && old(host.clock) <= host.clock
        invariant SamePast(cfg, old(s3.objects), s3.objects, old(host.clock))
      {
        var end := if offset + maxSize < |allData| then offset + maxSize else |allData|;
        var chunk := allData[offset..end];
        NextIsCarried(cfg, allData[offset..], maxSize);
        assert chunk == allData[offset..][..end - offset] && allData[end..] == allData[offset..][end - offset..];
        ghost var e, o, t := live.epochs, s3.objects, host.clock;
        var added := UploadChunk(newIndex, offset, chunk, newSegments, allData[..offset]);
        ExtendsTransitive(old(live.epochs), e, live.epochs);
        SameElsewhereTransitive(old(s3.objects), o, s3.objects, generation);
        SamePastOn(cfg, old(s3.objects), o, s3.objects, old(host.clock), t);
        if added.Err? {
          return Err(added.error);
        }
        assert allData[..offset] + chunk == allData[..end];
        NextChunk(newSegments, walIndex, maxSize, added.value, end < |allData|);
        newSegments := newSegments + [added.value];
        offset := end;
        newIndex := newIndex + 1;
      }
      assert allData[..offset] == allData;
      r := Ok(newSegments);
    }

    lemma NothingHeld(next: nat, now: nat, maxSize: nat)
      ensures Holds(cfg, s3.objects, generation, [], shipped[..0])
      ensures IndicesBelow([], next) && TimesUpTo([], now) && Chunked([], next, maxSize)
      ensures FullChunks([], next, maxSize)
    {
    }

    /** A store that differs from the present one without any reader noticing. */
    ghost predicate Harmless(state: Objects)
      reads this, s3, live, host`issued
    {
      && Published(cfg, state, generation, manifest, snapshot, shipped)
      && Shows(cfg, state, live.epochs, Position())
      && RestoreLatest(cfg, state) == RestoreLatest(cfg, s3.objects)
      && Registered(cfg, state, host.issued)
      && Accounted(cfg, state, live.epochs, ledger)
    }

    /** delete_objects() on keys whose loss, of all or of some, is harmless. */
    method DeleteObjects(keys: seq<string>) returns (ok: bool)
      requires Valid() && forall state :: PartlyDeleted(s3.objects, keys, state) ==> Harmless(state)
      modifies s3, this`points
      ensures Valid() && old(s3.trace) <= s3.trace
      ensures old(points) <= points && StaysAt(points, |old(points)|, Position())
      ensures RestoresEither(|old(s3.trace)|, RestoreLatest(cfg, old(s3.objects)), RestoreLatest(cfg, old(s3.objects)))
      ensures RestoreLatest(cfg, s3.objects) == RestoreLatest(cfg, old(s3.objects))
      ensures forall t :: |old(s3.trace)| <= t < |s3.trace| ==> PartlyDeleted(old(s3.objects), keys, s3.trace[t])
      ensures PartlyDeleted(old(s3.objects), keys, s3.objects)
      ensures ok ==> s3.objects == Without(old(s3.objects), keys)
      ensures s3.failures == old(s3.failures) + if ok then 0 else 1
    {
      hide Sound, Shows, Tracked, Registered, LiveDatabase.Valid, Lawful, RestoreLatest, Published, Accounted, Entered,
        Following, IndicesBelow, TimesUpTo, PartlyDeleted, Without, Mirrors, FailedAmong, AlignedCuts, NoSlash;
      NoneDeleted(s3.objects, keys);
      ghost var o0 := s3.objects;
      ok := s3.DeleteObjects(keys);
      forall t | |old(s3.trace)| <= t < |s3.trace|
        ensures Fits(cfg, s3.trace[t], live.epochs, Some(Position()))
        ensures RestoreLatest(cfg, s3.trace[t]) == RestoreLatest(cfg, o0)
      {
        var state := s3.trace[t];
        assert old(Harmless(state));
        ShowsIsSound(state);
      }
      ghost var left := s3.objects;
      assert old(Harmless(left));
      ShowsIsSound(s3.objects);
      points := TrackedMore(cfg, old(s3.trace), s3.trace, live.epochs, points, Position());
    }

    /** Deletes objects that no restore of the current generation reads. */
    method RemoveObjects(keys: seq<string>, ghost present: nat) returns (ok: bool)
      requires Valid() && Orphans(generation, manifest.segments, keys)
      modifies s3, this`points
      ensures Valid() && old(s3.trace) <= s3.trace
      ensures old(points) <= points && StaysAt(points, |old(points)|, Position())
      ensures RestoresEither(|old(s3.trace)|, RestoreLatest(cfg, old(s3.objects)), RestoreLatest(cfg, old(s3.objects)))
      ensures SameElsewhere(old(s3.objects), s3.objects, generation)
      ensures SamePast(cfg, old(s3.objects), s3.objects, present)
      ensures ok ==> s3.objects == Without(old(s3.objects), keys)
      ensures s3.failures == old(s3.failures) + if ok then 0 else 1
    {
      hide Intact, Shows, Registered, RestoreLatest, Published, IndicesBelow, TimesUpTo, SameElsewhere, Orphans,
        PartlyDeleted, Without, AlignedCuts, Accounted, Entered, Belongs;
      StoreShape();
      ghost var o0 := s3.objects;
      forall state | PartlyDeleted(o0, keys, state)
        ensures Harmless(state) && SameElsewhere(o0, state, generation)
      {
        DeletionFits(cfg, o0, generation, manifest, snapshot, shipped, host.clock, live.epochs, epoch, snapFrames,
          host.issued, keys, state);
        MineStands(state);
      }
      ok := DeleteObjects(keys);
      OrphansPast(o0, keys, present);
    }

    /** No restore to any time reads what the manifest does not name. */
    lemma OrphansPast(before: Objects, keys: seq<string>, present: nat)
      requires Valid() && Orphans(generation, manifest.segments, keys) && PartlyDeleted(before, keys, s3.objects)
      requires Registered(cfg, before, host.issued) && Sound(cfg, before)
      requires SameElsewhere(before, s3.objects, generation)
      requires Published(cfg, before, generation, manifest, snapshot, shipped)
      ensures SamePast(cfg, before, s3.objects, present)
    {
      hide Registered, Sound, SameElsewhere, SamePast, Accounted, Tracked, Following, AlignedCuts, Holds, Fetch,
        OwnKey, IndicesBelow, TimesUpTo, S3Client.Valid, LiveDatabase.Valid, Lawful, Entered;
      HoldsFetch(cfg, before, generation, manifest.segments, shipped);
      UnreadStands(cfg, before, s3.objects, host.issued, host.issued, generation, present);
    }

    lemma StoreShape()
      requires Valid()
      ensures s3.Valid() && Registered(cfg, s3.objects, host.issued) && Sound(cfg, s3.objects)
      ensures Accounted(cfg, s3.objects, live.epochs, ledger)
    {
    }

    lemma ShowsIsSound(objects: Objects)
      ensures Shows(cfg, objects, live.epochs, Position()) ==> Sound(cfg, objects)
    {
    }

    lemma NoneDeleted(objects: Objects, keys: seq<string>)
      ensures PartlyDeleted(objects, keys, objects)
    {
      assert keys[..0] == [];
      assert objects == Without(objects, keys[..0]);
    }

    /** The turning point of compact(): the manifest names the new segments instead of the old. */
    method SwapSegments(newSegments: seq<SegmentMeta>) returns (ok: bool)
      requires Valid() && walHeaderSalt.Some?
      requires Holds(cfg, s3.objects, generation, newSegments, shipped)
      requires IndicesBelow(newSegments, walIndex + |newSegments|) && TimesUpTo(newSegments, host.clock)
      modifies s3, live, this
      ensures Intact() && Extends(old(live.epochs), live.epochs)
      ensures ok ==> Valid() && manifest.segments == newSegments && walIndex == old(walIndex) + |newSegments|
      ensures shipped == old(shipped) && epoch == old(epoch) && snapshot == old(snapshot)
      ensures snapFrames == old(snapFrames)
      ensures generation == old(generation) && walHeaderSalt == old(walHeaderSalt)
      ensures hasReadTransaction == old(hasReadTransaction)
      ensures s3.trace == old(s3.trace) || s3.trace == old(s3.trace) + [s3.objects]
      ensures RestoreLatest(cfg, s3.objects) == RestoreLatest(cfg, old(s3.objects))
      ensures old(points) <= points && StaysAt(points, |old(points)|, Position())
      ensures SameElsewhere(old(s3.objects), s3.objects, generation)
      ensures SamePast(cfg, old(s3.objects), s3.objects, old(manifest.snapshotTimestampMs))
      ensures manifest == old(manifest).(segments := newSegments) && (!ok ==> walIndex == old(walIndex))
      ensures manifest.snapshotTimestampMs == old(manifest.snapshotTimestampMs)
      ensures forall k :: k != ManifestKey(generation) ==> (k in s3.objects <==> k in old(s3.objects))
      ensures || ledger == old(ledger)
              || ledger == Enter(old(ledger), generation, Record(epoch, snapshot, snapFrames, shipped, false))
      ensures ok ==> s3.failures == old(s3.failures)
      ensures !ok ==> s3.failures == old(s3.failures) + 1 || (s3.failures == old(s3.failures) && !Able(cfg))
      ensures shutdownComplete == old(shutdownComplete)
      ensures walOffset == old(walOffset)
    {
      hide *;
      ghost var e0, l0, m0 := live.epochs, ledger, manifest;
      Bookkeeping();
      PublishedParts(cfg, s3.objects, generation, manifest, snapshot, shipped);
      PublishedRestores(cfg, s3.objects, generation, manifest, snapshot, shipped);
      StaysNowhere(points);
      manifest := manifest.(segments := newSegments);
      compacted := true;
      IrregularNow(l0);
      RecutContinues(m0);
      ok := UploadManifest(true, shipped, manifest.snapshotTimestampMs);
      StillThere(old(points));
      if ok {
        walIndex := walIndex + |newSegments|;
        Bearings();
        EnteredIs(l0, Mine());
        ValidWhile(e0);
      }
    }

    /** A new list of segments concerns no time before the snapshot. */
    lemma RecutContinues(before: GenerationManifest)
      requires Published(cfg, s3.objects, generation, before, snapshot, shipped) && before.generation == generation
      requires manifest == before.(segments := manifest.segments)
      ensures Continues(cfg, s3.objects, manifest, manifest.snapshotTimestampMs)
    {
      hide Holds, DecodeAt, ManifestAt, UpTo;
    }

    lemma IrregularNow(before: Ledger)
      requires ledger == before && compacted
      ensures With(shipped) == Enter(before, generation, Record(epoch, snapshot, snapFrames, shipped, false))
      ensures Mine() == Record(epoch, snapshot, snapFrames, shipped, false)
      ensures Position() == Here(epoch, snapFrames, shipped)
    {
    }

    /** Whatever the upload came to, the position is the same. */
    lemma StillThere(before: Places)
      requires LastOf(before) == Some(Position())
      requires points == before || points == before + [LastOf(before)] || points == before + [Some(Position())]
      ensures before <= points && StaysAt(points, |before|, Position()) && LastOf(points) == Some(Position())
    {
    }

    /** The segments named now can be fetched, and are the bytes shipped. */
    lemma SegmentsHoldShipped()
      requires Valid()
      ensures Fetch(cfg, s3.objects, KeysOf(generation, manifest.segments)) == Ok(shipped)
      ensures Tiles(manifest.segments, |shipped|) && IndicesBelow(manifest.segments, walIndex)
      ensures manifest.segments != [] ==> walHeaderSalt.Some?
      ensures RestoreLatest(cfg, s3.objects) == Ok(FilesOf(snapshot, shipped))
      ensures s3.Valid() && Intact() && LastOf(points) == Some(Position()) && |shipped| == walOffset
    {
      hide Sound, Shows, Tracked, Registered, LiveDatabase.Valid, S3Client.Valid, Lawful, RestoreLatest, IndicesBelow,
        TimesUpTo, Following, Published, Fetch, KeysOf, Tiles, Holds, AlignedCuts, Accounted, Entered;
      PublishedParts(cfg, s3.objects, generation, manifest, snapshot, shipped);
      ShippedHasSalt(cfg, live.epochs, epoch, snapshot, snapFrames, shipped, walHeaderSalt);
      HoldsFetch(cfg, s3.objects, generation, manifest.segments, shipped);
      HoldsTiles(cfg, s3.objects, generation, manifest.segments, shipped);
      PublishedRestores(cfg, s3.objects, generation, manifest, snapshot, shipped);
    }

    /** The second half of compact(): the manifest names the new segments, then the old ones go. */
    method ReplaceSegments(newSegments: seq<SegmentMeta>) returns (ok: bool)
      requires Valid() && walHeaderSalt.Some? && newSegments != [] && manifest.segments != []
      requires Holds(cfg, s3.objects, generation, newSegments, shipped) && TimesUpTo(newSegments, host.clock)
      requires IndicesBelow(newSegments, walIndex + |newSegments|)
      requires forall i :: 0 <= i < |newSegments| ==> newSegments[i].index >= walIndex
      modifies s3, live, this
      ensures Intact() && old(s3.trace) <= s3.trace && Extends(old(live.epochs), live.epochs)
      ensures ok ==>
                Valid() && walIndex == old(walIndex) + |newSegments| && Gone(KeysOf(generation, old(manifest.segments)))
      ensures !ok ==> manifest != old(manifest) && (Valid() <==> walIndex != old(walIndex))
      ensures manifest == old(manifest).(segments := newSegments)
      ensures shipped == old(shipped) && epoch == old(epoch) && snapshot == old(snapshot)
      ensures snapFrames == old(snapFrames)
      ensures generation == old(generation) && hasReadTransaction == old(hasReadTransaction)
      ensures RestoresEither(|old(s3.trace)|, RestoreLatest(cfg, old(s3.objects)), RestoreLatest(cfg, old(s3.objects)))
      ensures old(points) <= points && StaysAt(points, |old(points)|, Position())
      ensures SameElsewhere(old(s3.objects), s3.objects, generation)
      ensures SamePast(cfg, old(s3.objects), s3.objects, old(manifest.snapshotTimestampMs))
      ensures || ledger == old(ledger)
              || ledger == Enter(old(ledger), generation, Record(epoch, snapshot, snapFrames, shipped, false))
      ensures ok ==> s3.failures == old(s3.failures)
      ensures !ok ==> s3.failures == old(s3.failures) + 1 || (s3.failures == old(s3.failures) && !Able(cfg))
      ensures shutdownComplete == old(shutdownComplete)
      ensures walOffset == old(walOffset)
      ensures walHeaderSalt == old(walHeaderSalt)
    {
      hide *;
      ghost var p0, o0, tr0, first, older := points, s3.objects, s3.trace, walIndex, manifest.segments;
      ghost var taken, latest := manifest.snapshotTimestampMs, RestoreLatest(cfg, s3.objects);
      Bookkeeping();
      var oldSegmentKeys := KeysOf(generation, manifest.segments);
      var swapped := SwapSegments(newSegments);
      ghost var p1, o1, tr1 := points, s3.objects, s3.trace;
      RestoredOnce(tr0, latest);
      if !swapped {
        RestoredAll(|tr0|, latest);
        RecutIsOut(older, newSegments, first);
        return false;
      }
      OldSegmentsAreOrphans(generation, older, newSegments, first);
      NewIndices(older, newSegments, first);
      ok := RemoveObjects(oldSegmentKeys, taken);
      RestoredOn(tr1, |tr0|, latest);
      SamePastOn(cfg, o0, o1, s3.objects, taken, taken);
      StaysOn(p0, p1, points, Position());
      SameElsewhereTransitive(o0, o1, s3.objects, generation);
      Bookkeeping();
      if ok {
        WithoutLacks(o1, oldSegmentKeys);
      }
    }

    lemma RestoredAll(from: nat, a: Result<Files>)
      requires TraceRestores(cfg, s3.trace, from, a, a)
      ensures RestoresEither(from, a, a)
    {
    }

    lemma NewIndices(older: seq<SegmentMeta>, newer: seq<SegmentMeta>, first: nat)
      requires newer != [] && older != [] && IndicesBelow(older, first)
      requires forall i :: 0 <= i < |newer| ==> newer[i].index >= first
      ensures newer != older
    {
      assert newer[0].index >= first && older[0].index < first;
    }

    /** After a compaction that failed: the manager is in order unless the manifest could not be uploaded. */
    ghost predicate CompactionFailed(before: GenerationManifest, index: nat)
      reads this, s3, live, host, readConn`inTransaction
    {
      Valid() <==> manifest == before || walIndex != index
    }

    /**
     Rewrites the segments of the current generation into chunks of at most `maxSegmentSize`
     bytes. No single step of it, failed or not, changes what a reader restores.
     */
    method Compact(maxSegmentSize: Option<nat>) returns (r: Result<CompactionResult>)
      requires Valid()
      requires |manifest.segments| > 1 && maxSegmentSize.Some? ==> CanCompact(maxSegmentSize.value)
      requires |manifest.segments| > 1 && maxSegmentSize.None? ==> CanCompact(4194304)
      modifies this, s3, live, host`clock
      ensures Intact() && old(s3.trace) <= s3.trace && Extends(old(live.epochs), live.epochs)
      ensures RestoresEither(|old(s3.trace)|, RestoreLatest(cfg, old(s3.objects)), RestoreLatest(cfg, old(s3.objects)))
      ensures old(points) <= points && Ascending(points, |old(points)| - 1)
      ensures SameElsewhere(old(s3.objects), s3.objects, generation)
      ensures hasReadTransaction == old(hasReadTransaction)
      ensures generation == old(generation) && shipped == old(shipped) && snapshot == old(snapshot)
      ensures epoch == old(epoch)
      ensures r.Ok? ==> Valid() && r.value == CompactionResult(|old(manifest.segments)|, |manifest.segments|)
      ensures |old(manifest.segments)| <= 1 ==> compacted == old(compacted)
      ensures r.Ok? && |old(manifest.segments)| <= 1 ==> s3.objects == old(s3.objects) && manifest == old(manifest)
      // The size asked for, or 4 MB: no new segment is larger, and all but the last are just as large.
      ensures r.Ok? && |old(manifest.segments)| > 1 && maxSegmentSize.Some? ==>
                && maxSegmentSize.value > 0 && AtMostEach(manifest.segments, maxSegmentSize.value)
                && Recut(old(manifest.segments), manifest.segments, old(walIndex), walOffset, maxSegmentSize.value,
                         old(host.clock))
      ensures r.Ok? && |old(manifest.segments)| > 1 && maxSegmentSize.None? ==>
                && AtMostEach(manifest.segments, 4194304)
                && Recut(old(manifest.segments), manifest.segments, old(walIndex), walOffset, 4194304,
                         old(host.clock))
      ensures r.Ok? && |old(manifest.segments)| > 1 ==>
                && walIndex == old(walIndex) + |manifest.segments|
                && Gone(KeysOf(generation, old(manifest.segments)))
      ensures || ledger == old(ledger)
              || ledger == Enter(old(ledger), generation, Record(epoch, snapshot, snapFrames, shipped, false))
      ensures |old(manifest.segments)| <= 1 ==> ledger == old(ledger)
      ensures old(host.clock) <= host.clock
      // A failure leaves the manager in order, except that of the upload of the manifest.
      ensures r.Err? ==> CompactionFailed(old(manifest), old(walIndex))
      // Times before the snapshot are none of its business.
      ensures SamePast(cfg, old(s3.objects), s3.objects, old(manifest.snapshotTimestampMs))
      ensures r.Ok? ==> s3.failures == old(s3.failures)
      ensures r.Err? ==> s3.failures == old(s3.failures) + 1 || (s3.failures == old(s3.failures) && !Able(cfg))
      ensures shutdownComplete == old(shutdownComplete)
      ensures walOffset == old(walOffset)
      ensures manifest == old(manifest).(segments := manifest.segments) && walHeaderSalt == old(walHeaderSalt)
    {
      hide *;
      ghost var p0, e0, o0, tr0, first, older := points, live.epochs, s3.objects, s3.trace, walIndex, manifest.segments;
      ghost var taken, t0, latest := manifest.snapshotTimestampMs, host.clock, RestoreLatest(cfg, s3.objects);
      var maxSize := match maxSegmentSize case None => 4 * 1024 * 1024 case Some(n) => n;
      CompactFacts(maxSize, taken);
      var segmentsBefore := |manifest.segments|;
      if segmentsBefore <= 1 {
        return Ok(CompactionResult(segmentsBefore, segmentsBefore));
      }
      var allData := FetchSegments(cfg, s3, KeysOf(generation, manifest.segments));
      if allData.Err? {
        // Every object that the manifest names is there and decodes.
        assert false;
      }
      var chunks := UploadChunks(allData.value, maxSize);
      ghost var p1, e1, o1, tr1 := points, live.epochs, s3.objects, s3.trace;
      StayingAscends(p0, p1, Position());
      SegmentsHoldShipped();
      RestoredSoFar(|tr0|, latest, latest);
      SamePastLess(cfg, o0, o1, taken, t0);
      if chunks.Err? {
        StillInOrder(manifest, walIndex);
        return Err(chunks.error);
      }
      ChunkIndices(chunks.value, first, maxSize, |shipped|);
      var ok := ReplaceSegments(chunks.value);
      RestoredOn(tr1, |tr0|, latest);
      StaysOn(p0, p1, points, Position());
      StayingAscends(p0, points, Position());
      ExtendsTransitive(e0, e1, live.epochs);
      SameElsewhereTransitive(o0, o1, s3.objects, generation);
      SamePastOn(cfg, o0, o1, s3.objects, taken, taken);
      RecutWell(older, chunks.value, first, |shipped|, maxSize, t0);
      if ok {
        Bookkeeping();
      }
      if !ok {
        StillFailed(old(manifest), first);
      }
      r := if ok then Ok(CompactionResult(segmentsBefore, |chunks.value|)) else Err(S3);
    }

    /** What compact() can rely on when it starts. */
    lemma CompactFacts(maxSize: nat, taken: nat)
      requires Valid() && (|manifest.segments| > 1 ==> CanCompact(maxSize))
      ensures Intact() && s3.Valid() && Extends(live.epochs, live.epochs)
      ensures SameElsewhere(s3.objects, s3.objects, generation)
      ensures Ascending(points, |points| - 1) && LastOf(points) == Some(Position())
      ensures forall a :: RestoresEither(|s3.trace|, a, a)
      ensures SamePast(cfg, s3.objects, s3.objects, taken) && manifest.snapshotTimestampMs <= host.clock
      ensures |manifest.segments| > 1 ==>
                && maxSize > 0 && SafeToCompact(cfg, shipped, maxSize) && walHeaderSalt.Some?
      ensures Fetch(cfg, s3.objects, KeysOf(generation, manifest.segments)) == Ok(shipped)
      ensures Tiles(manifest.segments, |shipped|) && |shipped| == walOffset
      ensures (manifest.segments != [] ==> shipped != [])
    {
      hide Valid, Intact, Fetch, KeysOf, SafeToCompact, SamePast, Extends, SameElsewhere, Ascending, Tiles,
        S3Client.Valid, Position;
      Bookkeeping();
      SegmentsHoldShipped();
      ExtendsReflexive(live.epochs);
      PutNothing(s3.objects);
      AscendingStart(points);
      SamePastReflexive(cfg, s3.objects, taken);
      TilesNothing(manifest.segments);
    }

    lemma TilesNothing(segments: seq<SegmentMeta>)
      ensures Tiles(segments, 0) ==> segments == []
    {
    }

    lemma StillInOrder(before: GenerationManifest, index: nat)
      requires Valid() && manifest == before
      ensures CompactionFailed(before, index)
    {
    }

    lemma StillFailed(before: GenerationManifest, index: nat)
      requires manifest != before && (Valid() <==> walIndex != index)
      ensures CompactionFailed(before, index)
    {
    }

    /** New segments whose indices the bookkeeping has not yet passed. */
    lemma RecutIsOut(older: seq<SegmentMeta>, newer: seq<SegmentMeta>, first: nat)
      requires manifest.segments == newer && walIndex == first && newer != [] && older != []
      requires IndicesBelow(older, first)
      requires forall i :: 0 <= i < |newer| ==> newer[i].index >= first
      ensures !Valid() && newer != older
    {
      hide Intact, Published, Following, TimesUpTo, AlignedCuts, Entered;
      assert newer[0].index >= first && older[0].index < first;
    }

    /** None of these keys is in the store. */
    ghost predicate Gone(keys: seq<string>)
      reads s3
    {
      forall k :: k in keys ==> k !in s3.objects
    }

    lemma ChunkIndices(segments: seq<SegmentMeta>, first: nat, maxSize: nat, total: nat)
      requires Chunked(segments, first, maxSize)
      requires Holds(cfg, s3.objects, generation, segments, shipped) && total == |shipped|
      ensures forall i :: 0 <= i < |segments| ==> segments[i].index >= first
      ensures Tiles(segments, total) && (total > 0 ==> segments != [])
    {
      HoldsTiles(cfg, s3.objects, generation, segments, shipped);
    }

    lemma WithoutLacks(objects: Objects, keys: seq<string>)
      ensures s3.objects == Without(objects, keys) ==> Gone(keys)
    {
    }

    /** Chunks of this size make progress, and none is mistaken for a compressed object. */
    ghost predicate CanCompact(maxSize: nat)
      reads this`shipped
    {
      maxSize > 0 && SafeToCompact(cfg, shipped, maxSize)
    }

    /** How a caller can find out beforehand: the bytes to be cut are those in the store. */
    method MayCompact(maxSegmentSize: Option<nat>) returns (safe: bool)
      requires Valid()
      ensures |manifest.segments| <= 1 ==> safe
      ensures |manifest.segments| > 1 && maxSegmentSize.Some? ==> (safe <==> CanCompact(maxSegmentSize.value))
      ensures |manifest.segments| > 1 && maxSegmentSize.None? ==> (safe <==> CanCompact(4194304))
    {
      hide Valid, Intact, Fetch, KeysOf, SafeToCompact;
      SegmentsHoldShipped();
      if |manifest.segments| <= 1 {
        return true;
      }
      var maxSize := match maxSegmentSize case None => 4 * 1024 * 1024 case Some(n) => n;
      if maxSize == 0 {
        return false;
      }
      var data := FetchSegments(cfg, s3, KeysOf(generation, manifest.segments));
      safe := SafeToCompact(cfg, data.value, maxSize);
    }

    // ---------- retention ----------

    method ListGenerationManifests() returns (found: seq<Found>)
      requires s3.Valid()
      ensures found == GenerationManifests(cfg, s3.objects, Listing(s3.objects, ""))
    {
      var allKeys := s3.ListKeys("");
      found := [];
      var i := 0;
      while i < |allKeys|
        invariant 0 <= i <= |allKeys|
        invariant found == GenerationManifests(cfg, s3.objects, allKeys[..i])
      {
        var key := allKeys[i];
        assert allKeys[..i + 1][..i] == allKeys[..i];
        if EndsWith(key, MANIFEST_SUFFIX) {
          var data := s3.GetObject(key);
          if data.Ok? {
            var m := DecodeManifest(cfg, data.value);
            if m.Some? {
              found := found + [Found(TrimEndMatches(key, MANIFEST_SUFFIX), m.value)];
            }
          }
        }
        i := i + 1;
      }
      assert allKeys[..i] == allKeys;
    }

    /** Deletes every object of another generation, its manifest first. */
    method DeleteGeneration(id: string) returns (ok: bool)
      requires Valid() && NoSlash(id) && id != generation && ManifestKey(id) in s3.objects
      modifies s3, this`points
      ensures Valid() && old(s3.trace) <= s3.trace
      ensures old(points) <= points && StaysAt(points, |old(points)|, Position())
      ensures RestoresEither(|old(s3.trace)|, RestoreLatest(cfg, old(s3.objects)), RestoreLatest(cfg, old(s3.objects)))
      ensures RestoreLatest(cfg, s3.objects) == RestoreLatest(cfg, old(s3.objects))
      ensures forall t :: |old(s3.trace)| <= t < |s3.trace| ==> OnlyLost(old(s3.objects), s3.trace[t], id)
      ensures ok ==> s3.objects == Without(old(s3.objects), Listing(old(s3.objects), GenerationPrefix(id)))
      ensures s3.failures == old(s3.failures) + if ok then 0 else 1
    {
      hide Intact, Shows, Registered, RestoreLatest, Published, IndicesBelow, TimesUpTo, OnlyLost,
        PartlyDeleted, Without, AlignedCuts, Listing, NoSlash, Accounted, Entered, Belongs;
      StoreShape();
      ghost var o0 := s3.objects;
      var keys := s3.ListKeys(GenerationPrefix(id));
      forall state | PartlyDeleted(o0, keys, state)
        ensures Harmless(state) && OnlyLost(o0, state, id)
      {
        RemovalFits(cfg, o0, generation, manifest, snapshot, shipped, live.epochs, epoch, snapFrames,
          ledger, host.issued, id, state);
      }
      ok := DeleteObjects(keys);
    }

    /** The same, seen from where the sweep started: `done` is swept already, `all` is to be swept. */
    method DeleteNext(id: string, ghost o0: Objects, ghost done: set<string>, ghost all: set<string>) returns (ok: bool)
      requires Valid() && NoSlash(id) && id != generation && ManifestKey(id) in s3.objects
      requires s3.objects == Pruned(o0, done) && done + {id} <= all
      modifies s3, this`points
      ensures Valid() && old(s3.trace) <= s3.trace
      ensures old(points) <= points && StaysAt(points, |old(points)|, Position())
      ensures RestoresEither(|old(s3.trace)|, RestoreLatest(cfg, old(s3.objects)), RestoreLatest(cfg, old(s3.objects)))
      ensures RestoreLatest(cfg, s3.objects) == RestoreLatest(cfg, old(s3.objects))
      ensures forall t :: |old(s3.trace)| <= t < |s3.trace| ==> LostFrom(o0, s3.trace[t], all)
      ensures ok ==> s3.objects == Pruned(o0, done + {id})
      ensures s3.failures == old(s3.failures) + if ok then 0 else 1
    {
      hide *;
      ok := DeleteGeneration(id);
      forall t | |old(s3.trace)| <= t < |s3.trace|
        ensures LostFrom(o0, s3.trace[t], all)
      {
        LostNext(o0, s3.trace[t], done, all, id);
      }
      PrunedNext(o0, done, id);
    }

    /**
     Deletes the generations created before the retention period, never the current one. A reader
     notices nothing, at no moment; the count is the number of generations removed.
     */
    method EnforceRetention() returns (r: Result<nat>)
      requires Valid()
      modifies s3, this`points, host`clock
      ensures Valid() && old(s3.trace) <= s3.trace && old(host.clock) <= host.clock
      ensures old(points) <= points && StaysAt(points, |old(points)|, Position())
      ensures RestoresEither(|old(s3.trace)|, RestoreLatest(cfg, old(s3.objects)), RestoreLatest(cfg, old(s3.objects)))
      ensures RestoreLatest(cfg, s3.objects) == RestoreLatest(cfg, old(s3.objects))
      ensures cfg.retentionMs.None? ==> r == Ok(0) && s3.trace == old(s3.trace)
      ensures cfg.retentionMs.Some? ==>
                var overdue := Overdue(cfg, old(s3.objects), generation, cfg.retentionMs.value, host.clock);
                && (forall t :: |old(s3.trace)| <= t < |s3.trace| ==> LostFrom(old(s3.objects), s3.trace[t], overdue))
                && (r.Ok? ==>
                      && r.value == |overdue| && s3.objects == Pruned(old(s3.objects), overdue)
                      && Retained(cfg, old(s3.objects), s3.objects, generation, cfg.retentionMs.value, host.clock))
      ensures s3.failures == old(s3.failures) + if r.Ok? then 0 else 1
    {
      hide Valid, Intact, RestoreLatest, Position, Registered, Pruned, LostFrom, OnlyLost, Expired, Swept,
        GenerationManifests, Listing, Without, Expires, NoSlash, Overdue, Retained;
      if cfg.retentionMs.None? {
        return Ok(0);
      }
      var _ := Now();
      var cutoffMs := Cutoff(cfg.retentionMs.value);
      StoreShape();
      var manifests := ListGenerationManifests();
      CutoffMeetsPeriod(cfg, s3.objects, generation, cfg.retentionMs.value, host.clock);
      OverdueGone(cfg, s3.objects, generation, cfg.retentionMs.value, host.clock);
      r := DeleteExpired(manifests, cutoffMs);
    }

    /** The deletion loop of enforce_retention(), over what the listing found. */
    method DeleteExpired(manifests: seq<Found>, cutoffMs: nat) returns (r: Result<nat>)
      requires Valid() && manifests == GenerationManifests(cfg, s3.objects, Listing(s3.objects, ""))
      modifies s3, this`points
      ensures Valid() && old(s3.trace) <= s3.trace
      ensures old(points) <= points && StaysAt(points, |old(points)|, Position())
      ensures RestoresEither(|old(s3.trace)|, RestoreLatest(cfg, old(s3.objects)), RestoreLatest(cfg, old(s3.objects)))
      ensures RestoreLatest(cfg, s3.objects) == RestoreLatest(cfg, old(s3.objects))
      ensures var expired := Expired(cfg, old(s3.objects), generation, cutoffMs);
              && (forall t :: |old(s3.trace)| <= t < |s3.trace| ==> LostFrom(old(s3.objects), s3.trace[t], expired))
              && (r.Ok? ==> r.value == |expired| && s3.objects == Pruned(old(s3.objects), expired))
      ensures s3.failures == old(s3.failures) + if r.Ok? then 0 else 1
    {
      hide Valid, Intact, RestoreLatest, Position, Registered, Pruned, LostFrom, OnlyLost, Expired, Swept,
        GenerationManifests, Listing, Without, Expires, NoSlash, S3Client.Valid, ManifestKey, Sound, StaysAt;
      StoreShape();
      ghost var o0, expired := s3.objects, Expired(cfg, s3.objects, generation, cutoffMs);
      SweptAll(cfg, o0, host.issued, generation, cutoffMs);
      var deleted := 0;
      var i := 0;
      PrunedNext(o0, {}, "");
      StaysNowhere(points);
      SweptNone(manifests, generation, cutoffMs);
      while i < |manifests|
        invariant 0 <= i <= |manifests|
        invariant Valid() && old(s3.trace) <= s3.trace && s3.failures == old(s3.failures)
        invariant old(points) <= points && StaysAt(points, |old(points)|, Position())
        invariant RestoresEither(|old(s3.trace)|, RestoreLatest(cfg, o0), RestoreLatest(cfg, o0))
        invariant RestoreLatest(cfg, s3.objects) == RestoreLatest(cfg, o0)
        invariant s3.objects == Pruned(o0, Swept(manifests, i, generation, cutoffMs))
        invariant deleted == |Swept(manifests, i, generation, cutoffMs)|
        invariant forall t :: |old(s3.trace)| <= t < |s3.trace| ==> LostFrom(o0, s3.trace[t], expired)
      {
        ghost var done := Swept(manifests, i, generation, cutoffMs);
        var f := manifests[i];
        SweepStep(cfg, o0, host.issued, generation, cutoffMs, manifests, i, f.id, done);
        if Expires(f, generation, cutoffMs) {
          ghost var p := points;
          var ok := DeleteNext(f.id, o0, done, expired);
          StaysOn(old(points), p, points, Position());
          if !ok {
            return Err(S3);
          }
          deleted := deleted + 1;
        }
        i := i + 1;
      }
      r := Ok(deleted);
    }

    lemma StaysNowhere(ps: Places)
      ensures StaysAt(ps, |ps|, Position())
    {
    }

    function Cutoff(retentionMs: nat): (ms: nat)
      reads host
    {
      if host.clock < retentionMs then 0 else host.clock - retentionMs
    }

    // ---------- between operations ----------

    /** The application runs between two operations; it resets the WAL only once a salt is captured. */
    method ApplicationRuns(resets: bool)
      requires Valid()
      modifies live
      ensures Valid() && Extends(old(live.epochs), live.epochs)
    {
      hide Sound, Shows, Tracked, S3Client.Valid, LiveDatabase.Valid, Lawful, Registered, Published, Following,
        IndicesBelow, TimesUpTo, AlignedCuts, Extends, Accounted, Entered;
      ghost var e0 := live.epochs;
      Meanwhile(resets && walHeaderSalt.Some?);
      ValidWhile(e0);
    }

    /** Nothing is done until the time is over. */
    method Idle(until: nat)
      requires Valid()
      modifies host`clock
      ensures Valid() && host.clock > until && host.clock >= old(host.clock)
    {
      hide Sound, Shows, Tracked, Registered, S3Client.Valid, LiveDatabase.Valid, Lawful, Published, Following,
        IndicesBelow, Accounted, Entered, AlignedCuts;
      host.WaitPast(until);
    }

    // ---------- points in time ----------

    /**
     Right after an operation, and with no other generation snapshotted as late as the current
     one, a restore to the present time is a restore of the latest backup.
     */
    lemma PresentIsLatest(timestampMs: nat)
      requires Valid() && host.clock <= timestampMs
      requires forall g :: NoSlash(g) && g != generation && ManifestAt(cfg, s3.objects, g).Some? ==>
                 ManifestAt(cfg, s3.objects, g).value.snapshotTimestampMs < manifest.snapshotTimestampMs
      ensures RestorePitr(cfg, s3.objects, timestampMs) == RestoreLatest(cfg, s3.objects)
      ensures RestorePitr(cfg, s3.objects, timestampMs) == Ok(FilesOf(snapshot, shipped))
      ensures Open(cfg, FilesOf(snapshot, shipped)) == StateAt(live.epochs, Position())
    {
      hide Shows, Tracked, LiveDatabase.Valid, S3Client.Valid, Lawful, RestoreLatest, RestorePitr, Published, Belongs,
        AlignedCuts, IndicesBelow, Registered, Sound, Open, StateAt, ManifestAt, Accounted, Entered;
      PitrMeetsLatest(cfg, s3.objects, host.issued, generation, manifest, snapshot, shipped, timestampMs);
      PublishedRestores(cfg, s3.objects, generation, manifest, snapshot, shipped);
      BelongsShows(cfg, live.epochs, epoch, snapshot, snapFrames, shipped);
    }

    /**
     Whatever time a restore is asked for, and whatever generation it chooses, of those that this
     history made: see `Ledger.PitrShowsHistory`. With all of them regular every time is shown.
     */
    lemma AnyTimeShowsPast(timestampMs: nat)
      requires Intact() && RestorePitr(cfg, s3.objects, timestampMs).Ok?
      ensures Chosen(cfg, s3.objects, timestampMs).Some?
      ensures var g := Chosen(cfg, s3.objects, timestampMs).value.generation;
              var files := RestorePitr(cfg, s3.objects, timestampMs).value;
              && (g in ledger.records ==>
                    var rec := ledger.records[g];
                    && files.db == rec.snapshot && WalOf(files) <= rec.shipped
                    && (rec.regular ==> CutFits(rec, WalOf(files)))
                    && (CutFits(rec, WalOf(files)) ==>
                          && Reached(live.epochs, CutPoint(rec, WalOf(files)))
                          && Open(cfg, files) == StateAt(live.epochs, CutPoint(rec, WalOf(files)))))
              && (g !in ledger.records ==> g in ledger.unknown)
    {
      hide Shows, Tracked, LiveDatabase.Valid, S3Client.Valid, Lawful, RestorePitr, Chosen, Registered, Sound, Open,
        StateAt, CutFits, CutPoint, RecordHolds, NoSlash;
      PitrRestores(cfg, s3.objects, host.issued, timestampMs);
      var m := Chosen(cfg, s3.objects, timestampMs).value;
      assert AccountedFor(cfg, s3.objects, live.epochs, ledger, m.generation);
      if m.generation in ledger.records {
        PitrShowsHistory(cfg, s3.objects, host.issued, live.epochs, ledger, timestampMs, m);
      }
    }

    /**
     What compaction costs: every time between the snapshot and the compaction gives the snapshot
     alone, since all segments are stamped anew. Times before the snapshot are not concerned.
     */
    lemma TimesForgotten(timestampMs: nat, since: nat)
      requires Valid() && StampedFrom(manifest.segments, since) && timestampMs < since
      requires Chosen(cfg, s3.objects, timestampMs) == Some(manifest)
      ensures RestorePitr(cfg, s3.objects, timestampMs) == Ok(Files(snapshot, None))
    {
      hide Shows, Tracked, LiveDatabase.Valid, S3Client.Valid, Lawful, Registered, Sound, Accounted, Entered,
        Following, AlignedCuts, Holds, Chosen, IndicesBelow, TimesUpTo;
      NoneUpTo(manifest.segments, since, timestampMs);
      NoKeys(generation);
      NotEmpty(cfg, s3.objects, timestampMs);
      PitrRestores(cfg, s3.objects, host.issued, timestampMs);
    }

    lemma PublishedAlready()
      requires Valid()
      ensures live.epochs != [] && Intact() && generation in host.issued
      ensures BeforeSnapshot(cfg, s3.objects, generation, Tame, manifest, snapshot, shipped, host.clock)
      ensures BeforeSnapshot(cfg, s3.objects, generation, Mixed, manifest, snapshot, shipped, host.clock)
    {
      hide Published, Shows, Tracked, Registered, Accounted, Following, AlignedCuts;
    }
  }
}
