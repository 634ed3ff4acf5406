/** What a single upload or deletion does to a published generation. */
module Steps {
  import opened Wrappers
  import opened Manifest
  import opened Config
  import opened Pipeline
  import opened Keys
  import opened S3
  import opened Durable
  import opened History
  import opened Tracking

  /** A published generation whose bookkeeping follows the history shows its own position. */
  lemma ShowsPublished(cfg: BackupConfig, objects: Objects, generation: string, m: GenerationManifest, snapshot: Bytes,
                       shipped: Bytes, epochs: seq<Epoch>, epoch: nat, snapFrames: nat)
    requires Published(cfg, objects, generation, m, snapshot, shipped) && Sound(cfg, objects)
    requires Belongs(cfg, epochs, epoch, snapshot, snapFrames, shipped)
    ensures Shows(cfg, objects, epochs, Here(epoch, snapFrames, shipped))
  {
    PublishedRestores(cfg, objects, generation, m, snapshot, shipped);
    BelongsShows(cfg, epochs, epoch, snapshot, snapFrames, shipped);
  }

  /** Any upload under an own key keeps the store sound as long as the generation stays published. */
  lemma SoundPublished(cfg: BackupConfig, before: Objects, after: Objects, generation: string, m: GenerationManifest,
                       snapshot: Bytes, shipped: Bytes, now: nat)
    requires Sound(cfg, before) && NoSlash(generation)
    requires Published(cfg, after, generation, m, snapshot, shipped)
    requires m.generation == generation && TimesUpTo(m.segments, now)
    requires SameElsewhere(before, after, generation)
    ensures Sound(cfg, after)
  {
    PublishedIsSound(cfg, after, generation, m, snapshot, shipped, now);
    SoundStep(cfg, before, after, generation);
  }

  /** The stores differ at most in the marker and in objects of the generation. */
  ghost predicate SameElsewhere(a: Objects, b: Objects, generation: string)
  {
    forall k :: !Under(generation, k) && k != LATEST && (k in a || k in b) ==> k in a && k in b && a[k] == b[k]
  }

  lemma SameElsewhereTransitive(a: Objects, b: Objects, c: Objects, generation: string)
    requires SameElsewhere(a, b, generation) && SameElsewhere(b, c, generation)
    ensures SameElsewhere(a, c, generation)
  {
  }

  lemma PutElsewhere(objects: Objects, generation: string, key: string, data: Bytes)
    requires OwnKey(generation, key) || key == LATEST
    ensures SameElsewhere(objects, objects[key := data], generation)
  {
    if key != LATEST {
      OwnKeyUnder(generation, key);
    }
  }

  /** An index at or past every index in use gives a key that no restore reads. */
  lemma FreshIndexUnread(generation: string, segments: seq<SegmentMeta>, index: nat)
    requires forall i :: 0 <= i < |segments| ==> segments[i].index != index
    ensures !Reads(generation, segments, SegmentKey(generation, index))
  {
    KeyShapes(generation, index);
    var keys := KeysOf(generation, segments);
    forall i | 0 <= i < |keys|
      ensures keys[i] != SegmentKey(generation, index)
    {
      if keys[i] == SegmentKey(generation, index) {
        SegmentKeyInjective(generation, segments[i].index, index);
      }
    }
  }

  /** Uploading a segment under a fresh index changes nothing for a reader. */
  lemma SegmentUploaded(cfg: BackupConfig, objects: Objects, generation: string, m: GenerationManifest, snapshot: Bytes,
                        shipped: Bytes, now: nat, index: nat, data: Bytes)
    requires Published(cfg, objects, generation, m, snapshot, shipped) && Sound(cfg, objects) && NoSlash(generation)
    requires m.generation == generation && TimesUpTo(m.segments, now)
    requires forall i :: 0 <= i < |m.segments| ==> m.segments[i].index != index
    ensures var after := objects[SegmentKey(generation, index) := data];
            Published(cfg, after, generation, m, snapshot, shipped) && Sound(cfg, after)
  {
    var key := SegmentKey(generation, index);
    var after := objects[key := data];
    FreshIndexUnread(generation, m.segments, index);
    PublishedFrame(cfg, objects, after, generation, m, snapshot, shipped);
    assert OwnKey(generation, key);
    PutElsewhere(objects, generation, key, data);
    SoundPublished(cfg, objects, after, generation, m, snapshot, shipped, now);
  }

  /** With one more segment, whatever its time, the list would hold `goal`. */
  ghost predicate HoldsNext(cfg: BackupConfig, objects: Objects, generation: string, segments: seq<SegmentMeta>,
                            index: nat, offset: nat, size: nat, goal: Bytes)
  {
    forall now :: Holds(cfg, objects, generation, segments + [SegmentMeta(index, now, offset, size)], goal)
  }

  lemma NextSegment(cfg: BackupConfig, objects: Objects, generation: string, m: GenerationManifest,
                    before: nat, index: nat, now: nat, offset: nat, size: nat, goal: Bytes)
    requires HoldsNext(cfg, objects, generation, m.segments, index, offset, size, goal)
    requires IndicesBelow(m.segments, index) && TimesUpTo(m.segments, before) && before <= now
    ensures var n := AddSegment(m, index, now, offset, size);
            && Holds(cfg, objects, generation, n.segments, goal)
            && IndicesBelow(n.segments, index + 1) && TimesUpTo(n.segments, now)
            && n.generation == m.generation && n.snapshotTimestampMs == m.snapshotTimestampMs
  {
    AppendKeepsOrder(m.segments, index, before, SegmentMeta(index, now, offset, size));
  }

  /**
   One more segment in the store under an unused index: a reader notices nothing, and the list
   `segments` of segments already there can be extended by it.
   */
  lemma SegmentFits(cfg: BackupConfig, objects: Objects, generation: string, m: GenerationManifest, snapshot: Bytes,
                    shipped: Bytes, now: nat, epochs: seq<Epoch>, epoch: nat, snapFrames: nat,
                    segments: seq<SegmentMeta>, held: Bytes, index: nat, data: Bytes, chunk: Bytes)
    requires Published(cfg, objects, generation, m, snapshot, shipped) && Sound(cfg, objects) && NoSlash(generation)
    requires m.generation == generation && TimesUpTo(m.segments, now) && IndicesBelow(m.segments, index)
    requires Belongs(cfg, epochs, epoch, snapshot, snapFrames, shipped)
    requires Holds(cfg, objects, generation, segments, held) && IndicesBelow(segments, index)
    requires Decode(cfg, data) == Ok(chunk) && chunk != []
    ensures var after := objects[SegmentKey(generation, index) := data];
            && Published(cfg, after, generation, m, snapshot, shipped)
            && Fits(cfg, after, epochs, Some(Here(epoch, snapFrames, shipped)))
            && RestoreLatest(cfg, after) == RestoreLatest(cfg, objects) == Ok(FilesOf(snapshot, shipped))
            && SameElsewhere(objects, after, generation)
            && HoldsNext(cfg, after, generation, segments, index, |held|, |chunk|, held + chunk)
    ensures OwnKey(generation, SegmentKey(generation, index))
  {
    var key := SegmentKey(generation, index);
    var after := objects[key := data];
    SegmentUploaded(cfg, objects, generation, m, snapshot, shipped, now, index, data);
    ShowsPublished(cfg, after, generation, m, snapshot, shipped, epochs, epoch, snapFrames);
    PublishedRestores(cfg, objects, generation, m, snapshot, shipped);
    PublishedRestores(cfg, after, generation, m, snapshot, shipped);
    assert OwnKey(generation, key);
    PutElsewhere(objects, generation, key, data);
    forall t: nat
      ensures Holds(cfg, after, generation, segments + [SegmentMeta(index, t, |held|, |chunk|)], held + chunk)
    {
      HoldsAppend(cfg, objects, generation, segments, held, SegmentMeta(index, t, |held|, |chunk|), chunk, after);
    }
  }

  lemma IndicesBelowHigher(segments: seq<SegmentMeta>, next: nat, higher: nat)
    requires IndicesBelow(segments, next) && next <= higher
    ensures IndicesBelow(segments, higher)
  {
  }

  /** Uploading a manifest publishes what it names, provided the objects are already there. */
  lemma ManifestUploaded(cfg: BackupConfig, objects: Objects, generation: string, m: GenerationManifest,
                         snapshot: Bytes, shipped: Bytes, now: nat, data: Bytes)
    requires Sound(cfg, objects) && NoSlash(generation)
    requires LatestGeneration(cfg, objects) == Ok(generation)
    requires DecodeAt(cfg, objects, SnapshotKey(generation)) == Ok(snapshot)
    requires Holds(cfg, objects, generation, m.segments, shipped)
    requires m.generation == generation && TimesUpTo(m.segments, now)
    requires DecodeManifest(cfg, data) == Some(m)
    ensures var after := objects[ManifestKey(generation) := data];
            Published(cfg, after, generation, m, snapshot, shipped) && Sound(cfg, after)
  {
    var key := ManifestKey(generation);
    var after := objects[key := data];
    forall i | 0 <= i < |m.segments|
      ensures SegmentKey(generation, m.segments[i].index) != key
    {
      KeyShapes(generation, m.segments[i].index);
    }
    KeyShapes(generation, 0);
    HoldsFrame(cfg, objects, after, generation, m.segments, shipped);
    assert OwnKey(generation, key);
    PutElsewhere(objects, generation, key, data);
    SoundPublished(cfg, objects, after, generation, m, snapshot, shipped, now);
  }

  // ---------- starting a generation ----------

  /** Nothing in the store belongs to the generation. */
  ghost predicate Unused(cfg: BackupConfig, objects: Objects, generation: string)
  {
    && NoSlash(generation)
    && (forall k :: k in objects ==> !Under(generation, k))
    && (LatestGeneration(cfg, objects).Ok? ==> Head(LatestGeneration(cfg, objects).value) != generation)
  }

  lemma NewIdUnused(cfg: BackupConfig, objects: Objects, issued: set<string>, id: string)
    requires Registered(cfg, objects, issued) && NoSlash(id) && id !in issued
    ensures Unused(cfg, objects, id) && Registered(cfg, objects, issued + {id})
  {
    forall k | k in objects
      ensures !Under(id, k)
    {
      KeyShapes(id, 0);
      if Under(id, k) {
        HeadOfPrefixed(id, k);
      }
    }
  }

  /** Uploading the snapshot of a new generation changes nothing for a reader. */
  lemma FirstSnapshotUploaded(cfg: BackupConfig, objects: Objects, generation: string, data: Bytes)
    requires Unused(cfg, objects, generation) && Sound(cfg, objects)
    ensures var after := objects[SnapshotKey(generation) := data];
            RestoreLatest(cfg, after) == RestoreLatest(cfg, objects) && Sound(cfg, after)
  {
    var key := SnapshotKey(generation);
    var after := objects[key := data];
    KeyShapes(generation, 0);
    HeadOfPrefixed(generation, key);
    var r := LatestGeneration(cfg, objects);
    if r.Ok? {
      if Under(r.value, key) {
        HeadOfPrefixed(r.value, key);
      }
      assert SameUnder(objects, after, r.value);
    }
    RestoreFrame(cfg, objects, after);
    assert ManifestAt(cfg, after, generation).None?;
    assert OwnKey(generation, key);
    PutElsewhere(objects, generation, key, data);
    SoundStep(cfg, objects, after, generation);
  }

  /** Pointing the marker at a generation that has a snapshot but no manifest yet restores the snapshot. */
  lemma MarkerUploaded(cfg: BackupConfig, objects: Objects, generation: string, snapshot: Bytes, data: Bytes)
    requires NoSlash(generation) && Sound(cfg, objects)
    requires forall k :: k in objects && Under(generation, k) ==> k == SnapshotKey(generation)
    requires DecodeAt(cfg, objects, SnapshotKey(generation)) == Ok(snapshot)
    requires cfg.formats.fromUtf8(data) == Some(generation)
    ensures var after := objects[LATEST := data];
            RestoreLatest(cfg, after) == Ok(Files(snapshot, None)) && Sound(cfg, after)
  {
    var after := objects[LATEST := data];
    KeyShapes(generation, 0);
    assert ManifestAt(cfg, after, generation).None?;
    var prefix := WalPrefix(generation);
    forall k | k in after
      ensures !(prefix <= k)
    {
      if prefix <= k {
        WalKeyShape(generation, k);
      }
    }
    assert (set k | k in after && prefix <= k) == {};
    PutElsewhere(objects, generation, LATEST, data);
    SoundStep(cfg, objects, after, generation);
  }

  /** Replacing the snapshot of a published generation leaves its manifest and segments in place. */
  lemma SnapshotReplaced(cfg: BackupConfig, objects: Objects, generation: string, m: GenerationManifest,
                         snapshot: Bytes, shipped: Bytes, now: nat, replacement: Bytes, data: Bytes)
    requires Published(cfg, objects, generation, m, snapshot, shipped) && Sound(cfg, objects) && NoSlash(generation)
    requires m.generation == generation && TimesUpTo(m.segments, now)
    requires Decode(cfg, data) == Ok(replacement)
    ensures var after := objects[SnapshotKey(generation) := data];
            Published(cfg, after, generation, m, replacement, shipped) && Sound(cfg, after)
  {
    var key := SnapshotKey(generation);
    var after := objects[key := data];
    forall i | 0 <= i < |m.segments|
      ensures SegmentKey(generation, m.segments[i].index) != key
    {
      KeyShapes(generation, m.segments[i].index);
    }
    KeyShapes(generation, 0);
    HoldsFrame(cfg, objects, after, generation, m.segments, shipped);
    assert OwnKey(generation, key);
    PutElsewhere(objects, generation, key, data);
    SoundPublished(cfg, objects, after, generation, m, replacement, shipped, now);
  }

  /** Renewing the marker of a published generation leaves it published. */
  lemma MarkerRenewed(cfg: BackupConfig, objects: Objects, generation: string, m: GenerationManifest, snapshot: Bytes,
                      shipped: Bytes, now: nat, data: Bytes)
    requires Published(cfg, objects, generation, m, snapshot, shipped) && Sound(cfg, objects) && NoSlash(generation)
    requires m.generation == generation && TimesUpTo(m.segments, now)
    requires cfg.formats.fromUtf8(data) == Some(generation)
    ensures var after := objects[LATEST := data];
            Published(cfg, after, generation, m, snapshot, shipped) && Sound(cfg, after)
  {
    var after := objects[LATEST := data];
    forall i | 0 <= i < |m.segments|
      ensures SegmentKey(generation, m.segments[i].index) != LATEST
    {
      KeyShapes(generation, m.segments[i].index);
    }
    KeyShapes(generation, 0);
    HoldsFrame(cfg, objects, after, generation, m.segments, shipped);
    PutElsewhere(objects, generation, LATEST, data);
    SoundPublished(cfg, objects, after, generation, m, snapshot, shipped, now);
  }

  /**
   Three ways to take a snapshot: for a new generation; for one that is published already, with
   segments that fit the new snapshot; and for one whose segments may not fit it.
   */
  datatype Kind = Fresh | Tame | Mixed

  /**
   What a snapshot upload starts from. A new generation has nothing in the store; a generation
   that is snapshotted again is published.
   */
  ghost predicate BeforeSnapshot(cfg: BackupConfig, objects: Objects, generation: string, kind: Kind,
                                 m: GenerationManifest, snapshot: Bytes, shipped: Bytes, now: nat)
  {
    && NoSlash(generation) && Sound(cfg, objects)
    && m.generation == generation && TimesUpTo(m.segments, now)
    && if kind.Fresh? then Unused(cfg, objects, generation)
       else Published(cfg, objects, generation, m, snapshot, shipped)
  }

  /** The snapshot is uploaded; the marker has still to follow. */
  ghost predicate BeforeMarker(cfg: BackupConfig, objects: Objects, generation: string, kind: Kind,
                               m: GenerationManifest, raw: Bytes, shipped: Bytes, now: nat)
  {
    && NoSlash(generation) && Sound(cfg, objects)
    && m.generation == generation && TimesUpTo(m.segments, now)
    && DecodeAt(cfg, objects, SnapshotKey(generation)) == Ok(raw)
    && if kind.Fresh? then forall k :: k in objects && Under(generation, k) ==> k == SnapshotKey(generation)
       else Published(cfg, objects, generation, m, raw, shipped)
  }

  /** Snapshot and marker are uploaded; the manifest has still to follow. */
  ghost predicate BeforeManifest(cfg: BackupConfig, objects: Objects, generation: string, raw: Bytes)
  {
    && NoSlash(generation) && Sound(cfg, objects)
    && LatestGeneration(cfg, objects) == Ok(generation)
    && DecodeAt(cfg, objects, SnapshotKey(generation)) == Ok(raw)
  }

  lemma BeforeManifestParts(cfg: BackupConfig, objects: Objects, generation: string, raw: Bytes)
    requires BeforeManifest(cfg, objects, generation, raw)
    ensures NoSlash(generation) && LatestGeneration(cfg, objects) == Ok(generation)
    ensures DecodeAt(cfg, objects, SnapshotKey(generation)) == Ok(raw)
  {
  }

  /** An empty list of segments is in order whatever else holds. */
  lemma EmptyList(cfg: BackupConfig, objects: Objects, generation: string, now: nat, least: nat)
    ensures Holds(cfg, objects, generation, [], []) && TimesUpTo([], now) && IndicesBelow([], 0)
    ensures AlignedCuts([], [], least)
  {
  }

  /**
   What a reader is shown once the snapshot is uploaded. Seen from the segments shipped, the file
   stands at `footing`.
   */
  function AfterSnapshot(kind: Kind, last: Option<Point>, footing: Point, shipped: Bytes): (p: Option<Point>)
  {
    match kind
    case Fresh => last
    case Tame => Some(Here(footing.epoch, footing.frames, shipped))
    case Mixed => None
  }

  /** And once the marker is; on its own the file stands at `start`. */
  function AfterMarker(kind: Kind, start: Point, footing: Point, shipped: Bytes): (p: Option<Point>)
  {
    match kind
    case Fresh => Some(start)
    case Tame => Some(Here(footing.epoch, footing.frames, shipped))
    case Mixed => None
  }

  /** The first upload of a snapshot; for a new generation no reader notices it. */
  lemma SnapshotFits(cfg: BackupConfig, objects: Objects, epochs: seq<Epoch>, last: Option<Point>, footing: Point,
                     generation: string, kind: Kind, m: GenerationManifest, snapshot: Bytes, shipped: Bytes, now: nat,
                     data: Bytes, raw: Bytes)
    requires BeforeSnapshot(cfg, objects, generation, kind, m, snapshot, shipped, now)
    requires Fits(cfg, objects, epochs, last) && Decode(cfg, data) == Ok(raw)
    requires kind.Tame? ==> Belongs(cfg, epochs, footing.epoch, raw, footing.frames, shipped)
    ensures var after := objects[SnapshotKey(generation) := data];
            && BeforeMarker(cfg, after, generation, kind, m, raw, shipped, now)
            && Fits(cfg, after, epochs, AfterSnapshot(kind, last, footing, shipped))
            && (kind.Fresh? ==> RestoreLatest(cfg, after) == RestoreLatest(cfg, objects))
            && SameElsewhere(objects, after, generation)
    ensures OwnKey(generation, SnapshotKey(generation))
  {
    var after := objects[SnapshotKey(generation) := data];
    if kind.Fresh? {
      FirstSnapshotUploaded(cfg, objects, generation, data);
    } else {
      SnapshotReplaced(cfg, objects, generation, m, snapshot, shipped, now, raw, data);
      if kind.Tame? {
        ShowsPublished(cfg, after, generation, m, raw, shipped, epochs, footing.epoch, footing.frames);
      }
    }
    assert OwnKey(generation, SnapshotKey(generation));
    PutElsewhere(objects, generation, SnapshotKey(generation), data);
  }

  /** The second upload: from here on a reader of a new generation gets the bare snapshot. */
  lemma MarkerFits(cfg: BackupConfig, objects: Objects, epochs: seq<Epoch>, start: Point, footing: Point,
                   generation: string, kind: Kind, m: GenerationManifest, raw: Bytes, shipped: Bytes, now: nat)
    requires BeforeMarker(cfg, objects, generation, kind, m, raw, shipped, now) && LawfulFormats(cfg.formats)
    requires Belongs(cfg, epochs, start.epoch, raw, start.frames, [])
    requires kind.Tame? ==> Belongs(cfg, epochs, footing.epoch, raw, footing.frames, shipped)
    ensures var after := objects[LATEST := cfg.formats.toUtf8(generation)];
            && BeforeManifest(cfg, after, generation, raw)
            && Fits(cfg, after, epochs, AfterMarker(kind, start, footing, shipped))
            && (kind.Fresh? ==> RestoreLatest(cfg, after) == Ok(Files(raw, None)))
            && SameElsewhere(objects, after, generation)
  {
    var data := cfg.formats.toUtf8(generation);
    KeyShapes(generation, 0);
    if kind.Fresh? {
      MarkerUploaded(cfg, objects, generation, raw, data);
      BelongsShows(cfg, epochs, start.epoch, raw, start.frames, []);
    } else {
      MarkerRenewed(cfg, objects, generation, m, raw, shipped, now, data);
      if kind.Tame? {
        ShowsPublished(cfg, objects[LATEST := data], generation, m, raw, shipped, epochs, footing.epoch,
          footing.frames);
      }
    }
    PutElsewhere(objects, generation, LATEST, data);
  }

  // ---------- deletions ----------

  /** The keys belong to the generation and none of them is read by a restore of it. */
  ghost predicate Orphans(generation: string, segments: seq<SegmentMeta>, keys: seq<string>)
  {
    forall k :: k in keys ==> OwnKey(generation, k) && !Reads(generation, segments, k)
  }

  /** Deleting orphans, all of them or only some, changes nothing for a reader. */
  lemma DeletionFits(cfg: BackupConfig, objects: Objects, generation: string, m: GenerationManifest, snapshot: Bytes,
                     shipped: Bytes, now: nat, epochs: seq<Epoch>, epoch: nat, snapFrames: nat, issued: set<string>,
                     keys: seq<string>, after: Objects)
    requires Published(cfg, objects, generation, m, snapshot, shipped) && Sound(cfg, objects) && NoSlash(generation)
    requires m.generation == generation && TimesUpTo(m.segments, now)
    requires Belongs(cfg, epochs, epoch, snapshot, snapFrames, shipped)
    requires Registered(cfg, objects, issued)
    requires Orphans(generation, m.segments, keys) && PartlyDeleted(objects, keys, after)
    ensures Published(cfg, after, generation, m, snapshot, shipped)
    ensures Shows(cfg, after, epochs, Here(epoch, snapFrames, shipped))
    ensures RestoreLatest(cfg, after) == RestoreLatest(cfg, objects)
    ensures Registered(cfg, after, issued) && SameElsewhere(objects, after, generation)
  {
    var n :| 0 <= n <= |keys| && after == Without(objects, keys[..n]);
    assert forall k :: k in keys[..n] ==> k in keys;
    PublishedFrame(cfg, objects, after, generation, m, snapshot, shipped);
    forall k | k in objects && k !in after
      ensures Under(generation, k) && k != LATEST
    {
      OwnKeyUnder(generation, k);
    }
    SoundPublished(cfg, objects, after, generation, m, snapshot, shipped, now);
    ShowsPublished(cfg, after, generation, m, snapshot, shipped, epochs, epoch, snapFrames);
    PublishedRestores(cfg, objects, generation, m, snapshot, shipped);
    PublishedRestores(cfg, after, generation, m, snapshot, shipped);
  }

  /** Once a manifest names only newer indices, the old segments are orphans. */
  lemma OldSegmentsAreOrphans(generation: string, older: seq<SegmentMeta>, segments: seq<SegmentMeta>, first: nat)
    requires IndicesBelow(older, first) && forall i :: 0 <= i < |segments| ==> segments[i].index >= first
    ensures Orphans(generation, segments, KeysOf(generation, older))
  {
    var keys := KeysOf(generation, older);
    forall i | 0 <= i < |keys|
      ensures OwnKey(generation, keys[i]) && !Reads(generation, segments, keys[i])
    {
      FreshIndexUnread(generation, segments, older[i].index);
    }
  }
}
