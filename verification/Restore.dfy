/** Restoring from a store (src/manager.rs): latest, and to a point in time. */
module Restore {
  import opened Wrappers
  import opened Manifest
  import opened Config
  import opened Pipeline
  import opened Keys
  import opened S3
  import opened Durable

  // ---------- point in time, as functions of the store ----------

  /** The readable manifests among the keys, in key order. */
  function Manifests(cfg: BackupConfig, objects: Objects, keys: seq<string>): (ms: seq<GenerationManifest>)
  {
    if keys == [] then []
    else
      var init := Manifests(cfg, objects, keys[..|keys| - 1]);
      var key := keys[|keys| - 1];
      if EndsWith(key, MANIFEST_SUFFIX) && key in objects && DecodeManifest(cfg, objects[key]).Some?
      then init + [DecodeManifest(cfg, objects[key]).value]
      else init
  }

  /** Inserts behind every manifest with an equal or later snapshot. */
  function InsertDescending(ms: seq<GenerationManifest>, m: GenerationManifest): (r: seq<GenerationManifest>)
  {
    if ms == [] || ms[0].snapshotTimestampMs < m.snapshotTimestampMs then [m] + ms
    else [ms[0]] + InsertDescending(ms[1..], m)
  }

  /** Stable sort by snapshot time, latest first. */
  function SortDescending(ms: seq<GenerationManifest>): (r: seq<GenerationManifest>)
  {
    if ms == [] then [] else InsertDescending(SortDescending(ms[..|ms| - 1]), ms[|ms| - 1])
  }

  function FirstNotAfter(ms: seq<GenerationManifest>, timestampMs: nat): (r: Option<GenerationManifest>)
  {
    if ms == [] then None
    else if ms[0].snapshotTimestampMs <= timestampMs then Some(ms[0])
    else FirstNotAfter(ms[1..], timestampMs)
  }

  /** The segments uploaded no later than the given time. */
  function UpTo(segments: seq<SegmentMeta>, timestampMs: nat): (r: seq<SegmentMeta>)
  {
    if segments == [] then []
    else
      var last := segments[|segments| - 1];
      var init := UpTo(segments[..|segments| - 1], timestampMs);
      if last.timestampMs <= timestampMs then init + [last] else init
  }

  ghost function AllManifests(cfg: BackupConfig, objects: Objects): (ms: seq<GenerationManifest>)
  {
    Manifests(cfg, objects, Listing(objects, ""))
  }

  /** The generation that a restore to the given time uses. */
  ghost function Chosen(cfg: BackupConfig, objects: Objects, timestampMs: nat): (r: Option<GenerationManifest>)
  {
    FirstNotAfter(SortDescending(AllManifests(cfg, objects)), timestampMs)
  }

  ghost function RestorePitr(cfg: BackupConfig, objects: Objects, timestampMs: nat): (r: Result<Files>)
  {
    if AllManifests(cfg, objects) == [] then Err(NoManifests)
    else
      match Chosen(cfg, objects, timestampMs)
      case None => Err(NoGenerationBefore)
      case Some(m) => RestoreGeneration(cfg, objects, m.generation, KeysOf(m.generation, UpTo(m.segments, timestampMs)))
  }

  // ---------- a restore invents nothing ----------

  /** The object is in the store and decodes. */
  predicate Readable(cfg: BackupConfig, objects: Objects, key: string)
  {
    key in objects && Decode(cfg, objects[key]).Ok?
  }

  /** A download succeeds if and only if every object asked for is there and decodes. */
  lemma {:induction false} FetchReads(cfg: BackupConfig, objects: Objects, keys: seq<string>)
    ensures Fetch(cfg, objects, keys).Ok? <==> forall k :: k in keys ==> Readable(cfg, objects, k)
  {
    if keys != [] {
      var init, last := keys[..|keys| - 1], keys[|keys| - 1];
      FetchReads(cfg, objects, init);
      assert keys == init + [last] && last in keys;
      assert forall k :: k in keys <==> k in init || k == last;
    }
  }

  /** It gives the decoded objects joined in the order of the keys, nothing else. */
  lemma {:induction false} FetchJoins(cfg: BackupConfig, objects: Objects, before: seq<string>, key: string,
                                      behind: seq<string>)
    requires Fetch(cfg, objects, before + [key] + behind).Ok?
    ensures Fetch(cfg, objects, before).Ok? && Readable(cfg, objects, key) && Fetch(cfg, objects, behind).Ok?
    ensures Fetch(cfg, objects, before + [key] + behind).value ==
            Fetch(cfg, objects, before).value + Decode(cfg, objects[key]).value + Fetch(cfg, objects, behind).value
    decreases |behind|
  {
    var all := before + [key] + behind;
    if behind == [] {
      assert all[..|all| - 1] == before;
    } else {
      var init := behind[..|behind| - 1];
      assert all[..|all| - 1] == before + [key] + init;
      FetchJoins(cfg, objects, before, key, init);
    }
  }

  /** Restoring a generation: snapshot and segments must all be readable, and the first failure is what is reported. */
  lemma GenerationInventsNothing(cfg: BackupConfig, objects: Objects, generation: string, keys: seq<string>)
    ensures var r, key := RestoreGeneration(cfg, objects, generation, keys), SnapshotKey(generation);
            && (r.Ok? <==> Readable(cfg, objects, key) && forall k :: k in keys ==> Readable(cfg, objects, k))
            && (r.Ok? ==> Ok(r.value.db) == Decode(cfg, objects[key]) && (r.value.wal.None? <==> keys == []))
            && (key !in objects ==> r == Err(Missing))
            && (key in objects && Decode(cfg, objects[key]).Err? ==> r == Err(Decode(cfg, objects[key]).error))
  {
    FetchReads(cfg, objects, keys);
  }

  /**
   A restore of the latest backup succeeds if and only if the marker names a generation whose
   snapshot and segments are all in the store and decode: the segments of its manifest or, if there
   is no readable one, whatever lies under its WAL prefix. The database file is that very snapshot.
   */
  lemma LatestInventsNothing(cfg: BackupConfig, objects: Objects)
    ensures LATEST !in objects ==> RestoreLatest(cfg, objects) == Err(NoBackup)
    ensures LATEST in objects && cfg.formats.fromUtf8(objects[LATEST]).None? ==>
              RestoreLatest(cfg, objects) == Err(InvalidGenerationId)
    ensures LATEST in objects && cfg.formats.fromUtf8(objects[LATEST]).Some? ==>
              var g := cfg.formats.fromUtf8(objects[LATEST]).value;
              var r, m := RestoreLatest(cfg, objects), ManifestAt(cfg, objects, g);
              && (r.Ok? <==>
                    && Readable(cfg, objects, SnapshotKey(g))
                    && (m.Some? ==>
                          forall s :: s in m.value.segments ==> Readable(cfg, objects, SegmentKey(g, s.index)))
                    && (m.None? ==> forall k :: k in objects && WalPrefix(g) <= k ==> Readable(cfg, objects, k)))
              && (r.Ok? ==> Ok(r.value.db) == Decode(cfg, objects[SnapshotKey(g)]))
              && (SnapshotKey(g) !in objects ==> r == Err(Missing))
  {
    hide RestoreGeneration, SegmentKey, SnapshotKey, WalPrefix, ManifestKey, DecodeManifest;
    if LATEST in objects && cfg.formats.fromUtf8(objects[LATEST]).Some? {
      var g := cfg.formats.fromUtf8(objects[LATEST]).value;
      var m := ManifestAt(cfg, objects, g);
      GenerationInventsNothing(cfg, objects, g, SegmentKeys(cfg, objects, g));
      if m.Some? {
        KeysNamed(cfg, objects, g, m.value.segments);
      }
    }
  }

  lemma KeysNamed(cfg: BackupConfig, objects: Objects, generation: string, segments: seq<SegmentMeta>)
    ensures (forall k :: k in KeysOf(generation, segments) ==> Readable(cfg, objects, k)) <==>
            (forall s :: s in segments ==> Readable(cfg, objects, SegmentKey(generation, s.index)))
  {
    hide Readable, SegmentKey;
    var keys := KeysOf(generation, segments);
    forall i | 0 <= i < |segments|
      ensures SegmentKey(generation, segments[i].index) in keys
    {
      assert keys[i] in keys;
    }
  }

  lemma {:induction false} UpToKeeps(segments: seq<SegmentMeta>, timestampMs: nat)
    ensures forall s :: s in UpTo(segments, timestampMs) <==> s in segments && s.timestampMs <= timestampMs
  {
    if segments != [] {
      var init, last := segments[..|segments| - 1], segments[|segments| - 1];
      UpToKeeps(init, timestampMs);
      assert segments == init + [last];
    }
  }

  /**
   A restore to a point in time succeeds if and only if a generation is chosen, and its snapshot
   and those of its segments that were uploaded by then are all in the store and decode.
   */
  lemma PitrInventsNothing(cfg: BackupConfig, objects: Objects, timestampMs: nat)
    ensures AllManifests(cfg, objects) == [] ==> RestorePitr(cfg, objects, timestampMs) == Err(NoManifests)
    ensures AllManifests(cfg, objects) != [] && Chosen(cfg, objects, timestampMs).None? ==>
              RestorePitr(cfg, objects, timestampMs) == Err(NoGenerationBefore)
    ensures Chosen(cfg, objects, timestampMs).Some? ==>
              var r, m := RestorePitr(cfg, objects, timestampMs), Chosen(cfg, objects, timestampMs).value;
              && (r.Ok? <==>
                    && Readable(cfg, objects, SnapshotKey(m.generation))
                    && forall s :: s in m.segments && s.timestampMs <= timestampMs ==>
                         Readable(cfg, objects, SegmentKey(m.generation, s.index)))
              && (r.Ok? ==> Ok(r.value.db) == Decode(cfg, objects[SnapshotKey(m.generation)]))
              && (SnapshotKey(m.generation) !in objects ==> r == Err(Missing))
  {
    hide RestoreGeneration, SegmentKey, SnapshotKey, Manifests, UpTo, KeysOf, Readable;
    if Chosen(cfg, objects, timestampMs).Some? {
      var m := Chosen(cfg, objects, timestampMs).value;
      var segments := UpTo(m.segments, timestampMs);
      GenerationInventsNothing(cfg, objects, m.generation, KeysOf(m.generation, segments));
      KeysNamed(cfg, objects, m.generation, segments);
      UpToKeeps(m.segments, timestampMs);
    }
  }

  // ---------- the methods ----------

  lemma {:induction false} FetchFails(cfg: BackupConfig, objects: Objects, keys: seq<string>, i: nat)
    requires i <= |keys| && Fetch(cfg, objects, keys[..i]).Err?
    ensures Fetch(cfg, objects, keys) == Fetch(cfg, objects, keys[..i])
    decreases |keys|
  {
    if i == |keys| {
      assert keys[..i] == keys;
    } else {
      var init := keys[..|keys| - 1];
      assert init[..i] == keys[..i];
      FetchFails(cfg, objects, init, i);
    }
  }

  /** Downloads and decodes the objects one after the other, appending each to the buffer. */
  method FetchSegments(cfg: BackupConfig, s3: S3Client, keys: seq<string>) returns (r: Result<Bytes>)
    requires s3.Valid()
    ensures r == Fetch(cfg, s3.objects, keys)
  {
    var data: Bytes := [];
    var i := 0;
    while i < |keys|
      invariant 0 <= i <= |keys|
      invariant Fetch(cfg, s3.objects, keys[..i]) == Ok(data)
    {
      assert keys[..i + 1][..i] == keys[..i];
      var body := s3.GetObject(keys[i]);
      if body.Err? {
        FetchFails(cfg, s3.objects, keys, i + 1);
        return Err(body.error);
      }
      var decoded := Decode(cfg, body.value);
      if decoded.Err? {
        FetchFails(cfg, s3.objects, keys, i + 1);
        return Err(decoded.error);
      }
      data := data + decoded.value;
      i := i + 1;
    }
    assert keys[..i] == keys;
    r := Ok(data);
  }

  method SegmentKeysFromManifest(cfg: BackupConfig, s3: S3Client, generation: string) returns (keys: seq<string>)
    requires s3.Valid()
    ensures keys == SegmentKeys(cfg, s3.objects, generation)
  {
    var data := s3.GetObject(ManifestKey(generation));
    if data.Ok? {
      var manifest := DecodeManifest(cfg, data.value);
      if manifest.Some? {
        return KeysOf(generation, manifest.value.segments);
      }
    }
    keys := s3.ListKeys(WalPrefix(generation));
  }

  /** The snapshot, then the segments if there are any. */
  method DownloadGeneration(cfg: BackupConfig, s3: S3Client, generation: string, keys: seq<string>)
    returns (r: Result<Files>)
    requires s3.Valid()
    ensures r == RestoreGeneration(cfg, s3.objects, generation, keys)
  {
    var data := s3.GetObject(SnapshotKey(generation));
    if data.Err? {
      return Err(data.error);
    }
    var db := Decode(cfg, data.value);
    if db.Err? {
      return Err(db.error);
    }
    if keys == [] {
      return Ok(Files(db.value, None));
    }
    var wal := FetchSegments(cfg, s3, keys);
    r := if wal.Ok? then Ok(Files(db.value, Some(wal.value))) else Err(wal.error);
  }

  /** The files placed for the latest backup. */
  method RestoreLatestFiles(cfg: BackupConfig, s3: S3Client) returns (r: Result<Files>)
    requires s3.Valid()
    ensures r == RestoreLatest(cfg, s3.objects)
  {
    var marker := s3.GetObject(LATEST);
    if marker.Err? {
      return Err(NoBackup);
    }
    var generation := cfg.formats.fromUtf8(marker.value);
    if generation.None? {
      return Err(InvalidGenerationId);
    }
    var keys := SegmentKeysFromManifest(cfg, s3, generation.value);
    r := DownloadGeneration(cfg, s3, generation.value, keys);
  }

  method CollectManifests(cfg: BackupConfig, s3: S3Client) returns (ms: seq<GenerationManifest>)
    requires s3.Valid()
    ensures ms == AllManifests(cfg, s3.objects)
  {
    var keys := s3.ListKeys("");
    ms := [];
    var i := 0;
    while i < |keys|
      invariant 0 <= i <= |keys|
      invariant ms == Manifests(cfg, s3.objects, keys[..i])
    {
      assert keys[..i + 1][..i] == keys[..i];
      if EndsWith(keys[i], MANIFEST_SUFFIX) {
        var data := s3.GetObject(keys[i]);
        if data.Ok? {
          var m := DecodeManifest(cfg, data.value);
          if m.Some? {
            ms := ms + [m.value];
          }
        }
      }
      i := i + 1;
    }
    assert keys[..i] == keys;
  }

  /** The files placed for a restore to a point in time. */
  method RestorePitrFiles(cfg: BackupConfig, s3: S3Client, timestampMs: nat) returns (r: Result<Files>)
    requires s3.Valid()
    ensures r == RestorePitr(cfg, s3.objects, timestampMs)
  {
    var ms := CollectManifests(cfg, s3);
    if ms == [] {
      return Err(NoManifests);
    }
    var chosen := FirstNotAfter(SortDescending(ms), timestampMs);
    if chosen.None? {
      return Err(NoGenerationBefore);
    }
    var m := chosen.value;
    r := DownloadGeneration(cfg, s3, m.generation, KeysOf(m.generation, UpTo(m.segments, timestampMs)));
  }

  /** restore_inner: to a point in time if one is given, else the latest backup. */
  method RestoreFiles(cfg: BackupConfig, s3: S3Client, targetTime: Option<nat>) returns (r: Result<Files>)
    requires s3.Valid()
    ensures r == match targetTime
                 case None => RestoreLatest(cfg, s3.objects)
                 case Some(t) => RestorePitr(cfg, s3.objects, t)
  {
    match targetTime
    case None => r := RestoreLatestFiles(cfg, s3);
    case Some(t) => r := RestorePitrFiles(cfg, s3, t);
  }
}
