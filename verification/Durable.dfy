/**
 What a store holds for a reader: the restore functions of src/manager.rs as functions of the
 store's contents, and the agreement between a manifest and the objects it names.
 */
module Durable {
  import opened Wrappers
  import opened Wal
  import opened Replay
  import opened Manifest
  import opened Config
  import opened Pipeline
  import opened Keys
  import opened S3

  /** The database file and the WAL file that a restore places side by side. */
  datatype Files = Files(db: Bytes, wal: Option<Bytes>)

  function WalOf(files: Files): (wal: Bytes)
  {
    match files.wal
    case None => []
    case Some(w) => w
  }

  /** What SQLite shows once it has opened the restored files. */
  function Open(cfg: BackupConfig, files: Files): (db: Db)
  {
    Observe(Play(cfg.formats.pager(files.db), Frames(WalOf(files))))
  }

  function ManifestAt(cfg: BackupConfig, objects: Objects, generation: string): (m: Option<GenerationManifest>)
  {
    if ManifestKey(generation) in objects then DecodeManifest(cfg, objects[ManifestKey(generation)]) else None
  }

  function KeysOf(generation: string, segments: seq<SegmentMeta>): (keys: seq<string>)
    ensures |keys| == |segments|
    ensures forall i :: 0 <= i < |segments| ==> keys[i] == SegmentKey(generation, segments[i].index)
  {
    seq(|segments|, i requires 0 <= i < |segments| => SegmentKey(generation, segments[i].index))
  }

  /** The manifest's keys, or the listing when there is no readable manifest. */
  ghost function SegmentKeys(cfg: BackupConfig, objects: Objects, generation: string): (keys: seq<string>)
  {
    match ManifestAt(cfg, objects, generation)
    case Some(m) => KeysOf(generation, m.segments)
    case None => Listing(objects, WalPrefix(generation))
  }

  function DecodeAt(cfg: BackupConfig, objects: Objects, key: string): (r: Result<Bytes>)
  {
    if key in objects then Decode(cfg, objects[key]) else Err(Missing)
  }

  /** Downloads, decodes and concatenates the objects, in order. */
  function Fetch(cfg: BackupConfig, objects: Objects, keys: seq<string>): (r: Result<Bytes>)
  {
    if keys == [] then Ok([])
    else
      match Fetch(cfg, objects, keys[..|keys| - 1])
      case Err(e) => Err(e)
      case Ok(head) =>
        match DecodeAt(cfg, objects, keys[|keys| - 1])
        case Err(e) => Err(e)
        case Ok(tail) => Ok(head + tail)
  }

  function RestoreGeneration(cfg: BackupConfig, objects: Objects, generation: string,
                             keys: seq<string>): (r: Result<Files>)
  {
    match DecodeAt(cfg, objects, SnapshotKey(generation))
    case Err(e) => Err(e)
    case Ok(db) =>
      match Fetch(cfg, objects, keys)
      case Err(e) => Err(e)
      case Ok(wal) => Ok(Files(db, if keys == [] then None else Some(wal)))
  }

  /** The generation that the marker names. */
  function LatestGeneration(cfg: BackupConfig, objects: Objects): (r: Result<string>)
  {
    if LATEST !in objects then Err(NoBackup)
    else
      match cfg.formats.fromUtf8(objects[LATEST])
      case None => Err(InvalidGenerationId)
      case Some(g) => Ok(g)
  }

  ghost function RestoreLatest(cfg: BackupConfig, objects: Objects): (r: Result<Files>)
  {
    match LatestGeneration(cfg, objects)
    case Err(e) => Err(e)
    case Ok(g) => RestoreGeneration(cfg, objects, g, SegmentKeys(cfg, objects, g))
  }

  // ---------- manifest and objects agree ----------

  /** The segments tile `data`, and each named object decodes to its piece of `data`. */
  predicate Holds(cfg: BackupConfig, objects: Objects, generation: string, segments: seq<SegmentMeta>, data: Bytes)
  {
    if segments == [] then data == []
    else
      var last := segments[|segments| - 1];
      && last.size > 0 && last.offset + last.size == |data|
      && DecodeAt(cfg, objects, SegmentKey(generation, last.index)) == Ok(data[last.offset..])
      && Holds(cfg, objects, generation, segments[..|segments| - 1], data[..last.offset])
  }

  lemma {:induction false} HoldsTiles(cfg: BackupConfig, objects: Objects, generation: string,
                                      segments: seq<SegmentMeta>, data: Bytes)
    requires Holds(cfg, objects, generation, segments, data)
    ensures Tiles(segments, |data|)
    ensures segments == [] <==> data == []
  {
    if segments != [] {
      var last := segments[|segments| - 1];
      HoldsTiles(cfg, objects, generation, segments[..|segments| - 1], data[..last.offset]);
    }
  }

  /** Restoring what the segments name gives exactly the data they hold. */
  lemma {:induction false} HoldsFetch(cfg: BackupConfig, objects: Objects, generation: string,
                                      segments: seq<SegmentMeta>, data: Bytes)
    requires Holds(cfg, objects, generation, segments, data)
    ensures Fetch(cfg, objects, KeysOf(generation, segments)) == Ok(data)
  {
    hide DecodeAt, SegmentKey, KeysOf;
    if segments == [] {
      NoKeys(generation);
    } else {
      var init := segments[..|segments| - 1];
      var last := segments[|segments| - 1];
      HoldsFetch(cfg, objects, generation, init, data[..last.offset]);
      KeysOfLast(generation, segments);
      FetchAppend(cfg, objects, KeysOf(generation, init), SegmentKey(generation, last.index));
      assert data == data[..last.offset] + data[last.offset..];
    }
  }

  lemma NoKeys(generation: string)
    ensures KeysOf(generation, []) == []
  {
  }

  lemma KeysOfLast(generation: string, segments: seq<SegmentMeta>)
    requires segments != []
    ensures KeysOf(generation, segments) ==
            KeysOf(generation, segments[..|segments| - 1]) + [SegmentKey(generation, segments[|segments| - 1].index)]
  {
  }

  lemma FetchAppend(cfg: BackupConfig, objects: Objects, keys: seq<string>, key: string)
    requires Fetch(cfg, objects, keys).Ok? && DecodeAt(cfg, objects, key).Ok?
    ensures Fetch(cfg, objects, keys + [key]) == Ok(Fetch(cfg, objects, keys).value + DecodeAt(cfg, objects, key).value)
  {
    assert (keys + [key])[..|keys + [key]| - 1] == keys;
  }

  /** Two stores hold the same for a list of segments when they agree on its objects. */
  lemma {:induction false} HoldsFrame(cfg: BackupConfig, a: Objects, b: Objects, generation: string,
                                      segments: seq<SegmentMeta>, data: Bytes)
    requires Holds(cfg, a, generation, segments, data)
    requires forall i :: 0 <= i < |segments| ==>
               var key := SegmentKey(generation, segments[i].index);
               key in a ==> key in b && b[key] == a[key]
    ensures Holds(cfg, b, generation, segments, data)
  {
    if segments != [] {
      var last := segments[|segments| - 1];
      var init := segments[..|segments| - 1];
      assert forall i :: 0 <= i < |init| ==> init[i] == segments[i];
      HoldsFrame(cfg, a, b, generation, init, data[..last.offset]);
      assert SegmentKey(generation, last.index) in a;
    }
  }

  /** Uploading the next piece under a new index extends what is held by that piece. */
  lemma HoldsAppend(cfg: BackupConfig, objects: Objects, generation: string, segments: seq<SegmentMeta>, data: Bytes,
                    added: SegmentMeta, chunk: Bytes, after: Objects)
    requires Holds(cfg, objects, generation, segments, data) && IndicesBelow(segments, added.index)
    requires chunk != [] && added.offset == |data| && added.size == |chunk|
    requires forall k :: k in objects && k != SegmentKey(generation, added.index) ==>
               k in after && after[k] == objects[k]
    requires DecodeAt(cfg, after, SegmentKey(generation, added.index)) == Ok(chunk)
    ensures Holds(cfg, after, generation, segments + [added], data + chunk)
  {
    forall i | 0 <= i < |segments|
      ensures SegmentKey(generation, segments[i].index) != SegmentKey(generation, added.index)
    {
      if SegmentKey(generation, segments[i].index) == SegmentKey(generation, added.index) {
        SegmentKeyInjective(generation, segments[i].index, added.index);
      }
    }
    HoldsFrame(cfg, objects, after, generation, segments, data);
    var all := segments + [added];
    assert all[..|all| - 1] == segments;
    assert (data + chunk)[..|data|] == data && (data + chunk)[|data|..] == chunk;
  }

  /** An initial part of the segments holds an initial part of the data. */
  lemma {:induction false} HoldsPrefix(cfg: BackupConfig, objects: Objects, generation: string,
                                       segments: seq<SegmentMeta>, data: Bytes, n: nat)
    returns (cut: nat)
    requires Holds(cfg, objects, generation, segments, data) && n <= |segments|
    ensures cut <= |data| && Holds(cfg, objects, generation, segments[..n], data[..cut])
    ensures cut == if n == |segments| then |data| else segments[n].offset
    decreases |segments|
  {
    if n == |segments| {
      cut := |data|;
      assert segments[..n] == segments && data[..cut] == data;
    } else {
      var last := segments[|segments| - 1];
      var init := segments[..|segments| - 1];
      var c := HoldsPrefix(cfg, objects, generation, init, data[..last.offset], n);
      cut := c;
      assert init[..n] == segments[..n];
      assert data[..last.offset][..cut] == data[..cut];
    }
  }

  // ---------- a published generation ----------

  function FilesOf(snapshot: Bytes, shipped: Bytes): (files: Files)
  {
    Files(snapshot, if shipped == [] then None else Some(shipped))
  }

  /** The marker names the generation, and its snapshot, manifest and segments are all in place. */
  predicate Published(cfg: BackupConfig, objects: Objects, generation: string, m: GenerationManifest, snapshot: Bytes,
                      shipped: Bytes)
  {
    && LatestGeneration(cfg, objects) == Ok(generation)
    && DecodeAt(cfg, objects, SnapshotKey(generation)) == Ok(snapshot)
    && ManifestAt(cfg, objects, generation) == Some(m)
    && Holds(cfg, objects, generation, m.segments, shipped)
  }

  lemma PublishedParts(cfg: BackupConfig, objects: Objects, generation: string, m: GenerationManifest, snapshot: Bytes,
                       shipped: Bytes)
    requires Published(cfg, objects, generation, m, snapshot, shipped)
    ensures LatestGeneration(cfg, objects) == Ok(generation)
    ensures DecodeAt(cfg, objects, SnapshotKey(generation)) == Ok(snapshot)
    ensures Holds(cfg, objects, generation, m.segments, shipped)
  {
  }

  /** A published generation restores to its snapshot and exactly the bytes shipped. */
  lemma PublishedRestores(cfg: BackupConfig, objects: Objects, generation: string, m: GenerationManifest,
                          snapshot: Bytes, shipped: Bytes)
    requires Published(cfg, objects, generation, m, snapshot, shipped)
    ensures RestoreLatest(cfg, objects) == Ok(FilesOf(snapshot, shipped))
  {
    HoldsFetch(cfg, objects, generation, m.segments, shipped);
    HoldsTiles(cfg, objects, generation, m.segments, shipped);
  }

  /** The keys that a restore of the generation reads. */
  predicate Reads(generation: string, segments: seq<SegmentMeta>, key: string)
  {
    || key == LATEST || key == SnapshotKey(generation) || key == ManifestKey(generation)
    || key in KeysOf(generation, segments)
  }

  /** Changing objects that the manifest does not name leaves the generation published as it was. */
  lemma PublishedFrame(cfg: BackupConfig, a: Objects, b: Objects, generation: string, m: GenerationManifest,
                       snapshot: Bytes, shipped: Bytes)
    requires Published(cfg, a, generation, m, snapshot, shipped)
    requires forall k :: k in a && Reads(generation, m.segments, k) ==> k in b && b[k] == a[k]
    ensures Published(cfg, b, generation, m, snapshot, shipped)
  {
    var keys := KeysOf(generation, m.segments);
    forall i | 0 <= i < |m.segments|
      ensures SegmentKey(generation, m.segments[i].index) in keys
    {
      assert keys[i] in keys;
    }
    HoldsFrame(cfg, a, b, generation, m.segments, shipped);
  }

  // ---------- every generation in the store ----------

  /** The stores agree on everything under the generation's prefix. */
  ghost predicate SameUnder(a: Objects, b: Objects, generation: string)
  {
    forall k :: Under(generation, k) && (k in a || k in b) ==> k in a && k in b && a[k] == b[k]
  }

  /** If the generation has a readable manifest, all that the manifest promises is there. */
  ghost predicate SoundGeneration(cfg: BackupConfig, objects: Objects, generation: string)
  {
    match ManifestAt(cfg, objects, generation)
    case None => true
    case Some(m) =>
      && m.generation == generation
      && (exists now :: TimesUpTo(m.segments, now))
      && DecodeAt(cfg, objects, SnapshotKey(generation)).Ok?
      && Fetch(cfg, objects, KeysOf(generation, m.segments)).Ok?
      && Holds(cfg, objects, generation, m.segments, Fetch(cfg, objects, KeysOf(generation, m.segments)).value)
  }

  /** No manifest in the store promises anything that is not there. */
  ghost predicate Sound(cfg: BackupConfig, objects: Objects)
  {
    forall g :: NoSlash(g) ==> SoundGeneration(cfg, objects, g)
  }

  lemma {:induction false} FetchFrame(cfg: BackupConfig, a: Objects, b: Objects, keys: seq<string>)
    requires forall k :: k in keys ==> DecodeAt(cfg, a, k) == DecodeAt(cfg, b, k)
    ensures Fetch(cfg, a, keys) == Fetch(cfg, b, keys)
  {
    if keys != [] {
      assert keys[|keys| - 1] in keys;
      FetchFrame(cfg, a, b, keys[..|keys| - 1]);
    }
  }

  lemma SoundFrame(cfg: BackupConfig, a: Objects, b: Objects, generation: string)
    requires SoundGeneration(cfg, a, generation) && SameUnder(a, b, generation)
    ensures SoundGeneration(cfg, b, generation)
  {
    KeyShapes(generation, 0);
    var r := ManifestAt(cfg, a, generation);
    if r.Some? {
      var keys := KeysOf(generation, r.value.segments);
      forall i | 0 <= i < |keys|
        ensures DecodeAt(cfg, a, keys[i]) == DecodeAt(cfg, b, keys[i])
      {
        KeyShapes(generation, r.value.segments[i].index);
      }
      FetchFrame(cfg, a, b, keys);
      HoldsFrame(cfg, a, b, generation, r.value.segments, Fetch(cfg, a, keys).value);
    }
  }

  /** A change confined to one generation keeps the store sound if that generation stays sound. */
  lemma SoundStep(cfg: BackupConfig, a: Objects, b: Objects, generation: string)
    requires Sound(cfg, a) && NoSlash(generation) && SoundGeneration(cfg, b, generation)
    requires forall k :: !Under(generation, k) && k != LATEST && (k in a || k in b) ==>
               k in a && k in b && a[k] == b[k]
    ensures Sound(cfg, b)
  {
    forall g | NoSlash(g)
      ensures SoundGeneration(cfg, b, g)
    {
      if g != generation {
        forall k | Under(g, k)
          ensures !Under(generation, k) && k != LATEST
        {
          KeyShapes(g, 0);
          if Under(generation, k) {
            GenerationsDisjoint(g, generation, k);
          }
        }
        SoundFrame(cfg, a, b, g);
      }
    }
  }

  lemma PublishedIsSound(cfg: BackupConfig, objects: Objects, generation: string, m: GenerationManifest,
                         snapshot: Bytes, shipped: Bytes, now: nat)
    requires Published(cfg, objects, generation, m, snapshot, shipped)
    requires m.generation == generation && TimesUpTo(m.segments, now)
    ensures SoundGeneration(cfg, objects, generation)
  {
    HoldsFetch(cfg, objects, generation, m.segments, shipped);
  }

  // ---------- which restores a change can reach ----------

  /** The restore reads only the marker and what lies under the generation it names. */
  lemma RestoreFrame(cfg: BackupConfig, a: Objects, b: Objects)
    requires (LATEST in a || LATEST in b) ==> LATEST in a && LATEST in b && a[LATEST] == b[LATEST]
    requires LatestGeneration(cfg, a).Ok? ==> SameUnder(a, b, LatestGeneration(cfg, a).value)
    ensures RestoreLatest(cfg, a) == RestoreLatest(cfg, b)
  {
    var r := LatestGeneration(cfg, a);
    if r.Ok? {
      var g := r.value;
      KeyShapes(g, 0);
      var prefix := WalPrefix(g);
      forall k | (k in a || k in b) && prefix <= k
        ensures Under(g, k)
      {
        assert prefix[..|g| + 1] == GenerationPrefix(g);
      }
      assert (set k | k in a && prefix <= k) == (set k | k in b && prefix <= k);
      var keys := SegmentKeys(cfg, a, g);
      forall k | k in keys
        ensures DecodeAt(cfg, a, k) == DecodeAt(cfg, b, k)
      {
        if ManifestAt(cfg, a, g).Some? {
          var segments := ManifestAt(cfg, a, g).value.segments;
          var i :| 0 <= i < |keys| && keys[i] == k;
          KeyShapes(g, segments[i].index);
        }
      }
      FetchFrame(cfg, a, b, keys);
    }
  }
}
