/** What a restore to a point in time gives. */
module PointInTime {
  import opened Wrappers
  import opened Manifest
  import opened Config
  import opened Pipeline
  import opened Keys
  import opened S3
  import opened Durable
  import opened Tracking
  import opened Restore

  // ---------- which generation ----------

  /** The later of two candidates not after the given time; the earlier one on a tie. */
  function Better(best: Option<GenerationManifest>, m: GenerationManifest,
                  timestampMs: nat): (r: Option<GenerationManifest>)
  {
    if m.snapshotTimestampMs > timestampMs then best
    else if best.Some? && best.value.snapshotTimestampMs >= m.snapshotTimestampMs then best
    else Some(m)
  }

  /** One pass over the manifests, keeping the best so far: what sorting and searching computes. */
  function Best(ms: seq<GenerationManifest>, timestampMs: nat): (r: Option<GenerationManifest>)
  {
    if ms == [] then None else Better(Best(ms[..|ms| - 1], timestampMs), ms[|ms| - 1], timestampMs)
  }

  predicate Descending(ms: seq<GenerationManifest>)
  {
    forall i, j :: 0 <= i < j < |ms| ==> ms[i].snapshotTimestampMs >= ms[j].snapshotTimestampMs
  }

  lemma {:induction false} InsertIsBetter(ms: seq<GenerationManifest>, m: GenerationManifest, timestampMs: nat)
    requires Descending(ms)
    ensures Descending(InsertDescending(ms, m))
    ensures forall x :: x in InsertDescending(ms, m) <==> x == m || x in ms
    ensures FirstNotAfter(InsertDescending(ms, m), timestampMs) ==
            Better(FirstNotAfter(ms, timestampMs), m, timestampMs)
  {
    if ms != [] && ms[0].snapshotTimestampMs >= m.snapshotTimestampMs {
      InsertIsBetter(ms[1..], m, timestampMs);
      var tail := InsertDescending(ms[1..], m);
      forall j | 0 <= j < |tail|
        ensures ms[0].snapshotTimestampMs >= tail[j].snapshotTimestampMs
      {
        assert tail[j] in tail;
      }
      assert ms == [ms[0]] + ms[1..];
    } else if ms != [] {
      FirstIsIn(ms, timestampMs);
      assert ([m] + ms)[1..] == ms;
    }
  }

  lemma {:induction false} FirstIsIn(ms: seq<GenerationManifest>, timestampMs: nat)
    ensures FirstNotAfter(ms, timestampMs).Some? ==> FirstNotAfter(ms, timestampMs).value in ms
  {
    if ms != [] {
      FirstIsIn(ms[1..], timestampMs);
    }
  }

  lemma {:induction false} SortThenFind(ms: seq<GenerationManifest>, timestampMs: nat)
    ensures Descending(SortDescending(ms))
    ensures FirstNotAfter(SortDescending(ms), timestampMs) == Best(ms, timestampMs)
  {
    if ms != [] {
      SortThenFind(ms[..|ms| - 1], timestampMs);
      InsertIsBetter(SortDescending(ms[..|ms| - 1]), ms[|ms| - 1], timestampMs);
    }
  }

  /** The best is the latest one not after the given time, and exists unless all are after it. */
  lemma {:induction false} BestIsLatest(ms: seq<GenerationManifest>, timestampMs: nat)
    ensures Best(ms, timestampMs).None? <==> forall m :: m in ms ==> m.snapshotTimestampMs > timestampMs
    ensures var r := Best(ms, timestampMs);
            r.Some? ==> r.value in ms && r.value.snapshotTimestampMs <= timestampMs
    ensures var r := Best(ms, timestampMs);
            r.Some? ==> forall m :: m in ms && m.snapshotTimestampMs <= timestampMs ==>
                          m.snapshotTimestampMs <= r.value.snapshotTimestampMs
  {
    if ms != [] {
      var n := |ms| - 1;
      BestIsLatest(ms[..n], timestampMs);
      assert ms == ms[..n] + [ms[n]];
    }
  }

  // ---------- the manifests of a store ----------

  lemma {:induction false} ManifestsFound(cfg: BackupConfig, objects: Objects, keys: seq<string>, m: GenerationManifest)
    ensures m in Manifests(cfg, objects, keys) <==>
            exists k :: k in keys && EndsWith(k, MANIFEST_SUFFIX) && k in objects
                        && DecodeManifest(cfg, objects[k]) == Some(m)
  {
    if keys != [] {
      var n := |keys| - 1;
      ManifestsFound(cfg, objects, keys[..n], m);
      assert keys == keys[..n] + [keys[n]];
    }
  }

  /** In a store of the manager's shape, the manifests found are exactly those of its generations. */
  lemma AllManifestsAre(cfg: BackupConfig, objects: Objects, issued: set<string>, m: GenerationManifest)
    requires Registered(cfg, objects, issued) && Sound(cfg, objects)
    ensures m in AllManifests(cfg, objects) <==>
              NoSlash(m.generation) && ManifestAt(cfg, objects, m.generation) == Some(m)
  {
    hide Listing, Manifests, DecodeManifest, WellKeyed, NoSlash, EndsWith;
    var keys := Listing(objects, "");
    ManifestsFound(cfg, objects, keys, m);
    AllListed(objects);
    if m in AllManifests(cfg, objects) {
      var k :| k in keys && EndsWith(k, MANIFEST_SUFFIX) && k in objects && DecodeManifest(cfg, objects[k]) == Some(m);
      ManifestKeyShape(k);
      HeadIsPlain(k);
      assert SoundGeneration(cfg, objects, Head(k));
    }
    if NoSlash(m.generation) && ManifestAt(cfg, objects, m.generation) == Some(m) {
      TrimManifestKey(m.generation);
      assert ManifestKey(m.generation) in keys;
    }
  }

  lemma AllListed(objects: Objects)
    ensures forall k :: k in Listing(objects, "") <==> k in objects
  {
  }

  lemma ManifestKeyShape(key: string)
    requires WellKeyed(key) && EndsWith(key, MANIFEST_SUFFIX)
    ensures key == ManifestKey(Head(key))
  {
    OtherKeysAreNotManifests(Head(key), 0);
    if key != ManifestKey(Head(key)) {
      var i :| key == SegmentKey(Head(key), i);
      OtherKeysAreNotManifests(Head(key), i);
    }
  }

  // ---------- which segments ----------

  /** Upload times never decrease, so the filter keeps an initial part of the list. */
  lemma {:induction false} UpToIsPrefix(segments: seq<SegmentMeta>, now: nat, timestampMs: nat) returns (n: nat)
    requires TimesUpTo(segments, now)
    ensures n <= |segments| && UpTo(segments, timestampMs) == segments[..n]
    ensures forall i :: 0 <= i < n ==> segments[i].timestampMs <= timestampMs
    ensures forall i :: n <= i < |segments| ==> segments[i].timestampMs > timestampMs
  {
    if segments == [] {
      n := 0;
    } else {
      var k := |segments| - 1;
      var init := segments[..k];
      assert segments == init + [segments[k]];
      n := UpToIsPrefix(init, now, timestampMs);
      assert init[..n] == segments[..n];
      if segments[k].timestampMs <= timestampMs {
        NoneLeftOut(segments, now, n, k, timestampMs);
        n := k + 1;
      }
    }
  }

  /** Of segments that are all stamped later none is kept. */
  lemma {:induction false} NoneUpTo(segments: seq<SegmentMeta>, since: nat, timestampMs: nat)
    requires timestampMs < since && forall i :: 0 <= i < |segments| ==> segments[i].timestampMs >= since
    ensures UpTo(segments, timestampMs) == []
  {
    if segments != [] {
      NoneUpTo(segments[..|segments| - 1], since, timestampMs);
    }
  }

  lemma NoneLeftOut(segments: seq<SegmentMeta>, now: nat, n: nat, k: nat, timestampMs: nat)
    requires TimesUpTo(segments, now) && n <= k < |segments| && segments[k].timestampMs <= timestampMs
    requires forall i :: n <= i < k ==> segments[i].timestampMs > timestampMs
    ensures n == k
  {
    assert segments[n].timestampMs <= segments[k].timestampMs;
  }

  /** The WAL bytes that a restore to the given time places. */
  function WalUpTo(cfg: BackupConfig, objects: Objects, m: GenerationManifest, timestampMs: nat): (r: Result<Bytes>)
  {
    Fetch(cfg, objects, KeysOf(m.generation, UpTo(m.segments, timestampMs)))
  }

  /**
   The WAL placed for a time is an initial part of what the generation shipped, ending between
   two segments: everything uploaded by then and nothing uploaded later.
   */
  lemma WalUpToIsPrefix(cfg: BackupConfig, objects: Objects, m: GenerationManifest, data: Bytes, now: nat,
                        timestampMs: nat)
    returns (n: nat, cut: nat)
    requires Holds(cfg, objects, m.generation, m.segments, data) && TimesUpTo(m.segments, now)
    ensures n <= |m.segments| && cut <= |data|
    ensures WalUpTo(cfg, objects, m, timestampMs) == Ok(data[..cut])
    ensures forall i :: 0 <= i < |m.segments| ==> (i < n <==> m.segments[i].timestampMs <= timestampMs)
    ensures UpTo(m.segments, timestampMs) == m.segments[..n]
    ensures Holds(cfg, objects, m.generation, m.segments[..n], data[..cut])
    ensures cut == if n == |m.segments| then |data| else m.segments[n].offset
  {
    n := UpToIsPrefix(m.segments, now, timestampMs);
    cut := HoldsPrefix(cfg, objects, m.generation, m.segments, data, n);
    HoldsFetch(cfg, objects, m.generation, m.segments[..n], data[..cut]);
  }

  lemma CountsGrow(segments: seq<SegmentMeta>, early: nat, late: nat, n: nat, n': nat)
    requires n <= |segments| && n' <= |segments| && early <= late
    requires forall i :: 0 <= i < |segments| ==> (i < n <==> segments[i].timestampMs <= early)
    requires forall i :: 0 <= i < |segments| ==> (i < n' <==> segments[i].timestampMs <= late)
    ensures n <= n'
  {
    if n > 0 {
      assert segments[n - 1].timestampMs <= early;
    }
  }

  /** A later time in the same generation never restores less. */
  lemma LaterTimeExtends(cfg: BackupConfig, objects: Objects, m: GenerationManifest, data: Bytes, now: nat, early: nat,
                         late: nat)
    requires Holds(cfg, objects, m.generation, m.segments, data) && TimesUpTo(m.segments, now) && early <= late
    ensures WalUpTo(cfg, objects, m, early).Ok? && WalUpTo(cfg, objects, m, late).Ok?
    ensures WalUpTo(cfg, objects, m, early).value <= WalUpTo(cfg, objects, m, late).value <= data
  {
    hide Holds, WalUpTo, UpTo, TimesUpTo;
    var n, cut := WalUpToIsPrefix(cfg, objects, m, data, now, early);
    var n', cut' := WalUpToIsPrefix(cfg, objects, m, data, now, late);
    CountsGrow(m.segments, early, late, n, n');
    var c := HoldsPrefix(cfg, objects, m.generation, m.segments[..n'], data[..cut'], n);
    assert m.segments[..n'][..n] == m.segments[..n];
    if n < n' {
      assert m.segments[..n'][n] == m.segments[n];
    }
  }

  // ---------- the whole restore ----------

  /**
   In any sound store a restore to a point in time succeeds if and only if some generation was
   snapshotted by then; it uses the latest such generation, and places its snapshot and an
   initial part of its WAL.
   */
  lemma PitrRestores(cfg: BackupConfig, objects: Objects, issued: set<string>, timestampMs: nat)
    requires Registered(cfg, objects, issued) && Sound(cfg, objects)
    ensures RestorePitr(cfg, objects, timestampMs).Ok? <==>
            exists g :: NoSlash(g) && ManifestAt(cfg, objects, g).Some?
                        && ManifestAt(cfg, objects, g).value.snapshotTimestampMs <= timestampMs
    ensures RestorePitr(cfg, objects, timestampMs).Ok? ==>
              var r := Chosen(cfg, objects, timestampMs);
              && r.Some? && NoSlash(r.value.generation) && ManifestAt(cfg, objects, r.value.generation) == r
              && r.value.snapshotTimestampMs <= timestampMs
              && (forall g | NoSlash(g) && ManifestAt(cfg, objects, g).Some?
                    && ManifestAt(cfg, objects, g).value.snapshotTimestampMs <= timestampMs
                    :: ManifestAt(cfg, objects, g).value.snapshotTimestampMs <= r.value.snapshotTimestampMs)
              && WalUpTo(cfg, objects, r.value, timestampMs) == Ok(WalOf(RestorePitr(cfg, objects, timestampMs).value))
              && Fetch(cfg, objects, KeysOf(r.value.generation, r.value.segments)).Ok?
              && WalOf(RestorePitr(cfg, objects, timestampMs).value)
                 <= Fetch(cfg, objects, KeysOf(r.value.generation, r.value.segments)).value
  {
    hide SortDescending, Holds, Fetch, Registered;
    var ms := AllManifests(cfg, objects);
    SortThenFind(ms, timestampMs);
    BestIsLatest(ms, timestampMs);
    forall g | NoSlash(g) && ManifestAt(cfg, objects, g).Some?
      ensures ManifestAt(cfg, objects, g).value in ms
    {
      assert SoundGeneration(cfg, objects, g);
      AllManifestsAre(cfg, objects, issued, ManifestAt(cfg, objects, g).value);
    }
    var r := Chosen(cfg, objects, timestampMs);
    if r.Some? {
      var m := r.value;
      AllManifestsAre(cfg, objects, issued, m);
      assert SoundGeneration(cfg, objects, m.generation);
      var now :| TimesUpTo(m.segments, now);
      var data := Fetch(cfg, objects, KeysOf(m.generation, m.segments)).value;
      var n, cut := WalUpToIsPrefix(cfg, objects, m, data, now, timestampMs);
      HoldsTiles(cfg, objects, m.generation, m.segments[..n], data[..cut]);
    }
  }

  /**
   Past every timestamp, and with the current generation's snapshot strictly the latest, a
   restore to a point in time and a restore of the latest backup place the same files.
   */
  lemma PitrMeetsLatest(cfg: BackupConfig, objects: Objects, issued: set<string>, generation: string,
                        m: GenerationManifest, snapshot: Bytes, shipped: Bytes, timestampMs: nat)
    requires Registered(cfg, objects, issued) && Sound(cfg, objects) && NoSlash(generation)
    requires m.generation == generation
    requires Published(cfg, objects, generation, m, snapshot, shipped)
    requires TimesUpTo(m.segments, timestampMs) && m.snapshotTimestampMs <= timestampMs
    requires forall g :: NoSlash(g) && g != generation && ManifestAt(cfg, objects, g).Some? ==>
               ManifestAt(cfg, objects, g).value.snapshotTimestampMs < m.snapshotTimestampMs
    ensures RestorePitr(cfg, objects, timestampMs) == RestoreLatest(cfg, objects)
  {
    hide Holds, Fetch, Registered, Sound, Chosen, DecodeManifest, DecodeAt;
    PitrRestores(cfg, objects, issued, timestampMs);
    var r := Chosen(cfg, objects, timestampMs);
    assert ManifestAt(cfg, objects, generation) == Some(m);
    assert r.value.generation == generation;
    var n := UpToIsPrefix(m.segments, timestampMs, timestampMs);
    assert m.segments[..n] == m.segments;
  }

  // ---------- frame boundaries ----------

  lemma {:induction false} AlignedCutsPrefix(cfg: BackupConfig, objects: Objects, generation: string,
                                             segments: seq<SegmentMeta>, data: Bytes, least: nat, n: nat)
    returns (cut: nat)
    requires Holds(cfg, objects, generation, segments, data) && AlignedCuts(segments, data, least) && n <= |segments|
    ensures cut == (if n == |segments| then |data| else segments[n].offset) <= |data|
    ensures n > 0 ==> AlignedEnd(data[..cut], least)
    decreases |segments|
  {
    hide AlignedEnd, DecodeAt;
    if n == |segments| {
      cut := |data|;
      assert data[..cut] == data;
    } else {
      var k := |segments| - 1;
      var offset := segments[k].offset;
      cut := AlignedCutsPrefix(cfg, objects, generation, segments[..k], data[..offset], least, n);
      assert data[..offset][..cut] == data[..cut];
    }
  }

  // ---------- the configuration used for restoring ----------

  /** Same key, same libraries; the compression algorithm and the retention period may differ. */
  ghost predicate SameReading(a: BackupConfig, b: BackupConfig)
  {
    a.codecs == b.codecs && a.formats == b.formats && a.encryptionKey == b.encryptionKey
  }

  lemma {:induction false} FetchIgnoresAlgorithm(a: BackupConfig, b: BackupConfig, objects: Objects, keys: seq<string>)
    requires SameReading(a, b)
    ensures Fetch(a, objects, keys) == Fetch(b, objects, keys)
  {
    if keys != [] {
      FetchIgnoresAlgorithm(a, b, objects, keys[..|keys| - 1]);
    }
  }

  lemma {:induction false} ManifestsIgnoreAlgorithm(a: BackupConfig, b: BackupConfig, objects: Objects,
                                                    keys: seq<string>)
    requires SameReading(a, b)
    ensures Manifests(a, objects, keys) == Manifests(b, objects, keys)
  {
    if keys != [] {
      ManifestsIgnoreAlgorithm(a, b, objects, keys[..|keys| - 1]);
    }
  }

  /** What a store restores to, at any time, does not depend on the algorithm configured for the restore. */
  lemma RestoreIgnoresAlgorithm(a: BackupConfig, b: BackupConfig, objects: Objects, timestampMs: nat)
    requires SameReading(a, b)
    ensures RestoreLatest(a, objects) == RestoreLatest(b, objects)
    ensures RestorePitr(a, objects, timestampMs) == RestorePitr(b, objects, timestampMs)
  {
    hide Listing, SortDescending, Fetch, Manifests;
    forall keys
      ensures Fetch(a, objects, keys) == Fetch(b, objects, keys)
    {
      FetchIgnoresAlgorithm(a, b, objects, keys);
    }
    ManifestsIgnoreAlgorithm(a, b, objects, Listing(objects, ""));
  }
}
