/** Restores to times past: which generation is chosen, and why nothing done later changes it. */
module Past {
  import opened Wrappers
  import opened Manifest
  import opened Config
  import opened Pipeline
  import opened Order
  import opened Keys
  import opened S3
  import opened Durable
  import opened Tracking
  import opened Steps
  import opened Restore
  import opened PointInTime
  import opened Ledger

  // ---------- the choice, exactly ----------

  /** The generation has a readable manifest whose snapshot is not after the given time. */
  predicate Candidate(cfg: BackupConfig, objects: Objects, generation: string, timestampMs: nat)
  {
    && NoSlash(generation) && ManifestAt(cfg, objects, generation).Some?
    && ManifestAt(cfg, objects, generation).value.snapshotTimestampMs <= timestampMs
  }

  /** Snapshotted later than the other, or at the same time and listed in front of it. */
  predicate Before(cfg: BackupConfig, objects: Objects, g: string, h: string)
    requires ManifestAt(cfg, objects, g).Some? && ManifestAt(cfg, objects, h).Some?
  {
    var a := ManifestAt(cfg, objects, g).value.snapshotTimestampMs;
    var b := ManifestAt(cfg, objects, h).value.snapshotTimestampMs;
    b < a || (a == b && Less(ManifestKey(g), ManifestKey(h)))
  }

  /** The first of all candidates. */
  ghost predicate First(cfg: BackupConfig, objects: Objects, generation: string, timestampMs: nat)
  {
    && Candidate(cfg, objects, generation, timestampMs)
    && forall g :: g != generation && Candidate(cfg, objects, g, timestampMs) ==> Before(cfg, objects, generation, g)
  }

  lemma OnlyFirst(cfg: BackupConfig, objects: Objects, g: string, h: string, timestampMs: nat)
    requires First(cfg, objects, g, timestampMs) && First(cfg, objects, h, timestampMs)
    ensures g == h
  {
    if g != h && Less(ManifestKey(g), ManifestKey(h)) {
      LessTransitive(ManifestKey(g), ManifestKey(h), ManifestKey(g));
      LessIrreflexive(ManifestKey(g));
    }
  }

  /** The best manifest among those under a sorted list of keys is the first, and is under its own key. */
  lemma {:induction false} BestComesFirst(cfg: BackupConfig, objects: Objects, keys: seq<string>, timestampMs: nat)
    requires StrictlySorted(keys) && Sound(cfg, objects) && forall k :: k in keys ==> k in objects && WellKeyed(k)
    ensures var r := Best(Manifests(cfg, objects, keys), timestampMs);
            r.Some? ==>
              && Candidate(cfg, objects, r.value.generation, timestampMs) && ManifestKey(r.value.generation) in keys
              && ManifestAt(cfg, objects, r.value.generation) == r
              && forall g | g != r.value.generation && ManifestKey(g) in keys
                            && Candidate(cfg, objects, g, timestampMs) ::
                   Before(cfg, objects, r.value.generation, g)
    ensures Best(Manifests(cfg, objects, keys), timestampMs).None? ==>
              forall g :: ManifestKey(g) in keys ==> !Candidate(cfg, objects, g, timestampMs)
  {
    hide WellKeyed, Sound, Less, NoSlash, ManifestAt, DecodeManifest, EndsWith;
    if keys != [] {
      var n := |keys| - 1;
      var init, key := keys[..n], keys[n];
      assert keys == init + [key];
      BestComesFirst(cfg, objects, init, timestampMs);
      var m := ManifestUnder(cfg, objects, key);
      var best, r := Best(Manifests(cfg, objects, init), timestampMs), Best(Manifests(cfg, objects, keys), timestampMs);
      forall g | ManifestKey(g) in keys && Candidate(cfg, objects, g, timestampMs)
        ensures r.Some? && (g != r.value.generation ==> Before(cfg, objects, r.value.generation, g))
      {
        if ManifestKey(g) in init {
          EarlierKey(keys, g);
        } else if m.Some? {
          ManifestKeyInjective(g, m.value.generation);
          if best.Some? {
            EarlierKey(keys, best.value.generation);
          }
        }
      }
    }
  }

  lemma EarlierKey(keys: seq<string>, g: string)
    requires StrictlySorted(keys) && keys != [] && ManifestKey(g) in keys[..|keys| - 1]
    ensures Less(ManifestKey(g), keys[|keys| - 1])
  {
    var i :| 0 <= i < |keys| - 1 && keys[..|keys| - 1][i] == ManifestKey(g);
    assert keys[i] == ManifestKey(g);
  }

  lemma ManifestKeyInjective(g: string, h: string)
    requires ManifestKey(g) == ManifestKey(h)
    ensures g == h
  {
    assert g == ManifestKey(g)[..|g|] && h == ManifestKey(h)[..|h|];
  }

  /** What one key adds to the list of manifests. */
  lemma ManifestUnder(cfg: BackupConfig, objects: Objects, key: string) returns (m: Option<GenerationManifest>)
    requires Sound(cfg, objects) && key in objects && WellKeyed(key)
    ensures m == if EndsWith(key, MANIFEST_SUFFIX) then DecodeManifest(cfg, objects[key]) else None
    ensures m.Some? ==>
              && NoSlash(m.value.generation)
              && key == ManifestKey(m.value.generation)
              && ManifestAt(cfg, objects, m.value.generation) == m
    ensures forall g :: NoSlash(g) && key == ManifestKey(g) ==> ManifestAt(cfg, objects, g) == m
  {
    m := if EndsWith(key, MANIFEST_SUFFIX) then DecodeManifest(cfg, objects[key]) else None;
    if EndsWith(key, MANIFEST_SUFFIX) {
      ManifestKeyShape(key);
      HeadIsPlain(key);
      assert SoundGeneration(cfg, objects, Head(key));
    }
    forall g | NoSlash(g) && key == ManifestKey(g)
      ensures EndsWith(key, MANIFEST_SUFFIX)
    {
      TrimManifestKey(g);
    }
  }

  /**
   The choice of restore_pitr(), ties included: the first candidate, if there is any. Of several
   generations snapshotted at the same time, and no later one, it is the one listed first.
   */
  lemma ChosenIsFirst(cfg: BackupConfig, objects: Objects, issued: set<string>, timestampMs: nat)
    requires Registered(cfg, objects, issued) && Sound(cfg, objects)
    ensures var r := Chosen(cfg, objects, timestampMs);
            && (r.Some? ==> First(cfg, objects, r.value.generation, timestampMs))
            && (r.Some? ==> ManifestAt(cfg, objects, r.value.generation) == r)
            && (r.None? ==> forall g :: !Candidate(cfg, objects, g, timestampMs))
  {
    var keys := Listing(objects, "");
    assert forall k :: k in keys <==> k in objects;
    hide Listing, WellKeyed, Sound, SortDescending, NoSlash, DecodeManifest;
    SortThenFind(AllManifests(cfg, objects), timestampMs);
    BestComesFirst(cfg, objects, keys, timestampMs);
  }

  /** And conversely: a generation that comes first is the one chosen, be the others as late as it. */
  lemma FirstIsChosen(cfg: BackupConfig, objects: Objects, issued: set<string>, generation: string, timestampMs: nat)
    requires Registered(cfg, objects, issued) && Sound(cfg, objects) && First(cfg, objects, generation, timestampMs)
    ensures Chosen(cfg, objects, timestampMs) == ManifestAt(cfg, objects, generation)
  {
    hide Chosen, Registered, Sound, First;
    ChosenIsFirst(cfg, objects, issued, timestampMs);
    FirstIsCandidate(cfg, objects, generation, timestampMs);
    OnlyFirst(cfg, objects, generation, Chosen(cfg, objects, timestampMs).value.generation, timestampMs);
  }

  lemma FirstIsCandidate(cfg: BackupConfig, objects: Objects, generation: string, timestampMs: nat)
    requires First(cfg, objects, generation, timestampMs)
    ensures Candidate(cfg, objects, generation, timestampMs)
  {
  }

  // ---------- later changes ----------

  /** A restore to this time gives the same files from both stores, or is impossible from both. */
  ghost predicate SameAt(cfg: BackupConfig, a: Objects, b: Objects, timestampMs: nat)
  {
    var x, y := RestorePitr(cfg, a, timestampMs), RestorePitr(cfg, b, timestampMs);
    x == y || (x.Err? && y.Err?)
  }

  ghost predicate SamePast(cfg: BackupConfig, a: Objects, b: Objects, present: nat)
  {
    forall timestampMs: nat :: timestampMs < present ==> SameAt(cfg, a, b, timestampMs)
  }

  lemma SamePastOn(cfg: BackupConfig, a: Objects, b: Objects, c: Objects, early: nat, late: nat)
    requires SamePast(cfg, a, b, early) && SamePast(cfg, b, c, late) && early <= late
    ensures SamePast(cfg, a, c, early)
  {
    hide SameAt;
    forall timestampMs: nat | timestampMs < early
      ensures SameAt(cfg, a, c, timestampMs)
    {
      assert SameAt(cfg, a, b, timestampMs) && SameAt(cfg, b, c, timestampMs);
      SameAtOn(cfg, a, b, c, timestampMs);
    }
  }

  lemma SameAtOn(cfg: BackupConfig, a: Objects, b: Objects, c: Objects, timestampMs: nat)
    requires SameAt(cfg, a, b, timestampMs) && SameAt(cfg, b, c, timestampMs)
    ensures SameAt(cfg, a, c, timestampMs)
  {
  }

  lemma SamePastLess(cfg: BackupConfig, a: Objects, b: Objects, early: nat, late: nat)
    requires SamePast(cfg, a, b, late) && early <= late
    ensures SamePast(cfg, a, b, early)
  {
    hide SameAt;
  }

  lemma SamePastNever(cfg: BackupConfig, a: Objects, b: Objects)
    ensures SamePast(cfg, a, b, 0)
  {
  }

  lemma SamePastReflexive(cfg: BackupConfig, a: Objects, present: nat)
    ensures SamePast(cfg, a, a, present)
  {
  }

  /** The generation offers the same for this time in both stores. */
  predicate SameOffer(cfg: BackupConfig, a: Objects, b: Objects, generation: string, timestampMs: nat)
  {
    && (Candidate(cfg, a, generation, timestampMs) <==> Candidate(cfg, b, generation, timestampMs))
    && (Candidate(cfg, a, generation, timestampMs) ==>
          var m, n := ManifestAt(cfg, a, generation).value, ManifestAt(cfg, b, generation).value;
          && m.snapshotTimestampMs == n.snapshotTimestampMs
          && RestoreGeneration(cfg, a, generation, KeysOf(generation, UpTo(m.segments, timestampMs)))
               == RestoreGeneration(cfg, b, generation, KeysOf(generation, UpTo(n.segments, timestampMs))))
  }

  lemma UntouchedOffer(cfg: BackupConfig, a: Objects, b: Objects, generation: string, timestampMs: nat)
    requires SameUnder(a, b, generation)
    ensures SameOffer(cfg, a, b, generation, timestampMs)
  {
    KeyShapes(generation, 0);
    if Candidate(cfg, a, generation, timestampMs) {
      var segments := UpTo(ManifestAt(cfg, a, generation).value.segments, timestampMs);
      var keys := KeysOf(generation, segments);
      forall k | k in keys
        ensures DecodeAt(cfg, a, k) == DecodeAt(cfg, b, k)
      {
        var i :| 0 <= i < |keys| && keys[i] == k;
        KeyShapes(generation, segments[i].index);
      }
      FetchFrame(cfg, a, b, keys);
    }
  }

  /** With the same offers everywhere, the same generation comes first and gives the same files. */
  lemma SameOffersSameAt(cfg: BackupConfig, a: Objects, b: Objects, issued: set<string>, issued': set<string>,
                         timestampMs: nat)
    requires Registered(cfg, a, issued) && Sound(cfg, a) && Registered(cfg, b, issued') && Sound(cfg, b)
    requires forall g :: NoSlash(g) ==> SameOffer(cfg, a, b, g, timestampMs)
    ensures SameAt(cfg, a, b, timestampMs)
  {
    hide Registered, Sound, Chosen, RestoreGeneration, ManifestAt, UpTo, NoSlash, Less;
    ChosenIsFirst(cfg, a, issued, timestampMs);
    ChosenIsFirst(cfg, b, issued', timestampMs);
    var x, y := Chosen(cfg, a, timestampMs), Chosen(cfg, b, timestampMs);
    if x.Some? {
      var g := x.value.generation;
      assert SameOffer(cfg, a, b, g, timestampMs);
      assert y.Some?;
      assert First(cfg, b, g, timestampMs) by {
        forall h | h != g && Candidate(cfg, b, h, timestampMs)
          ensures Before(cfg, b, g, h)
        {
          assert SameOffer(cfg, a, b, h, timestampMs);
        }
      }
      OnlyFirst(cfg, b, g, y.value.generation, timestampMs);
      NotEmpty(cfg, a, timestampMs);
      NotEmpty(cfg, b, timestampMs);
    } else {
      assert y.Some? ==> SameOffer(cfg, a, b, y.value.generation, timestampMs);
    }
  }

  lemma NotEmpty(cfg: BackupConfig, objects: Objects, timestampMs: nat)
    ensures Chosen(cfg, objects, timestampMs).Some? ==> AllManifests(cfg, objects) != []
  {
  }

  /** A change within one generation that leaves its offers for the past alone. */
  lemma PastStands(cfg: BackupConfig, a: Objects, b: Objects, issued: set<string>, issued': set<string>,
                   generation: string, present: nat)
    requires Registered(cfg, a, issued) && Sound(cfg, a) && Registered(cfg, b, issued') && Sound(cfg, b)
    requires NoSlash(generation) && SameElsewhere(a, b, generation)
    requires forall timestampMs: nat :: timestampMs < present ==> SameOffer(cfg, a, b, generation, timestampMs)
    ensures SamePast(cfg, a, b, present)
  {
    hide Registered, Sound, SameOffer, SameAt, SameElsewhere, NoSlash;
    forall timestampMs: nat | timestampMs < present
      ensures SameAt(cfg, a, b, timestampMs)
    {
      forall g | NoSlash(g)
        ensures SameOffer(cfg, a, b, g, timestampMs)
      {
        if g != generation {
          OthersSame(a, b, generation, g);
          UntouchedOffer(cfg, a, b, g, timestampMs);
        }
      }
      SameOffersSameAt(cfg, a, b, issued, issued', timestampMs);
    }
  }

  /** Objects that no manifest names play no part in any restore: a segment on its way, a snapshot, the marker. */
  lemma UnreadStands(cfg: BackupConfig, a: Objects, b: Objects, issued: set<string>, issued': set<string>,
                     generation: string, present: nat)
    requires Registered(cfg, a, issued) && Sound(cfg, a) && Registered(cfg, b, issued') && Sound(cfg, b)
    requires NoSlash(generation) && SameElsewhere(a, b, generation)
    requires ManifestAt(cfg, b, generation) == ManifestAt(cfg, a, generation)
    requires ManifestAt(cfg, a, generation).Some? ==>
               var m := ManifestAt(cfg, a, generation).value;
               && DecodeAt(cfg, a, SnapshotKey(generation)).Ok? && Fetch(cfg, a, KeysOf(generation, m.segments)).Ok?
               && forall k :: k in a && Reads(generation, m.segments, k) && k != LATEST ==> k in b && b[k] == a[k]
    ensures SamePast(cfg, a, b, present)
  {
    hide Registered, Sound, SameElsewhere, NoSlash, SameOffer, ManifestAt, Fetch, DecodeAt;
    if ManifestAt(cfg, a, generation).None? {
      NoOffer(cfg, a, b, generation);
    } else {
      forall timestampMs: nat | timestampMs < present
        ensures SameOffer(cfg, a, b, generation, timestampMs)
      {
        UnreadOffer(cfg, a, b, generation, ManifestAt(cfg, a, generation).value, timestampMs);
      }
    }
    PastStands(cfg, a, b, issued, issued', generation, present);
  }

  lemma NoOffer(cfg: BackupConfig, a: Objects, b: Objects, generation: string)
    requires ManifestAt(cfg, a, generation).None? && ManifestAt(cfg, b, generation).None?
    ensures forall timestampMs: nat :: SameOffer(cfg, a, b, generation, timestampMs)
  {
  }

  lemma UnreadOffer(cfg: BackupConfig, a: Objects, b: Objects, generation: string, m: GenerationManifest,
                    timestampMs: nat)
    requires ManifestAt(cfg, a, generation) == ManifestAt(cfg, b, generation) == Some(m)
    requires DecodeAt(cfg, a, SnapshotKey(generation)).Ok? && Fetch(cfg, a, KeysOf(generation, m.segments)).Ok?
    requires forall k :: k in a && Reads(generation, m.segments, k) && k != LATEST ==> k in b && b[k] == a[k]
    ensures SameOffer(cfg, a, b, generation, timestampMs)
  {
    hide Fetch, UpTo, SegmentKey;
    KeyShapes(generation, 0);
    forall k | k in KeysOf(generation, UpTo(m.segments, timestampMs))
      ensures DecodeAt(cfg, a, k) == DecodeAt(cfg, b, k)
    {
      NamedIsThere(cfg, a, generation, m.segments, timestampMs, k);
    }
    FetchFrame(cfg, a, b, KeysOf(generation, UpTo(m.segments, timestampMs)));
  }

  lemma NamedIsThere(cfg: BackupConfig, objects: Objects, generation: string, segments: seq<SegmentMeta>,
                     timestampMs: nat, key: string)
    requires Fetch(cfg, objects, KeysOf(generation, segments)).Ok?
    requires key in KeysOf(generation, UpTo(segments, timestampMs))
    ensures key in objects && key in KeysOf(generation, segments) && key != LATEST
  {
    hide Fetch, UpTo, SegmentKey;
    var all, keys := KeysOf(generation, segments), KeysOf(generation, UpTo(segments, timestampMs));
    UpToAmong(segments, timestampMs);
    var i :| 0 <= i < |keys| && keys[i] == key;
    assert UpTo(segments, timestampMs)[i] in segments;
    var j :| 0 <= j < |segments| && segments[j] == UpTo(segments, timestampMs)[i];
    assert all[j] == key;
    KeyShapes(generation, segments[j].index);
    FetchedIsThere(cfg, objects, all, j);
  }

  lemma {:induction false} UpToAmong(segments: seq<SegmentMeta>, timestampMs: nat)
    ensures forall x :: x in UpTo(segments, timestampMs) ==> x in segments
  {
    if segments != [] {
      UpToAmong(segments[..|segments| - 1], timestampMs);
    }
  }

  lemma {:induction false} FetchedIsThere(cfg: BackupConfig, objects: Objects, keys: seq<string>, j: nat)
    requires Fetch(cfg, objects, keys).Ok? && j < |keys|
    ensures keys[j] in objects
  {
    if j < |keys| - 1 {
      FetchedIsThere(cfg, objects, keys[..|keys| - 1], j);
    }
  }

  // ---------- the uploads ----------

  /** Uploading a segment that no manifest names, the first snapshot of a generation, or the marker. */
  lemma UnnamedPast(cfg: BackupConfig, objects: Objects, issued: set<string>, generation: string, key: string,
                    data: Bytes, present: nat)
    requires var after := objects[key := data];
             && Registered(cfg, objects, issued) && Sound(cfg, objects)
             && Registered(cfg, after, issued) && Sound(cfg, after)
    requires NoSlash(generation) && (OwnKey(generation, key) || key == LATEST) && key != ManifestKey(generation)
    requires ManifestAt(cfg, objects, generation).Some? && key != LATEST ==>
               !Reads(generation, ManifestAt(cfg, objects, generation).value.segments, key)
    ensures SamePast(cfg, objects, objects[key := data], present)
  {
    hide Registered, SamePast, OwnKey, Holds, Fetch, DecodeAt;
    PutElsewhere(objects, generation, key, data);
    KeyShapes(generation, 0);
    assert SoundGeneration(cfg, objects, generation);
    UnreadStands(cfg, objects, objects[key := data], issued, issued, generation, present);
  }

  /** The manifest starts a generation at present, or continues it with the same segments up to the present. */
  ghost predicate Continues(cfg: BackupConfig, objects: Objects, m: GenerationManifest, present: nat)
  {
    match ManifestAt(cfg, objects, m.generation)
    case None => m.snapshotTimestampMs >= present
    case Some(n) =>
      && n.snapshotTimestampMs == m.snapshotTimestampMs
      && forall timestampMs: nat :: n.snapshotTimestampMs <= timestampMs < present ==>
           UpTo(n.segments, timestampMs) == UpTo(m.segments, timestampMs)
  }

  lemma AddedAtPresent(cfg: BackupConfig, objects: Objects, m: GenerationManifest, index: nat, now: nat, offset: nat,
                       size: nat, present: nat)
    requires ManifestAt(cfg, objects, m.generation) == Some(m) && now >= present
    ensures Continues(cfg, objects, AddSegment(m, index, now, offset, size), present)
  {
    var n := AddSegment(m, index, now, offset, size);
    assert n.segments[..|n.segments| - 1] == m.segments;
  }

  /** Then uploading it leaves the past as it was. */
  lemma ManifestPast(cfg: BackupConfig, objects: Objects, issued: set<string>, m: GenerationManifest, data: Bytes,
                     present: nat)
    requires var after := objects[ManifestKey(m.generation) := data];
             && Registered(cfg, objects, issued) && Sound(cfg, objects)
             && Registered(cfg, after, issued) && Sound(cfg, after)
    requires NoSlash(m.generation) && DecodeManifest(cfg, data) == Some(m) && Continues(cfg, objects, m, present)
    ensures SamePast(cfg, objects, objects[ManifestKey(m.generation) := data], present)
  {
    hide Registered, Sound, SamePast, UpTo, NoSlash, DecodeManifest, Fetch, RestoreGeneration;
    var g, after := m.generation, objects[ManifestKey(m.generation) := data];
    assert OwnKey(g, ManifestKey(g));
    PutElsewhere(objects, g, ManifestKey(g), data);
    forall timestampMs: nat | timestampMs < present
      ensures SameOffer(cfg, objects, after, g, timestampMs)
    {
      SameFiles(cfg, objects, g, data, UpTo(m.segments, timestampMs));
    }
    PastStands(cfg, objects, after, issued, issued, g, present);
  }

  lemma SameFiles(cfg: BackupConfig, objects: Objects, generation: string, data: Bytes, segments: seq<SegmentMeta>)
    ensures RestoreGeneration(cfg, objects, generation, KeysOf(generation, segments))
            == RestoreGeneration(cfg, objects[ManifestKey(generation) := data], generation,
                                 KeysOf(generation, segments))
  {
    hide Decode, Fetch;
    var after, keys := objects[ManifestKey(generation) := data], KeysOf(generation, segments);
    KeyShapes(generation, 0);
    forall k | k in keys
      ensures DecodeAt(cfg, objects, k) == DecodeAt(cfg, after, k)
    {
      var i :| 0 <= i < |keys| && keys[i] == k;
      KeyShapes(generation, segments[i].index);
    }
    FetchFrame(cfg, objects, after, keys);
  }

  // ---------- moments ----------

  /** The store, what is remembered about it, and the time. */
  datatype Moment = Moment(objects: Objects, ledger: Ledger, clock: nat)

  /**
   From one moment to a later one: no restore to a time before the first has changed, everything
   known stays known, and nothing regular became irregular.
   */
  ghost predicate Onward(cfg: BackupConfig, a: Moment, b: Moment)
  {
    a.clock <= b.clock && Keeps(a.ledger, b.ledger) && SamePast(cfg, a.objects, b.objects, a.clock)
  }

  lemma OnwardStill(cfg: BackupConfig, a: Moment)
    ensures Onward(cfg, a, a)
  {
  }

  lemma OnwardOn(cfg: BackupConfig, a: Moment, b: Moment, c: Moment)
    requires Onward(cfg, a, b) && Onward(cfg, b, c)
    ensures Onward(cfg, a, c)
  {
    hide SamePast, Keeps;
    SamePastOn(cfg, a.objects, b.objects, c.objects, a.clock, b.clock);
    KeepsTransitive(a.ledger, b.ledger, c.ledger);
  }

  lemma OnwardPast(cfg: BackupConfig, a: Moment, b: Moment)
    requires Onward(cfg, a, b)
    ensures SamePast(cfg, a.objects, b.objects, a.clock)
  {
  }

  lemma OnwardKeeps(cfg: BackupConfig, a: Moment, b: Moment)
    ensures Onward(cfg, a, b) ==> Keeps(a.ledger, b.ledger) && a.clock <= b.clock
  {
  }

  lemma OnwardParts(cfg: BackupConfig, a: Moment, b: Moment)
    requires a.clock <= b.clock && Keeps(a.ledger, b.ledger) && SamePast(cfg, a.objects, b.objects, a.clock)
    ensures Onward(cfg, a, b)
  {
  }
}
