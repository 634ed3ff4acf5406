/** Which generations retention removes, and why a reader never notices (src/manager.rs). */
module Retention {
  import opened Wrappers
  import opened Manifest
  import opened Config
  import opened Pipeline
  import opened Order
  import opened Keys
  import opened S3
  import opened Durable
  import opened History
  import opened Tracking
  import opened Steps
  import opened Ledger
  import opened Restore
  import opened PointInTime
  import opened Past

  datatype Found = Found(id: string, manifest: GenerationManifest)

  /** The generations with a readable manifest among the keys, each id taken off its manifest's key. */
  function GenerationManifests(cfg: BackupConfig, objects: Objects, keys: seq<string>): (found: seq<Found>)
  {
    if keys == [] then []
    else
      var init := GenerationManifests(cfg, objects, keys[..|keys| - 1]);
      var key := keys[|keys| - 1];
      if EndsWith(key, MANIFEST_SUFFIX) && key in objects && DecodeManifest(cfg, objects[key]).Some?
      then init + [Found(TrimEndMatches(key, MANIFEST_SUFFIX), DecodeManifest(cfg, objects[key]).value)]
      else init
  }

  predicate Expires(f: Found, current: string, cutoffMs: nat)
  {
    f.id != current && f.manifest.createdAtMs < cutoffMs
  }

  /** Ids of the generations, the current one excepted, that were created before the cutoff. */
  ghost function Expired(cfg: BackupConfig, objects: Objects, current: string, cutoffMs: nat): (ids: set<string>)
  {
    set k | k in objects && k == ManifestKey(Head(k)) && ManifestAt(cfg, objects, Head(k)).Some?
            && Expires(Found(Head(k), ManifestAt(cfg, objects, Head(k)).value), current, cutoffMs)
      :: Head(k)
  }

  /** Ids of the generations, the current one excepted, that were created longer ago than the period. */
  ghost function Overdue(cfg: BackupConfig, objects: Objects, current: string, periodMs: nat,
                         nowMs: nat): (ids: set<string>)
  {
    set k | k in objects && k == ManifestKey(Head(k)) && ManifestAt(cfg, objects, Head(k)).Some?
            && Head(k) != current && ManifestAt(cfg, objects, Head(k)).value.createdAtMs + periodMs < nowMs
      :: Head(k)
  }

  /** The store without the objects of the given generations. */
  ghost function Pruned(objects: Objects, ids: set<string>): (r: Objects)
  {
    var kept := set k | k in objects && forall g :: g in ids ==> !Under(g, k);
    map k | k in kept :: if k in kept then objects[k] else []
  }

  // ---------- what is found ----------

  ghost predicate DistinctIds(found: seq<Found>)
  {
    forall i, j :: 0 <= i < j < |found| ==> found[i].id != found[j].id
  }

  /** The generation has its manifest among the keys, and it can be read. */
  ghost predicate Listed(cfg: BackupConfig, objects: Objects, keys: seq<string>, f: Found)
  {
    NoSlash(f.id) && ManifestKey(f.id) in keys && ManifestAt(cfg, objects, f.id) == Some(f.manifest)
  }

  lemma {:induction false} FoundAre(cfg: BackupConfig, objects: Objects, keys: seq<string>)
    requires forall k :: k in keys ==> WellKeyed(k)
    requires forall i, j :: 0 <= i < j < |keys| ==> keys[i] != keys[j]
    ensures forall f :: f in GenerationManifests(cfg, objects, keys) <==> Listed(cfg, objects, keys, f)
    ensures DistinctIds(GenerationManifests(cfg, objects, keys))
  {
    hide WellKeyed, DecodeManifest, NoSlash, TrimEndMatches, EndsWith;
    if keys != [] {
      var key := keys[|keys| - 1];
      var init := keys[..|keys| - 1];
      assert keys == init + [key];
      FoundAre(cfg, objects, init);
      forall f
        ensures Listed(cfg, objects, keys, f) <==> Listed(cfg, objects, init, f) || Contributes(cfg, objects, key, f)
      {
        ManifestKeyIsOf(key, f.id);
      }
      forall f, g | Contributes(cfg, objects, key, f) && Listed(cfg, objects, init, g)
        ensures f.id != g.id
      {
        ManifestKeyIsOf(key, f.id);
      }
    }
  }

  /** The key is the manifest key that yields `f`. */
  ghost predicate Contributes(cfg: BackupConfig, objects: Objects, key: string, f: Found)
  {
    && EndsWith(key, MANIFEST_SUFFIX) && key in objects && DecodeManifest(cfg, objects[key]) == Some(f.manifest)
    && f.id == TrimEndMatches(key, MANIFEST_SUFFIX)
  }

  /** A manifest key yields exactly the id that it was built from. */
  lemma ManifestKeyIsOf(key: string, id: string)
    requires WellKeyed(key)
    ensures NoSlash(id) && key == ManifestKey(id) <==>
              EndsWith(key, MANIFEST_SUFFIX) && id == TrimEndMatches(key, MANIFEST_SUFFIX)
  {
    if NoSlash(id) {
      TrimManifestKey(id);
    }
    if EndsWith(key, MANIFEST_SUFFIX) {
      ManifestKeyShape(key);
      HeadIsPlain(key);
      TrimManifestKey(Head(key));
    }
  }

  /** The listing yields each generation with a readable manifest once, and nothing else. */
  lemma FoundInStore(cfg: BackupConfig, objects: Objects, issued: set<string>)
    requires Registered(cfg, objects, issued)
    ensures var found := GenerationManifests(cfg, objects, Listing(objects, ""));
            && DistinctIds(found)
            && forall f :: f in found <==> NoSlash(f.id) && ManifestAt(cfg, objects, f.id) == Some(f.manifest)
  {
    hide GenerationManifests, DecodeManifest, NoSlash;
    var keys := Listing(objects, "");
    assert forall k :: k in keys <==> k in objects;
    forall i, j | 0 <= i < j < |keys|
      ensures keys[i] != keys[j]
    {
      LessIrreflexive(keys[i]);
    }
    FoundAre(cfg, objects, keys);
    forall f: Found
      ensures Listed(cfg, objects, keys, f) <==> NoSlash(f.id) && ManifestAt(cfg, objects, f.id) == Some(f.manifest)
    {
    }
  }

  // ---------- one generation ----------

  /** In a generation's listing the manifest comes first. */
  lemma ManifestListedFirst(cfg: BackupConfig, objects: Objects, issued: set<string>, generation: string)
    requires Registered(cfg, objects, issued) && NoSlash(generation) && ManifestKey(generation) in objects
    ensures var keys := Listing(objects, GenerationPrefix(generation));
            keys != [] && keys[0] == ManifestKey(generation)
  {
    var keys := Listing(objects, GenerationPrefix(generation));
    var first := ManifestKey(generation);
    KeyShapes(generation, 0);
    assert first in keys;
    var k := keys[0];
    assert k in keys;
    if k != first {
      OtherKeysAfterManifest(generation, k);
      var j :| 0 <= j < |keys| && keys[j] == first;
      assert Less(keys[0], keys[j]);
      LessTransitive(k, first, k);
      LessIrreflexive(k);
    }
  }

  lemma OtherKeysAfterManifest(generation: string, key: string)
    requires NoSlash(generation) && Under(generation, key) && WellKeyed(key) && key != ManifestKey(generation)
    ensures Less(ManifestKey(generation), key)
  {
    NextCharacter(generation, key);
    var p := GenerationPrefix(generation);
    assert key == p + key[|p|..] && ManifestKey(generation) == p + "manifest.json";
    LessByNext(p, "manifest.json", key[|p|..]);
  }

  lemma LessByNext(p: string, a: string, b: string)
    requires a != [] && b != [] && a[0] < b[0]
    ensures Less(p + a, p + b)
  {
    LessCancelsPrefix(p, a, b);
  }

  lemma NextCharacter(generation: string, key: string)
    requires NoSlash(generation) && Under(generation, key) && WellKeyed(key) && key != ManifestKey(generation)
    ensures |key| > |generation| + 1 && key[|generation| + 1] > 'm'
  {
    HeadOfPrefixed(generation, key);
    KeyShapes(generation, 0);
    if key == SnapshotKey(generation) {
      assert key[|generation| + 1] == 's';
    } else {
      var i :| key == SegmentKey(generation, i);
      assert key[|generation| + 1] == WalPrefix(generation)[|generation| + 1] == 'w';
    }
  }

  /** The states differ only in objects of the generation that are gone. */
  ghost predicate OnlyLost(objects: Objects, state: Objects, generation: string)
  {
    && (forall k :: k in state ==> k in objects && state[k] == objects[k])
    && (forall k :: k in objects && k !in state ==> Under(generation, k))
  }

  /**
   While another generation is deleted key by key, in listing order, a reader restores what it
   restored before, and no manifest ever names an object that is gone.
   */
  lemma RemovalFits(cfg: BackupConfig, objects: Objects, generation: string, m: GenerationManifest, snapshot: Bytes,
                    shipped: Bytes, epochs: seq<Epoch>, epoch: nat, snapFrames: nat, ledger: Ledger,
                    issued: set<string>, victim: string, state: Objects)
    requires Published(cfg, objects, generation, m, snapshot, shipped) && Sound(cfg, objects) && NoSlash(generation)
    requires Belongs(cfg, epochs, epoch, snapshot, snapFrames, shipped)
    requires Registered(cfg, objects, issued) && Accounted(cfg, objects, epochs, ledger)
    requires NoSlash(victim) && victim != generation && ManifestKey(victim) in objects
    requires PartlyDeleted(objects, Listing(objects, GenerationPrefix(victim)), state)
    ensures Published(cfg, state, generation, m, snapshot, shipped)
    ensures Shows(cfg, state, epochs, Here(epoch, snapFrames, shipped))
    ensures RestoreLatest(cfg, state) == RestoreLatest(cfg, objects)
    ensures Registered(cfg, state, issued) && OnlyLost(objects, state, victim) && Accounted(cfg, state, epochs, ledger)
  {
    hide Shows, Sound, Belongs, Accounted, Published, WellKeyed, LatestGeneration, RestoreLatest, PartlyDeleted,
      OnlyLost, Reads, NoSlash;
    ManifestListedFirst(cfg, objects, issued, victim);
    var any := ListedLoss(objects, victim, state);
    LostIsElsewhere(objects, state, generation, m.segments, victim);
    PublishedFrame(cfg, objects, state, generation, m, snapshot, shipped);
    LostKeepsSound(cfg, objects, state, victim, any);
    LostKeepsRegistered(cfg, objects, state, victim, issued);
    LostKeepsAccounted(cfg, objects, state, epochs, ledger, victim, any);
    ShowsPublished(cfg, state, generation, m, snapshot, shipped, epochs, epoch, snapFrames);
    PublishedRestores(cfg, objects, generation, m, snapshot, shipped);
    PublishedRestores(cfg, state, generation, m, snapshot, shipped);
  }

  lemma ListingUnder(objects: Objects, generation: string)
    ensures forall k :: k in Listing(objects, GenerationPrefix(generation)) <==> k in objects && Under(generation, k)
  {
  }

  /** Deleting an initial part of the listing loses only the generation's objects, its manifest first. */
  lemma ListedLoss(objects: Objects, victim: string, state: Objects) returns (any: bool)
    requires PartlyDeleted(objects, Listing(objects, GenerationPrefix(victim)), state)
    requires var keys := Listing(objects, GenerationPrefix(victim)); keys != [] && keys[0] == ManifestKey(victim)
    ensures OnlyLost(objects, state, victim)
    ensures if any then ManifestKey(victim) !in state else state == objects
  {
    var keys := Listing(objects, GenerationPrefix(victim));
    var n :| 0 <= n <= |keys| && state == Without(objects, keys[..n]);
    ListingUnder(objects, victim);
    hide Listing, Under;
    assert forall k :: k in keys[..n] ==> k in keys;
    any := n > 0;
    if any {
      assert keys[..n][0] == ManifestKey(victim);
    }
  }

  lemma LostKeepsRegistered(cfg: BackupConfig, objects: Objects, state: Objects, victim: string, issued: set<string>)
    requires OnlyLost(objects, state, victim) && Registered(cfg, objects, issued)
    ensures Registered(cfg, state, issued)
  {
    KeyShapes(victim, 0);
  }

  lemma LostIsElsewhere(objects: Objects, state: Objects, generation: string, segments: seq<SegmentMeta>,
                        victim: string)
    requires OnlyLost(objects, state, victim) && NoSlash(generation) && NoSlash(victim) && victim != generation
    ensures forall k :: k in objects && Reads(generation, segments, k) ==> k in state && state[k] == objects[k]
  {
    forall k | k in objects && Reads(generation, segments, k)
      ensures !Under(victim, k)
    {
      KeyShapes(victim, 0);
      if k != LATEST {
        ReadsUnder(generation, segments, k);
        if Under(victim, k) {
          GenerationsDisjoint(generation, victim, k);
        }
      }
    }
  }

  lemma ReadsUnder(generation: string, segments: seq<SegmentMeta>, key: string)
    requires Reads(generation, segments, key) && key != LATEST
    ensures Under(generation, key)
  {
    KeyShapes(generation, 0);
    var keys := KeysOf(generation, segments);
    if key in keys {
      var i :| 0 <= i < |keys| && keys[i] == key;
      KeyShapes(generation, segments[i].index);
    }
  }

  lemma LostKeepsSound(cfg: BackupConfig, objects: Objects, state: Objects, victim: string, any: bool)
    requires Sound(cfg, objects) && OnlyLost(objects, state, victim) && NoSlash(victim)
    requires if any then ManifestKey(victim) !in state else state == objects
    ensures Sound(cfg, state)
  {
    if any {
      assert SoundGeneration(cfg, state, victim);
      SoundStep(cfg, objects, state, victim);
    }
  }

  lemma LostKeepsAccounted(cfg: BackupConfig, objects: Objects, state: Objects, epochs: seq<Epoch>, ledger: Ledger,
                           victim: string, any: bool)
    requires Accounted(cfg, objects, epochs, ledger) && OnlyLost(objects, state, victim) && NoSlash(victim)
    requires if any then ManifestKey(victim) !in state else state == objects
    ensures Accounted(cfg, state, epochs, ledger)
  {
    hide Accounted;
    if any {
      AccountedUnpublished(cfg, objects, state, epochs, ledger, victim);
    }
  }

  // ---------- all generations ----------

  /** The expired ones among the first `n` generations found. */
  ghost function Swept(found: seq<Found>, n: nat, current: string, cutoffMs: nat): (ids: set<string>)
    requires n <= |found|
  {
    set j | 0 <= j < n && Expires(found[j], current, cutoffMs) :: found[j].id
  }

  lemma SweptNext(found: seq<Found>, n: nat, current: string, cutoffMs: nat)
    requires n < |found| && DistinctIds(found)
    ensures var before, after := Swept(found, n, current, cutoffMs), Swept(found, n + 1, current, cutoffMs);
            && found[n].id !in before
            && after == if Expires(found[n], current, cutoffMs) then before + {found[n].id} else before
  {
  }

  /** Sweeping everything found sweeps exactly the expired generations. */
  lemma SweptAll(cfg: BackupConfig, objects: Objects, issued: set<string>, current: string, cutoffMs: nat)
    requires Registered(cfg, objects, issued)
    ensures var found := GenerationManifests(cfg, objects, Listing(objects, ""));
            Swept(found, |found|, current, cutoffMs) == Expired(cfg, objects, current, cutoffMs)
  {
    hide GenerationManifests, DecodeManifest, Registered;
    FoundInStore(cfg, objects, issued);
    var found := GenerationManifests(cfg, objects, Listing(objects, ""));
    forall id | id in Expired(cfg, objects, current, cutoffMs)
      ensures id in Swept(found, |found|, current, cutoffMs)
    {
      var k :| k in objects && Head(k) == id && k == ManifestKey(id) && ManifestAt(cfg, objects, id).Some?
               && Expires(Found(id, ManifestAt(cfg, objects, id).value), current, cutoffMs);
      HeadIsPlain(k);
      assert Found(id, ManifestAt(cfg, objects, id).value) in found;
    }
    forall id | id in Swept(found, |found|, current, cutoffMs)
      ensures id in Expired(cfg, objects, current, cutoffMs)
    {
      var j :| 0 <= j < |found| && Expires(found[j], current, cutoffMs) && found[j].id == id;
      assert found[j] in found;
      KeyShapes(id, 0);
      HeadOfPrefixed(id, ManifestKey(id));
      assert ManifestKey(id) in objects;
    }
  }

  lemma SweptNone(found: seq<Found>, current: string, cutoffMs: nat)
    ensures Swept(found, 0, current, cutoffMs) == {}
  {
  }

  /** The next expired generation is still there when its turn comes. */
  lemma Sweepable(cfg: BackupConfig, objects: Objects, issued: set<string>, current: string, cutoffMs: nat, n: nat)
    requires Registered(cfg, objects, issued)
    requires var found := GenerationManifests(cfg, objects, Listing(objects, ""));
             n < |found| && Expires(found[n], current, cutoffMs)
    ensures var found := GenerationManifests(cfg, objects, Listing(objects, ""));
            var id := found[n].id;
            && NoSlash(id) && id != current
            && ManifestKey(id) in Pruned(objects, Swept(found, n, current, cutoffMs))
            && Swept(found, n, current, cutoffMs) + {id} <= Expired(cfg, objects, current, cutoffMs)
  {
    hide GenerationManifests, DecodeManifest, Registered, Expired, Pruned, NoSlash, Listing;
    FoundInStore(cfg, objects, issued);
    SweptAll(cfg, objects, issued, current, cutoffMs);
    var found := GenerationManifests(cfg, objects, Listing(objects, ""));
    assert found[n] in found;
    forall g | g in Swept(found, n, current, cutoffMs)
      ensures NoSlash(g) && g != found[n].id
    {
      var j :| 0 <= j < n && found[j].id == g;
      assert found[j] in found;
    }
    StillListed(objects, Swept(found, n, current, cutoffMs), found[n].id);
  }

  /** One step of the sweep over everything that was found. */
  lemma SweepStep(cfg: BackupConfig, objects: Objects, issued: set<string>, current: string, cutoffMs: nat,
                  found: seq<Found>, n: nat, id: string, before: set<string>)
    requires Registered(cfg, objects, issued) && found == GenerationManifests(cfg, objects, Listing(objects, ""))
    requires n < |found| && id == found[n].id && before == Swept(found, n, current, cutoffMs)
    ensures if Expires(found[n], current, cutoffMs) then
              && Swept(found, n + 1, current, cutoffMs) == before + {id} <= Expired(cfg, objects, current, cutoffMs)
              && |before + {id}| == |before| + 1
              && NoSlash(id) && id != current && ManifestKey(id) in Pruned(objects, before)
            else
              Swept(found, n + 1, current, cutoffMs) == before
  {
    hide GenerationManifests, Listing, Registered, Expired, Pruned, NoSlash, Swept, ManifestAt, ManifestKey;
    FoundInStore(cfg, objects, issued);
    SweptNext(found, n, current, cutoffMs);
    if Expires(found[n], current, cutoffMs) {
      Sweepable(cfg, objects, issued, current, cutoffMs, n);
    }
  }

  /** What is gone from the state belonged to one of the generations; the rest is as it was. */
  ghost predicate LostFrom(objects: Objects, state: Objects, ids: set<string>)
  {
    && (forall k :: k in state ==> k in objects && state[k] == objects[k])
    && (forall k :: k in objects && k !in state ==> exists g :: g in ids && Under(g, k))
  }

  lemma LostNext(objects: Objects, state: Objects, ids: set<string>, all: set<string>, victim: string)
    requires OnlyLost(Pruned(objects, ids), state, victim) && ids + {victim} <= all
    ensures LostFrom(objects, state, all)
  {
    forall k | k in objects && k !in state
      ensures exists g :: g in all && Under(g, k)
    {
      if k in Pruned(objects, ids) {
        assert Under(victim, k) && victim in all;
      }
    }
  }

  lemma PrunedNext(objects: Objects, ids: set<string>, victim: string)
    ensures Without(Pruned(objects, ids), Listing(Pruned(objects, ids), GenerationPrefix(victim))) ==
            Pruned(objects, ids + {victim})
    ensures Pruned(objects, {}) == objects
  {
    ListingUnder(Pruned(objects, ids), victim);
  }

  lemma StillListed(objects: Objects, ids: set<string>, victim: string)
    requires ManifestKey(victim) in objects && NoSlash(victim) && victim !in ids && forall g :: g in ids ==> NoSlash(g)
    ensures ManifestKey(victim) in Pruned(objects, ids)
  {
    KeyShapes(victim, 0);
    forall g | g in ids
      ensures !Under(g, ManifestKey(victim))
    {
      if Under(g, ManifestKey(victim)) {
        GenerationsDisjoint(g, victim, ManifestKey(victim));
      }
    }
  }

  /**
   Retention leaves the marker, the current generation and every generation not older than the
   cutoff byte for byte as they were, and nothing of the generations it removes.
   */
  lemma RetentionSpares(cfg: BackupConfig, objects: Objects, current: string, cutoffMs: nat, generation: string)
    requires NoSlash(generation)
    ensures var expired := Expired(cfg, objects, current, cutoffMs);
            var after := Pruned(objects, expired);
            && current !in expired
            && (LATEST in objects <==> LATEST in after) && (LATEST in objects ==> after[LATEST] == objects[LATEST])
            && (generation !in expired ==> SameUnder(objects, after, generation))
            && (generation in expired ==> forall k :: k in after ==> !Under(generation, k))
            && (generation in expired <==>
                  && generation != current && ManifestAt(cfg, objects, generation).Some?
                  && ManifestAt(cfg, objects, generation).value.createdAtMs < cutoffMs)
  {
    var expired := Expired(cfg, objects, current, cutoffMs);
    forall g | g in expired
      ensures NoSlash(g) && !Under(g, LATEST)
    {
      var k :| k in objects && Head(k) == g;
      HeadIsPlain(k);
      KeyShapes(g, 0);
    }
    forall k, g | Under(generation, k) && g in expired && Under(g, k)
      ensures g == generation
    {
      GenerationsDisjoint(g, generation, k);
    }
    KeyShapes(generation, 0);
    HeadOfPrefixed(generation, ManifestKey(generation));
  }

  /** The cutoff of a clock that saturates at 0 tells the same generations apart as the period does. */
  lemma CutoffMeetsPeriod(cfg: BackupConfig, objects: Objects, current: string, periodMs: nat, nowMs: nat)
    ensures Expired(cfg, objects, current, if nowMs < periodMs then 0 else nowMs - periodMs) ==
            Overdue(cfg, objects, current, periodMs, nowMs)
  {
    hide ManifestAt, Head, ManifestKey;
  }

  /**
   What retention has done by the time it reports success: a generation is gone, with all that was
   under its prefix, if and only if it is not the current one, has a readable manifest and was
   created longer ago than the period; every other one is byte for byte as it was.
   */
  ghost predicate Retained(cfg: BackupConfig, before: Objects, after: Objects, current: string, periodMs: nat,
                           nowMs: nat)
  {
    forall g :: NoSlash(g) ==>
                  if g != current && ManifestAt(cfg, before, g).Some?
                     && ManifestAt(cfg, before, g).value.createdAtMs + periodMs < nowMs
                  then ManifestKey(g) in before && forall k :: k in after ==> !Under(g, k)
                  else SameUnder(before, after, g)
  }

  lemma OverdueGone(cfg: BackupConfig, before: Objects, current: string, periodMs: nat, nowMs: nat)
    ensures Retained(cfg, before, Pruned(before, Overdue(cfg, before, current, periodMs, nowMs)), current, periodMs,
                     nowMs)
  {
    hide Expired, Pruned, Overdue, Under, SameUnder, NoSlash;
    var cutoff := if nowMs < periodMs then 0 else nowMs - periodMs;
    CutoffMeetsPeriod(cfg, before, current, periodMs, nowMs);
    var after := Pruned(before, Overdue(cfg, before, current, periodMs, nowMs));
    forall g | NoSlash(g)
      ensures if g != current && ManifestAt(cfg, before, g).Some?
                 && ManifestAt(cfg, before, g).value.createdAtMs + periodMs < nowMs
              then ManifestKey(g) in before && forall k :: k in after ==> !Under(g, k)
              else SameUnder(before, after, g)
    {
      RetentionSpares(cfg, before, current, cutoff, g);
    }
  }

  /**
   What retention costs a restore to some time: nothing, if and only if the generation chosen for
   that time is not one of those removed. Then the files restored are the same, too.
   */
  lemma RetentionPast(cfg: BackupConfig, objects: Objects, issued: set<string>, current: string, cutoffMs: nat,
                      timestampMs: nat)
    requires Registered(cfg, objects, issued) && Sound(cfg, objects)
    requires var after := Pruned(objects, Expired(cfg, objects, current, cutoffMs));
             Registered(cfg, after, issued) && Sound(cfg, after)
    ensures var after := Pruned(objects, Expired(cfg, objects, current, cutoffMs));
            var chosen := Chosen(cfg, objects, timestampMs);
            && (Chosen(cfg, after, timestampMs) == chosen <==>
                  (chosen.Some? ==> chosen.value.generation !in Expired(cfg, objects, current, cutoffMs)))
            && (Chosen(cfg, after, timestampMs) == chosen ==>
                  SameAt(cfg, objects, after, timestampMs))
  {
    hide Registered, Sound, Chosen, Expired, Pruned, ManifestAt, RestoreGeneration, UpTo, NoSlash, Less, SameUnder;
    var expired := Expired(cfg, objects, current, cutoffMs);
    var after := Pruned(objects, expired);
    ChosenIsFirst(cfg, objects, issued, timestampMs);
    ChosenIsFirst(cfg, after, issued, timestampMs);
    var x, y := Chosen(cfg, objects, timestampMs), Chosen(cfg, after, timestampMs);
    forall g | NoSlash(g)
      ensures g !in expired ==>
                && SameOffer(cfg, objects, after, g, timestampMs)
                && ManifestAt(cfg, after, g) == ManifestAt(cfg, objects, g)
      ensures g in expired ==> ManifestAt(cfg, after, g).None?
    {
      SparedOrGone(cfg, objects, current, cutoffMs, g, timestampMs);
    }
    if x.Some? {
      var g := x.value.generation;
      if g !in expired {
        assert First(cfg, after, g, timestampMs) by {
          forall h | h != g && Candidate(cfg, after, h, timestampMs)
            ensures Before(cfg, after, g, h)
          {
            assert h !in expired && SameOffer(cfg, objects, after, h, timestampMs);
          }
        }
        OnlyFirst(cfg, after, g, y.value.generation, timestampMs);
        NotEmpty(cfg, objects, timestampMs);
        NotEmpty(cfg, after, timestampMs);
      }
    } else {
      assert y.Some? ==> SameOffer(cfg, objects, after, y.value.generation, timestampMs);
    }
  }

  lemma SparedOrGone(cfg: BackupConfig, objects: Objects, current: string, cutoffMs: nat, generation: string,
                     timestampMs: nat)
    requires NoSlash(generation)
    ensures var expired := Expired(cfg, objects, current, cutoffMs);
            var after := Pruned(objects, expired);
            && (generation !in expired ==>
                  SameOffer(cfg, objects, after, generation, timestampMs)
                  && ManifestAt(cfg, after, generation) == ManifestAt(cfg, objects, generation))
            && (generation in expired ==> ManifestAt(cfg, after, generation).None?)
  {
    hide Expired, Pruned, SameOffer;
    var expired := Expired(cfg, objects, current, cutoffMs);
    RetentionSpares(cfg, objects, current, cutoffMs, generation);
    KeyShapes(generation, 0);
    if generation !in expired {
      UntouchedOffer(cfg, objects, Pruned(objects, expired), generation, timestampMs);
    }
  }
}
