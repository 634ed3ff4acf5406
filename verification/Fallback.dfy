/** When the listing can stand in for a missing manifest (src/manager.rs, src/s3.rs). */
module Fallback {
  import opened Wrappers
  import opened Manifest
  import opened Config
  import opened Order
  import opened Keys
  import opened S3
  import opened Durable

  /** Under the generation's `wal/` prefix the store holds exactly the objects that the segments name. */
  ghost predicate NamesAll(objects: Objects, generation: string, segments: seq<SegmentMeta>)
  {
    forall k :: k in KeysOf(generation, segments) <==> k in objects && WalPrefix(generation) <= k
  }

  lemma KeysSorted(generation: string, segments: seq<SegmentMeta>, next: nat)
    requires IndicesBelow(segments, next) && next <= 100_000_000
    ensures StrictlySorted(KeysOf(generation, segments))
  {
    var keys := KeysOf(generation, segments);
    forall i, j | 0 <= i < j < |keys|
      ensures Less(keys[i], keys[j])
    {
      SegmentKeyOrder(generation, segments[i].index, segments[j].index);
    }
  }

  /**
   Below index 10^8 the sorted listing is the manifest's own key list if and only if nothing but
   the manifest's segments lies under the prefix: no orphan, and none missing.
   */
  lemma ListingIsManifest(objects: Objects, generation: string, segments: seq<SegmentMeta>, next: nat)
    requires IndicesBelow(segments, next) && next <= 100_000_000
    ensures Listing(objects, WalPrefix(generation)) == KeysOf(generation, segments) <==>
              NamesAll(objects, generation, segments)
  {
    var found := set k | k in objects && WalPrefix(generation) <= k;
    var keys := KeysOf(generation, segments);
    assert forall k :: k in Listing(objects, WalPrefix(generation)) <==> k in found;
    if NamesAll(objects, generation, segments) {
      KeysSorted(generation, segments, next);
      SortedKeysUnique(keys, found);
    }
  }

  /** Then losing the manifest loses nothing: the restore places the same files. */
  lemma FallbackRestores(cfg: BackupConfig, objects: Objects, generation: string, m: GenerationManifest, next: nat)
    requires LatestGeneration(cfg, objects) == Ok(generation) && ManifestAt(cfg, objects, generation) == Some(m)
    requires IndicesBelow(m.segments, next) && next <= 100_000_000 && NamesAll(objects, generation, m.segments)
    ensures RestoreLatest(cfg, objects - {ManifestKey(generation)}) == RestoreLatest(cfg, objects)
  {
    hide Listing, Fetch, KeysOf, NamesAll, ManifestAt, DecodeAt, IndicesBelow, LatestGeneration, RestoreGeneration;
    var without, keys := objects - {ManifestKey(generation)}, KeysOf(generation, m.segments);
    SegmentsUntouched(objects, generation, m.segments);
    ListingIsManifest(without, generation, m.segments, next);
    OthersStay(cfg, objects, generation);
    SameFetched(cfg, objects, without, generation, keys);
  }

  /** The marker and the snapshot stay when the manifest goes. */
  lemma OthersStay(cfg: BackupConfig, objects: Objects, generation: string)
    ensures var without := objects - {ManifestKey(generation)};
            && LatestGeneration(cfg, without) == LatestGeneration(cfg, objects)
            && ManifestAt(cfg, without, generation).None?
            && DecodeAt(cfg, without, SnapshotKey(generation)) == DecodeAt(cfg, objects, SnapshotKey(generation))
  {
    KeyShapes(generation, 0);
  }

  lemma SameFetched(cfg: BackupConfig, a: Objects, b: Objects, generation: string, keys: seq<string>)
    requires DecodeAt(cfg, a, SnapshotKey(generation)) == DecodeAt(cfg, b, SnapshotKey(generation))
    requires forall k :: k in keys ==> k in a && k in b && a[k] == b[k]
    ensures RestoreGeneration(cfg, a, generation, keys) == RestoreGeneration(cfg, b, generation, keys)
  {
    hide Fetch;
    FetchFrame(cfg, a, b, keys);
  }

  /**
   The listing also stands in when the manifest is there but its download fails. What is placed
   then is what the manifest would have given.
   */
  lemma FailedDownloadRestores(cfg: BackupConfig, objects: Objects, generation: string, m: GenerationManifest,
                               next: nat)
    requires ManifestAt(cfg, objects, generation) == Some(m)
    requires IndicesBelow(m.segments, next) && next <= 100_000_000 && NamesAll(objects, generation, m.segments)
    ensures RestoreGeneration(cfg, objects, generation, Listing(objects, WalPrefix(generation)))
            == RestoreGeneration(cfg, objects, generation, SegmentKeys(cfg, objects, generation))
  {
    hide Listing, RestoreGeneration;
    ListingIsManifest(objects, generation, m.segments, next);
  }

  lemma SegmentsUntouched(objects: Objects, generation: string, segments: seq<SegmentMeta>)
    requires NamesAll(objects, generation, segments)
    ensures var without := objects - {ManifestKey(generation)};
            && NamesAll(without, generation, segments)
            && forall k :: k in KeysOf(generation, segments) ==>
                 k in objects && k in without && objects[k] == without[k]
  {
    forall k | k in objects && WalPrefix(generation) <= k
      ensures k != ManifestKey(generation)
    {
      WalKeyShape(generation, k);
    }
  }
}
