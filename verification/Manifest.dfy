/** The durable description of a generation (src/manifest.rs). */
module Manifest {

  datatype SegmentMeta = SegmentMeta(index: nat, timestampMs: nat, offset: nat, size: nat)

  datatype GenerationManifest = GenerationManifest(
    generation: string,
    createdAtMs: nat,
    snapshotTimestampMs: nat,
    segments: seq<SegmentMeta>)

  function NewManifest(generation: string, nowMs: nat): (m: GenerationManifest)
  {
    GenerationManifest(generation, nowMs, nowMs, [])
  }

  /** GenerationManifest::add_segment, on the list it extends. */
  function AddSegment(m: GenerationManifest, index: nat, timestampMs: nat, offset: nat,
                      size: nat): (r: GenerationManifest)
  {
    m.(segments := m.segments + [SegmentMeta(index, timestampMs, offset, size)])
  }

  // ---------- what a well-formed segment list is ----------

  /** The segments cover `[0, total)` contiguously and in order, none of them empty. */
  predicate Tiles(segments: seq<SegmentMeta>, total: nat)
  {
    if segments == [] then total == 0
    else
      var last := segments[|segments| - 1];
      last.size > 0 && last.offset + last.size == total && Tiles(segments[..|segments| - 1], last.offset)
  }

  /** Indices strictly increase and stay below `next`. */
  predicate IndicesBelow(segments: seq<SegmentMeta>, next: nat)
  {
    && (forall i :: 0 <= i < |segments| ==> segments[i].index < next)
    && (forall i, j :: 0 <= i < j < |segments| ==> segments[i].index < segments[j].index)
  }

  /** Upload times do not decrease along the list and none is later than `now`. */
  predicate TimesUpTo(segments: seq<SegmentMeta>, now: nat)
  {
    && (forall i :: 0 <= i < |segments| ==> segments[i].timestampMs <= now)
    && (forall i, j :: 0 <= i < j < |segments| ==> segments[i].timestampMs <= segments[j].timestampMs)
  }

  lemma AppendKeepsOrder(segments: seq<SegmentMeta>, next: nat, now: nat, added: SegmentMeta)
    requires IndicesBelow(segments, next) && TimesUpTo(segments, now)
    requires added.index == next && added.timestampMs >= now
    ensures IndicesBelow(segments + [added], next + 1)
    ensures TimesUpTo(segments + [added], added.timestampMs)
  {
  }
}
