/** How compaction cuts the shipped bytes into chunks, and how few chunks that is (src/manager.rs). */
module Compaction {
  import opened Wrappers
  import opened Config
  import opened Pipeline
  import opened Arithmetic
  import opened Manifest

  /** Every chunk but the last has exactly `maxSize` bytes, the last at most that; indices count up from `first`. */
  predicate Chunked(segments: seq<SegmentMeta>, first: nat, maxSize: nat)
  {
    && (forall i :: 0 <= i < |segments| ==> segments[i].index == first + i && segments[i].size <= maxSize)
    && (forall i :: 0 <= i < |segments| - 1 ==> segments[i].size == maxSize)
  }

  /** The chunks cut so far while more bytes are left: all of them full. */
  predicate FullChunks(segments: seq<SegmentMeta>, first: nat, maxSize: nat)
  {
    forall i :: 0 <= i < |segments| ==> segments[i].index == first + i && segments[i].size == maxSize
  }

  /** Every segment was stamped at or after the given time. */
  predicate StampedFrom(segments: seq<SegmentMeta>, timestampMs: nat)
  {
    forall i :: 0 <= i < |segments| ==> segments[i].timestampMs >= timestampMs
  }

  /** The pieces that the chunk loop of compact() cuts. */
  function Chunks(data: Bytes, maxSize: nat): (chunks: seq<Bytes>)
    requires maxSize > 0
  {
    if |data| <= maxSize then (if data == [] then [] else [data])
    else [data[..maxSize]] + Chunks(data[maxSize..], maxSize)
  }

  /** The pipeline carries every chunk: one is compressed, or does not begin like a compressed object. */
  predicate SafeToCompact(cfg: BackupConfig, data: Bytes, maxSize: nat)
    requires maxSize > 0
  {
    forall c :: c in Chunks(data, maxSize) ==> Carries(cfg, c)
  }

  /** The chunk at the front is carried, and so are all that follow it. */
  lemma NextIsCarried(cfg: BackupConfig, data: Bytes, maxSize: nat)
    requires maxSize > 0 && data != [] && SafeToCompact(cfg, data, maxSize)
    ensures var n := if |data| <= maxSize then |data| else maxSize;
            Carries(cfg, data[..n]) && SafeToCompact(cfg, data[n..], maxSize)
  {
    if |data| <= maxSize {
      assert data[..|data|] == data && data[|data|..] == [];
      assert Chunks(data, maxSize)[0] == data;
    } else {
      assert Chunks(data, maxSize)[0] == data[..maxSize];
    }
  }

  predicate AtMostEach(segments: seq<SegmentMeta>, maxSize: nat)
  {
    forall i :: 0 <= i < |segments| ==> segments[i].size <= maxSize
  }

  function CeilDiv(n: nat, d: nat): (q: nat)
    requires d > 0
  {
    (n + d - 1) / d
  }

  /** A tiling with pieces of at most `maxSize` covers at most that much per piece. */
  lemma {:induction false} TotalAtMost(segments: seq<SegmentMeta>, total: nat, maxSize: nat)
    requires Tiles(segments, total) && AtMostEach(segments, maxSize)
    ensures total <= |segments| * maxSize
  {
    if segments != [] {
      var n := |segments| - 1;
      TotalAtMost(segments[..n], segments[n].offset, maxSize);
      OneMore(n, maxSize);
    }
  }

  /** Full chunks cover exactly `maxSize` each. */
  lemma {:induction false} TotalOfFull(segments: seq<SegmentMeta>, total: nat, maxSize: nat)
    requires Tiles(segments, total) && forall i :: 0 <= i < |segments| ==> segments[i].size == maxSize
    ensures total == |segments| * maxSize
  {
    if segments != [] {
      var n := |segments| - 1;
      TotalOfFull(segments[..n], segments[n].offset, maxSize);
      OneMore(n, maxSize);
    }
  }

  lemma CeilDivOf(total: nat, n: nat, size: nat, maxSize: nat)
    requires 0 < size <= maxSize && total == n * maxSize + size
    ensures CeilDiv(total, maxSize) == n + 1
  {
    OneMore(n, maxSize);
    QuotientIs(total + maxSize - 1, maxSize, n + 1, size - 1);
  }

  /** The number of chunks is the total divided by the chunk size, rounded up. */
  lemma ChunkCount(segments: seq<SegmentMeta>, total: nat, first: nat, maxSize: nat)
    requires maxSize > 0 && Tiles(segments, total) && Chunked(segments, first, maxSize)
    ensures |segments| == CeilDiv(total, maxSize)
    ensures segments != [] ==> (|segments| - 1) * maxSize < total
  {
    hide CeilDiv;
    if segments == [] {
      CeilOfZero(maxSize);
    } else {
      var n := |segments| - 1;
      TotalOfFull(segments[..n], segments[n].offset, maxSize);
      CeilDivOf(total, n, segments[n].size, maxSize);
    }
  }

  lemma CeilOfZero(maxSize: nat)
    requires maxSize > 0
    ensures CeilDiv(0, maxSize) == 0
  {
    QuotientIs(maxSize - 1, maxSize, 0, maxSize - 1);
  }

  /**
   No other way of cutting the same bytes into pieces of at most `maxSize` uses fewer pieces; so
   compaction does not raise the count when no old segment was larger than a chunk.
   */
  lemma FewestChunks(segments: seq<SegmentMeta>, other: seq<SegmentMeta>, total: nat, first: nat, maxSize: nat)
    requires maxSize > 0 && Tiles(segments, total) && Chunked(segments, first, maxSize)
    requires Tiles(other, total) && AtMostEach(other, maxSize)
    ensures |segments| <= |other|
  {
    ChunkCount(segments, total, first, maxSize);
    TotalAtMost(other, total, maxSize);
    if |other| < |segments| {
      TimesMonotone(|other|, |segments| - 1, maxSize);
    }
  }

  /** One more chunk of a byte string: still full chunks, or the last one. */
  lemma NextChunk(segments: seq<SegmentMeta>, first: nat, maxSize: nat, added: SegmentMeta, more: bool)
    requires FullChunks(segments, first, maxSize)
    requires added.index == first + |segments| && added.size <= maxSize && (more ==> added.size == maxSize)
    ensures Chunked(segments + [added], first, maxSize)
    ensures more ==> FullChunks(segments + [added], first, maxSize)
  {
  }

  /**
   What compaction makes of a segment list: the same bytes in full chunks but the last, as few as
   possible, under new indices and times; not more than before when no old segment was larger.
   */
  predicate Recut(older: seq<SegmentMeta>, newer: seq<SegmentMeta>, first: nat, total: nat, maxSize: nat, since: nat)
    requires maxSize > 0
  {
    && Chunked(newer, first, maxSize) && Tiles(newer, total) && StampedFrom(newer, since)
    && |newer| == CeilDiv(total, maxSize)
    && (AtMostEach(older, maxSize) ==> |newer| <= |older|)
  }

  lemma ChunksAtMost(segments: seq<SegmentMeta>, first: nat, maxSize: nat)
    requires Chunked(segments, first, maxSize)
    ensures AtMostEach(segments, maxSize)
  {
  }

  lemma RecutWell(older: seq<SegmentMeta>, newer: seq<SegmentMeta>, first: nat, total: nat, maxSize: nat, since: nat)
    requires maxSize > 0 && Tiles(older, total) && Tiles(newer, total)
    requires Chunked(newer, first, maxSize) && StampedFrom(newer, since)
    ensures Recut(older, newer, first, total, maxSize, since) && AtMostEach(newer, maxSize)
  {
    ChunksAtMost(newer, first, maxSize);
    hide CeilDiv, Chunked, Tiles, StampedFrom, AtMostEach;
    ChunkCount(newer, total, first, maxSize);
    if AtMostEach(older, maxSize) {
      FewestChunks(newer, older, total, first, maxSize);
    }
  }
}
