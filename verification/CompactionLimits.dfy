/** What compaction can lose, and what it leaves behind. */
module CompactionLimits {
  import opened Wrappers
  import opened Arithmetic
  import opened Wal
  import opened Replay
  import opened Manifest
  import opened Config
  import opened Pipeline
  import opened Keys
  import opened S3
  import opened Durable
  import opened History
  import opened Tracking
  import opened Compaction
  import opened Recutting
  import opened Steps
  import opened Fallback
  import opened Images

  // ---------- chunks that are mistaken for compressed objects ----------

  /** What an LZ4 object without content looks like. */
  function Bait(cfg: BackupConfig): (b: Bytes)
    ensures |b| >= MAGIC_LEN
  {
    MAGIC_LZ4 + cfg.codecs.lz4Compress([])
  }

  /** A page of zeros that holds the bait at some place. */
  function Trap(cfg: BackupConfig, at: nat): (image: Bytes)
    requires at + |Bait(cfg)| <= PAGE_SIZE
    ensures |image| == PAGE_SIZE
  {
    seq(at, _ => 0) + Bait(cfg) + seq(PAGE_SIZE - at - |Bait(cfg)|, _ => 0)
  }

  const TRAP_SALT: Bytes := [0, 0, 0, 0, 0, 0, 0, 9]

  /** Two frames, of which the first writes the trap. */
  function TrapFrames(cfg: BackupConfig, at: nat): (frames: seq<Frame>)
    requires at + |Bait(cfg)| <= PAGE_SIZE
    ensures |frames| == 2 && forall f :: f in frames ==> Small(f)
  {
    [Frame(1, 1, Trap(cfg, at)), Frame(2, 2, Page(0))]
  }

  const PAGE_AT: nat := WAL_HEADER_SIZE + WAL_FRAME_HEADER_SIZE

  /** The bait is where it is said to be, and nowhere else does anything begin like a compressed object. */
  lemma TrapBytes(cfg: BackupConfig, at: nat, i: nat)
    requires at + |Bait(cfg)| <= PAGE_SIZE
    ensures var wal := WalImage(TRAP_SALT, TrapFrames(cfg, at));
            && wal[PAGE_AT + at..PAGE_AT + at + |Bait(cfg)|] == Bait(cfg)
            && (i < |wal| && !(PAGE_AT + at <= i < PAGE_AT + at + |Bait(cfg)|) ==> wal[i] != MAGIC_LZ4[0])
  {
    hide Bait, Trap, FrameImage, Header;
    var frames := TrapFrames(cfg, at);
    var wal, header := WalImage(TRAP_SALT, frames), Header(TRAP_SALT);
    var trap, plain := FrameImage(TRAP_SALT, frames[0]), FrameImage(TRAP_SALT, frames[1]);
    assert frames[..1] == [frames[0]] && [frames[0]][..0] == [];
    assert WalImage(TRAP_SALT, [frames[0]]) == header + trap;
    assert wal == header + trap + plain;
    TrapFrame(cfg, at, if PAGE_AT <= i + WAL_FRAME_HEADER_SIZE then i + WAL_FRAME_HEADER_SIZE - PAGE_AT else 0);
    PlainBytes(i, if i >= PAGE_AT + PAGE_SIZE then i - PAGE_AT - PAGE_SIZE else 0);
    var from := WAL_FRAME_HEADER_SIZE + at;
    assert wal[PAGE_AT + at..PAGE_AT + at + |Bait(cfg)|] == trap[from..from + |Bait(cfg)|];
  }

  lemma TrapFrame(cfg: BackupConfig, at: nat, i: nat)
    requires at + |Bait(cfg)| <= PAGE_SIZE
    ensures var trap, from := FrameImage(TRAP_SALT, Frame(1, 1, Trap(cfg, at))), WAL_FRAME_HEADER_SIZE + at;
            && trap[from..from + |Bait(cfg)|] == Bait(cfg)
            && (i < FRAME_SIZE && !(from <= i < from + |Bait(cfg)|) ==> trap[i] != MAGIC_LZ4[0])
  {
    hide Bait;
    var trap := FrameImage(TRAP_SALT, Frame(1, 1, Trap(cfg, at)));
    assert trap[WAL_FRAME_HEADER_SIZE..] == Trap(cfg, at);
    var from := WAL_FRAME_HEADER_SIZE + at;
    assert trap[from..from + |Bait(cfg)|] == Trap(cfg, at)[at..at + |Bait(cfg)|];
  }

  lemma PlainBytes(i: nat, j: nat)
    ensures i < WAL_HEADER_SIZE ==> Header(TRAP_SALT)[i] != MAGIC_LZ4[0]
    ensures j < FRAME_SIZE ==> FrameImage(TRAP_SALT, Frame(2, 2, Page(0)))[j] != MAGIC_LZ4[0]
  {
  }

  /** One segment for each frame, the first with the header in front. */
  function TrapSegments(t: nat): (segments: seq<SegmentMeta>)
  {
    [SegmentMeta(0, t, 0, PAGE_AT + PAGE_SIZE), SegmentMeta(1, t, PAGE_AT + PAGE_SIZE, FRAME_SIZE)]
  }

  /** This is a WAL that a database can have, shipped in two syncs. */
  lemma TrapIsShipped(cfg: BackupConfig, snapshot: Bytes, at: nat, t: nat)
    requires at + |Bait(cfg)| <= PAGE_SIZE
    ensures var wal := WalImage(TRAP_SALT, TrapFrames(cfg, at));
            var epochs := [Epoch(cfg.formats.pager(snapshot), wal)];
            var segments := TrapSegments(t);
            && SaltsDistinct(epochs) && Chained(epochs) && CarriesCuts(cfg, wal)
            && Following(cfg, epochs, 0, snapshot, 0, wal, Some(TRAP_SALT))
            && Tiles(segments, |wal|) && IndicesBelow(segments, 2) && AlignedCuts(segments, wal, 0)
  {
    hide Bait, Trap, WalImage, Frames, SaltOf, Play, Observe, AlignedLen, FrameCount, GrowthWritten;
    var frames := TrapFrames(cfg, at);
    var wal, first := WalImage(TRAP_SALT, frames), WalImage(TRAP_SALT, frames[..1]);
    var segments := TrapSegments(t);
    FramesOfImage(TRAP_SALT, frames);
    FramesOfImage(TRAP_SALT, frames[..1]);
    ImagePrefix(TRAP_SALT, frames, 1);
    assert wal[..|first|] == first && wal[..|wal|] == wal;
    TwoSegments(segments[0], segments[1], wal, first);
    assert segments == [segments[0], segments[1]];
    NothingPlayed(cfg.formats.pager(snapshot));
    TrapGrows(cfg.formats.pager(snapshot), frames[0], frames[1]);
    assert Frames(wal)[..0] == [];
    forall i | 0 <= i < |wal| && FrameBoundary(wal, i)
      ensures !HasMagic(wal[i..])
    {
      BoundaryIsFar(wal, i);
      TrapBytes(cfg, at, i);
      assert wal[i..][0] == wal[i];
    }
  }

  lemma TrapGrows(db: Db, a: Frame, b: Frame)
    requires a.page == a.commit == 1 && b.page == b.commit == 2
    ensures GrowthWritten(db, [a, b])
  {
    forall c, d, page | 0 <= c < d <= 2 && ComesIntoView(db, [a, b], c, d, page)
      ensures Writes([a, b][c..d], page)
    {
      var part := [a, b][c..d];
      assert c == 0 ==> part[0] == a;
      assert d == 2 ==> part[d - c - 1] == b;
    }
  }

  lemma NotEmpty(data: Bytes)
    requires AlignedEnd(data, 0)
    ensures |data| > 0
  {
  }

  lemma TwoSegments(a: SegmentMeta, b: SegmentMeta, data: Bytes, first: Bytes)
    requires first <= data && AlignedEnd(data, 0) && AlignedEnd(first, 0)
    requires a.offset == 0 && a.size == |first| == b.offset && b.size > 0 && b.offset + b.size == |data|
    ensures Tiles([a, b], |data|) && AlignedCuts([a, b], data, 0)
  {
    hide AlignedEnd;
    var one, two := [a], [a, b];
    assert two[..|two| - 1] == one && one[..|one| - 1] == [];
    assert data[..|first|] == first && |first| > 0 by { NotEmpty(first); }
    assert Tiles([], 0) && Tiles(one, |first|);
    assert AlignedCuts([], first[..0], 0) && AlignedCuts(one, first, 0);
  }

  /** The first frame ends no earlier than a whole frame can. */
  lemma BoundaryIsFar(wal: Bytes, at: nat)
    requires |wal| >= WAL_HEADER_SIZE && FrameSize(wal) == FRAME_SIZE && FrameBoundary(wal, at)
    ensures at == 0 || at >= PAGE_AT + PAGE_SIZE
  {
    if at > WAL_HEADER_SIZE {
      var cut := wal[..at];
      AlignedLenHoldsFrames(cut);
      if FrameCount(cut) > 0 {
        TimesMonotone(1, FrameCount(cut), FRAME_SIZE);
      }
    }
  }

  /**
   With no compression configured there is a WAL, and two segments of it that read back well, and
   a chunk size, for which the guard fails: compacted into such chunks, the data comes back
   shorter than it was, without any error. See `Recutting.CompactedRestores` for the store.
   */
  lemma CompactionLosesData(cfg: BackupConfig, snapshot: Bytes, t: nat) returns (at: nat, maxSize: nat)
    requires LawfulCodecs(cfg.codecs) && cfg.compression.NoCompression? && |Bait(cfg)| <= 500
    ensures maxSize > 0 && at + |Bait(cfg)| <= PAGE_SIZE
    ensures var wal := WalImage(TRAP_SALT, TrapFrames(cfg, at));
            var epochs := [Epoch(cfg.formats.pager(snapshot), wal)];
            var segments := TrapSegments(t);
            && SaltsDistinct(epochs) && Chained(epochs) && CarriesCuts(cfg, wal)
            && Following(cfg, epochs, 0, snapshot, 0, wal, Some(TRAP_SALT))
            && Tiles(segments, |wal|) && IndicesBelow(segments, 2) && AlignedCuts(segments, wal, 0)
            && !SafeToCompact(cfg, wal, maxSize)
            && Rejoin(cfg, Chunks(wal, maxSize)).Ok?
            && |Rejoin(cfg, Chunks(wal, maxSize)).value| == |wal| - |Bait(cfg)|
  {
    maxSize := |Bait(cfg)|;
    var i := (PAGE_AT + maxSize - 1) / maxSize;
    Division(PAGE_AT + maxSize - 1, maxSize);
    at := i * maxSize - PAGE_AT;
    TrapIsShipped(cfg, snapshot, at, t);
    TrapSprings(cfg, at, i);
  }

  lemma TrapSprings(cfg: BackupConfig, at: nat, i: nat)
    requires LawfulCodecs(cfg.codecs) && cfg.compression.NoCompression?
    requires at + |Bait(cfg)| <= PAGE_SIZE && i * |Bait(cfg)| == PAGE_AT + at
    ensures var wal := WalImage(TRAP_SALT, TrapFrames(cfg, at));
            && !SafeToCompact(cfg, wal, |Bait(cfg)|)
            && Rejoin(cfg, Chunks(wal, |Bait(cfg)|)).Ok?
            && |Rejoin(cfg, Chunks(wal, |Bait(cfg)|)).value| == |wal| - |Bait(cfg)|
  {
    hide WalImage, TrapFrames, Bait, Chunks, Rejoin, TotalSize, LawfulCodecs, ReadBack;
    var wal, size := WalImage(TRAP_SALT, TrapFrames(cfg, at)), |Bait(cfg)|;
    var chunks := Chunks(wal, size);
    TrapBytes(cfg, at, 0);
    ChunkExists(wal, size, i);
    ChunkAt(wal, size, i);
    BaitReadsEmpty(cfg);
    assert chunks[i] == Bait(cfg);
    forall j | 0 <= j < |chunks| && j != i
      ensures Carries(cfg, chunks[j])
    {
      ChunkAt(wal, size, j);
      ElsewhereThan(i, j, size);
      TrapBytes(cfg, at, j * size);
      assert chunks[j][0] == wal[j * size];
    }
    ChunksTotal(wal, size);
    OneChunkLost(cfg, chunks, i);
  }

  lemma BaitReadsEmpty(cfg: BackupConfig)
    requires LawfulCodecs(cfg.codecs) && cfg.compression.NoCompression?
    ensures ReadBack(cfg, Bait(cfg)) == Ok([]) && !Carries(cfg, Bait(cfg))
  {
    assert Bait(cfg)[..MAGIC_LEN] == MAGIC_LZ4 && Bait(cfg)[MAGIC_LEN..] == cfg.codecs.lz4Compress([]);
  }

  lemma ElsewhereThan(i: nat, j: nat, size: nat)
    requires i != j
    ensures j * size + size <= i * size || i * size + size <= j * size
  {
    if j < i {
      OneMore(j, size);
      TimesMonotone(j + 1, i, size);
    } else {
      OneMore(i, size);
      TimesMonotone(i + 1, j, size);
    }
  }

  /**
   Compaction deletes only what the manifest named before it. An orphan that an earlier failure
   left behind stays, and as long as it does the listing cannot stand in for the manifest.
   */
  lemma OrphansOutliveCompaction(objects: Objects, generation: string, older: seq<SegmentMeta>,
                                 newer: seq<SegmentMeta>, next: nat, index: nat)
    requires SegmentKey(generation, index) in objects
    requires forall m :: m in older || m in newer ==> m.index != index
    requires IndicesBelow(newer, next) && next <= 100_000_000
    ensures var after := Without(objects, KeysOf(generation, older));
            && SegmentKey(generation, index) in after
            && Listing(after, WalPrefix(generation)) != KeysOf(generation, newer)
  {
    var key := SegmentKey(generation, index);
    var after := Without(objects, KeysOf(generation, older));
    FreshIndexUnread(generation, older, index);
    FreshIndexUnread(generation, newer, index);
    ListingIsManifest(after, generation, newer, next);
    assert key in after && WalPrefix(generation) <= key;
  }
}
