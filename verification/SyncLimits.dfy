/** What comes of syncing on after the upload of a manifest has failed. */
module SyncLimits {
  import opened Wrappers
  import opened Wal
  import opened Replay
  import opened Manifest
  import opened Config
  import opened Pipeline
  import opened Keys
  import opened S3
  import opened Durable
  import opened History
  import opened Tracking
  import opened Steps
  import opened Images
  import opened Samples

  // ---------- a piece that is repeated ----------

  /** What a repeated last piece does to what a reader sees: nothing. */
  ghost predicate RepeatHarmless(db: Db, before: seq<Frame>, piece: seq<Frame>)
  {
    Observe(Play(db, before + piece + piece)) == Observe(Play(db, before + piece))
  }

  /** Whatever the database and the frames before, for pieces of `n` frames whose last commit is number `c`. */
  ghost predicate AlwaysHarmless(n: nat, c: nat)
  {
    forall db, before, piece :: Full(db) && |piece| == n && Committed(piece) == c ==> RepeatHarmless(db, before, piece)
  }

  /** A piece can be repeated, if and only if it ends with a commit or has none. */
  lemma RepeatIsExact(n: nat, c: nat)
    requires c <= n
    ensures c == 0 || c == n <==> AlwaysHarmless(n, c)
  {
    if c == 0 || c == n {
      forall db, before, piece | |piece| == n && Committed(piece) == c
        ensures RepeatHarmless(db, before, piece)
      {
        RepeatIsHarmless(db, before, piece);
      }
    } else {
      UnfinishedRepeats(n, c);
      Twos(0, 2, 9, 2);
      Twos(0, 0, 0, 0);
      assert !RepeatHarmless(Two(0, 0), [], Unfinished(n, c));
    }
  }

  lemma RepeatIsHarmless(db: Db, before: seq<Frame>, piece: seq<Frame>)
    requires Committed(piece) == 0 || Committed(piece) == |piece|
    ensures RepeatHarmless(db, before, piece)
  {
    if Committed(piece) == 0 {
      UncommittedTail(db, before, piece);
      UncommittedTail(db, before + piece, piece);
    } else {
      CommittedTail(db, before, piece);
      CommittedTail(db, before + piece, piece);
      WrittenTwice(db.pages, before, piece);
    }
  }

  lemma UncommittedTail(db: Db, before: seq<Frame>, piece: seq<Frame>)
    requires Committed(piece) == 0
    ensures Play(db, before + piece) == Play(db, before)
  {
    hide Overlay;
    CommittedOn(before, piece);
    var k := Committed(before);
    assert (before + piece)[..k] == before[..k];
  }

  lemma CommittedTail(db: Db, before: seq<Frame>, piece: seq<Frame>)
    requires piece != [] && Committed(piece) == |piece|
    ensures Play(db, before + piece) == Db(piece[|piece| - 1].commit, Overlay(db.pages, before + piece))
  {
    hide Overlay;
    CommittedOn(before, piece);
    var all := before + piece;
    assert all[..|all|] == all && all[|all| - 1] == piece[|piece| - 1];
  }

  lemma CommittedOn(before: seq<Frame>, piece: seq<Frame>)
    ensures Committed(piece) == 0 ==> Committed(before + piece) == Committed(before)
    ensures Committed(piece) > 0 ==> Committed(before + piece) == |before| + Committed(piece)
  {
    var all := before + piece;
    var c, d, e := Committed(before), Committed(piece), Committed(all);
    assert d > 0 ==> all[|before| + d - 1].commit > 0;
    assert c > 0 ==> all[c - 1].commit > 0;
    assert e > |before| ==> piece[e - |before| - 1] == all[e - 1];
    assert 0 < e <= |before| ==> before[e - 1] == all[e - 1];
  }

  /** Written once or twice, the last write of each page is the same. */
  lemma WrittenTwice(pages: map<nat, Bytes>, before: seq<Frame>, piece: seq<Frame>)
    ensures Overlay(pages, before + piece + piece) == Overlay(pages, before + piece)
  {
    var once := Overlay(pages, before);
    OverlayOn(pages, before, piece);
    OverlayOn(pages, before + piece, piece);
    assert piece[..|piece|] == piece;
    OverlayAbsorbs(once, piece, |piece|);
  }

  lemma {:induction false} OverlayOn(pages: map<nat, Bytes>, a: seq<Frame>, b: seq<Frame>)
    ensures Overlay(pages, a + b) == Overlay(Overlay(pages, a), b)
  {
    if b == [] {
      assert a + b == a;
    } else {
      var n := |b| - 1;
      assert (a + b)[..|a + b| - 1] == a + b[..n];
      OverlayOn(pages, a, b[..n]);
    }
  }

  /** `c` commits of one page, and an unfinished transaction on the other. */
  function Unfinished(n: nat, c: nat): (frames: seq<Frame>)
    ensures |frames| == n
  {
    seq(n, i => if i < c then Frame(2, 2, Page(2)) else Frame(1, 0, Page(9)))
  }

  lemma UnfinishedRepeats(n: nat, c: nat)
    requires 0 < c < n
    ensures Committed(Unfinished(n, c)) == c
    ensures Observe(Play(Two(0, 0), [] + Unfinished(n, c))) == Two(0, 2)
    ensures Observe(Play(Two(0, 0), [] + Unfinished(n, c) + Unfinished(n, c))) == Two(9, 2)
  {
    hide Page, Play, Observe, Overlay;
    var piece := Unfinished(n, c);
    var first, rest := piece[..c], piece[c..];
    UnfinishedParts(n, c);
    assert [] + piece == first + rest && [] + piece + piece == (piece + first) + rest;
    assert [] + first == first;
    UncommittedTail(Two(0, 0), first, rest);
    UncommittedTail(Two(0, 0), piece + first, rest);
    CommittedTail(Two(0, 0), [], first);
    CommittedTail(Two(0, 0), piece, first);
    OverlayOn(Two(0, 0).pages, piece, first);
    OverlayOn(Two(0, 0).pages, first, rest);
    assert piece == first + rest;
    OnePageWritten(Two(0, 0).pages, first, Frame(2, 2, Page(2)));
    Written(0, 0, 2);
    OnePageWritten(Two(0, 2).pages, rest, Frame(1, 0, Page(9)));
    Written(0, 2, 9);
    OnePageWritten(Two(9, 2).pages, first, Frame(2, 2, Page(2)));
    Written(9, 2, 2);
    Twos(0, 2, 0, 2);
    Twos(9, 2, 9, 2);
  }

  lemma UnfinishedParts(n: nat, c: nat)
    requires 0 < c < n
    ensures var piece := Unfinished(n, c);
            && Committed(piece) == c && Committed(piece[..c]) == c && Committed(piece[c..]) == 0
            && piece[..c][c - 1].commit == 2
            && (forall f :: f in piece[..c] ==> f == Frame(2, 2, Page(2)))
            && (forall f :: f in piece[c..] ==> f == Frame(1, 0, Page(9)))
  {
    hide Page;
    var piece := Unfinished(n, c);
    assert piece[c - 1].commit > 0 && piece[..c][c - 1].commit > 0;
    forall f | f in piece[c..]
      ensures f == Frame(1, 0, Page(9))
    {
      var i :| 0 <= i < n - c && piece[c..][i] == f;
      assert piece[c + i] == f;
    }
    assert Committed(piece[c..]) == 0;
  }

  // ---------- in the store ----------

  /**
   A failed upload of the manifest leaves the segment in the manifest but index and offset where
   they were (`BackupManager.LeftBehind`). The next sync then overwrites the segment and lists it a
   second time. The list tiles nothing, and a restore places the segment's bytes twice in a row.
   */
  lemma CarryingOnRestoresTwice(cfg: BackupConfig, objects: Objects, generation: string, m: GenerationManifest,
                                snapshot: Bytes, shipped: Bytes, index: nat, t: nat, size: nat, t': nat, data: Bytes,
                                segment: Bytes, list: Bytes)
    requires LatestGeneration(cfg, objects) == Ok(generation)
    requires DecodeAt(cfg, objects, SnapshotKey(generation)) == Ok(snapshot)
    requires Holds(cfg, objects, generation, m.segments, shipped) && IndicesBelow(m.segments, index)
    requires Decode(cfg, segment) == Ok(data) && size > 0
    requires DecodeManifest(cfg, list) ==
               Some(AddSegment(AddSegment(m, index, t, |shipped|, size), index, t', |shipped|, |data|))
    ensures var after := objects[SegmentKey(generation, index) := segment][ManifestKey(generation) := list];
            && RestoreLatest(cfg, after) == Ok(Files(snapshot, Some(shipped + data + data)))
            && ManifestAt(cfg, after, generation).Some?
            && forall total :: !Tiles(ManifestAt(cfg, after, generation).value.segments, total)
  {
    hide Holds, Fetch, Decode, DecodeManifest, IndicesBelow;
    var once := AddSegment(m, index, t, |shipped|, size).segments;
    var twice := AddSegment(AddSegment(m, index, t, |shipped|, size), index, t', |shipped|, |data|).segments;
    var after := objects[SegmentKey(generation, index) := segment][ManifestKey(generation) := list];
    assert twice[..|twice| - 1] == once && once[..|once| - 1] == m.segments;
    KeyShapes(generation, index);
    StillHeld(cfg, objects, generation, m.segments, shipped, index, segment, list);
    HoldsFetch(cfg, after, generation, m.segments, shipped);
    KeysOfLast(generation, once);
    KeysOfLast(generation, twice);
    FetchAppend(cfg, after, KeysOf(generation, m.segments), SegmentKey(generation, index));
    FetchAppend(cfg, after, KeysOf(generation, once), SegmentKey(generation, index));
  }

  lemma StillHeld(cfg: BackupConfig, objects: Objects, generation: string, segments: seq<SegmentMeta>, data: Bytes,
                  index: nat, segment: Bytes, list: Bytes)
    requires Holds(cfg, objects, generation, segments, data) && IndicesBelow(segments, index)
    ensures Holds(cfg, objects[SegmentKey(generation, index) := segment][ManifestKey(generation) := list], generation,
              segments, data)
  {
    hide Holds, SegmentKey, ManifestKey;
    forall i | 0 <= i < |segments|
      ensures SegmentKey(generation, segments[i].index) != SegmentKey(generation, index)
      ensures SegmentKey(generation, segments[i].index) != ManifestKey(generation)
    {
      KeyShapes(generation, segments[i].index);
      if SegmentKey(generation, segments[i].index) == SegmentKey(generation, index) {
        SegmentKeyInjective(generation, segments[i].index, index);
      }
    }
    var after := objects[SegmentKey(generation, index) := segment][ManifestKey(generation) := list];
    HoldsFrame(cfg, objects, after, generation, segments, data);
  }

  const REPEAT_SALT: Bytes := [0, 0, 0, 0, 0, 0, 0, 6]

  /** The first page is written; then the second; then the first again, but not committed. */
  function Three(): (frames: seq<Frame>)
    ensures |frames| == 3 && forall f :: f in frames ==> Small(f)
  {
    [Frame(1, 2, Page(1)), Frame(2, 2, Page(2)), Frame(1, 0, Page(9))]
  }

  /** The second and the third come in one piece, and twice. */
  function Five(): (frames: seq<Frame>)
    ensures forall f :: f in frames ==> Small(f)
  {
    Three() + [Frame(2, 2, Page(2)), Frame(1, 0, Page(9))]
  }

  lemma RepeatedBytes()
    ensures var wal, shipped := WalImage(REPEAT_SALT, Three()), WalImage(REPEAT_SALT, Three()[..1]);
            shipped <= wal && shipped + wal[|shipped|..] + wal[|shipped|..] == WalImage(REPEAT_SALT, Five())
  {
    hide Page, FrameImage, Header;
    var three, five := Three(), Five();
    var wal, shipped := WalImage(REPEAT_SALT, three), WalImage(REPEAT_SALT, three[..1]);
    var y, u := FrameImage(REPEAT_SALT, three[1]), FrameImage(REPEAT_SALT, three[2]);
    assert three[..2][..1] == three[..1] && three[..2][1] == three[1];
    assert WalImage(REPEAT_SALT, three[..2]) == shipped + y;
    assert wal == shipped + y + u;
    assert five[..4][..3] == three && five[..4][3] == three[1] && five[4] == three[2];
    assert WalImage(REPEAT_SALT, five[..4]) == wal + y;
    assert WalImage(REPEAT_SALT, five) == wal + y + u;
    assert wal[|shipped|..] == y + u;
  }

  /** What a reader of the three frames, or of the five, can see. */
  lemma RepeatedStates(j: nat)
    requires j <= 3
    ensures |Three()| == 3 && Observe(Play(Two(0, 0), Three()[..j])) in {Two(0, 0), Two(1, 0), Two(1, 2)}
    ensures Observe(Play(Two(0, 0), Five())) == Two(9, 2)
    ensures GrowthWritten(Two(0, 0), Three())
  {
    hide Page, Observe, Play, Two, Overlay;
    ThreePlayed();
    FivePlayed();
    ThreeNeverGrow();
    NothingPlayed(Two(0, 0));
    Twos(0, 0, 1, 0);
    Twos(1, 0, 1, 2);
    Twos(1, 2, 9, 2);
    Twos(9, 2, 9, 2);
    assert Three()[..0] == [] && Three()[..3] == Three();
  }

  lemma ThreeNeverGrow()
    ensures GrowthWritten(Two(0, 0), Three())
  {
    hide Page;
    NeverGrows(Two(0, 0), Three());
  }

  lemma ThreePlayed()
    ensures Play(Two(0, 0), Three()[..1]) == Two(1, 0)
    ensures Play(Two(0, 0), Three()[..2]) == Two(1, 2) && Play(Two(0, 0), Three()) == Two(1, 2)
  {
    hide Page, Play, Overlay;
    var a, b, u := Frame(1, 2, Page(1)), Frame(2, 2, Page(2)), Frame(1, 0, Page(9));
    assert Three()[..1] == [a] && Three()[..2] == [a] + [b] && Three() == [a] + [b] + [u];
    assert Committed([b]) == 1 && Committed([u]) == 0;
    OneFrame(Two(0, 0), a);
    Written(0, 0, 1);
    CommittedTail(Two(0, 0), [a], [b]);
    UncommittedTail(Two(0, 0), [a] + [b], [u]);
    OverlayOn(Two(0, 0).pages, [a], [b]);
    OnePageWritten(Two(0, 0).pages, [a], a);
    OnePageWritten(Two(1, 0).pages, [b], b);
    Written(1, 0, 2);
  }

  lemma FivePlayed()
    ensures Play(Two(0, 0), Five()) == Two(9, 2)
  {
    hide Page, Play, Overlay;
    var a, b, u := Frame(1, 2, Page(1)), Frame(2, 2, Page(2)), Frame(1, 0, Page(9));
    var pages := Two(0, 0).pages;
    assert Five() == [a] + [b] + [u] + [b] + [u];
    assert Committed([b]) == 1 && Committed([u]) == 0;
    UncommittedTail(Two(0, 0), [a] + [b] + [u] + [b], [u]);
    CommittedTail(Two(0, 0), [a] + [b] + [u], [b]);
    OverlayOn(pages, [a], [b]);
    OverlayOn(pages, [a] + [b], [u]);
    OverlayOn(pages, [a] + [b] + [u], [b]);
    OnePageWritten(pages, [a], a);
    Written(0, 0, 1);
    OnePageWritten(Two(1, 0).pages, [b], b);
    Written(1, 0, 2);
    OnePageWritten(Two(1, 2).pages, [u], u);
    Written(1, 2, 9);
    OnePageWritten(Two(9, 2).pages, [b], b);
    Written(9, 2, 2);
  }

  /**
   A generation that follows its epoch with the first of three frames shipped. Its next piece is
   uploaded, but not its manifest; the sync after that goes on. The store then restores to no
   database that there ever was.
   */
  lemma CarryingOnMixes(cfg: BackupConfig, objects: Objects, generation: string, m: GenerationManifest, snapshot: Bytes,
                        index: nat, t: nat, size: nat, t': nat, segment: Bytes, list: Bytes)
    requires cfg.formats.pager(snapshot) == Two(0, 0) && size > 0
    requires Published(cfg, objects, generation, m, snapshot, WalImage(REPEAT_SALT, Three()[..1]))
    requires IndicesBelow(m.segments, index)
    requires var wal, shipped := WalImage(REPEAT_SALT, Three()), WalImage(REPEAT_SALT, Three()[..1]);
             && |shipped| <= |wal| && Decode(cfg, segment) == Ok(wal[|shipped|..])
             && DecodeManifest(cfg, list) == Some(AddSegment(AddSegment(m, index, t, |shipped|, size), index, t',
                                                             |shipped|, |wal| - |shipped|))
    ensures var wal, shipped := WalImage(REPEAT_SALT, Three()), WalImage(REPEAT_SALT, Three()[..1]);
            var epochs := [Epoch(Two(0, 0), wal)];
            var after := objects[SegmentKey(generation, index) := segment][ManifestKey(generation) := list];
            && Full(Two(0, 0)) && EpochGrows(epochs[0], wal) && AlignedLen(wal) == |wal|
            && Following(cfg, epochs, 0, snapshot, 0, shipped, Some(REPEAT_SALT))
            && RestoreLatest(cfg, after).Ok?
            && forall p :: Reached(epochs, p) ==> Open(cfg, RestoreLatest(cfg, after).value) != StateAt(epochs, p)
  {
    hide WalImage, Published, RestoreLatest, Play, Observe, Frames, SaltOf, Three, Five, Full, Two, Decode,
      DecodeManifest, GrowthWritten, IndicesBelow, AlignedLen, FrameCount;
    var wal, shipped := WalImage(REPEAT_SALT, Three()), WalImage(REPEAT_SALT, Three()[..1]);
    var epochs := [Epoch(Two(0, 0), wal)];
    RepeatFollows(cfg, snapshot);
    PublishedParts(cfg, objects, generation, m, snapshot, shipped);
    CarryingOnRestoresTwice(cfg, objects, generation, m, snapshot, shipped, index, t, size, t', wal[|shipped|..],
      segment, list);
    RepeatedBytes();
    FramesOfImage(REPEAT_SALT, Three());
    FramesOfImage(REPEAT_SALT, Five());
    RepeatedStates(0);
    Twos(9, 2, 0, 0);
    Twos(9, 2, 1, 0);
    Twos(9, 2, 1, 2);
    forall p | Reached(epochs, p)
      ensures Two(9, 2) != StateAt(epochs, p)
    {
      RepeatedStates(p.frames);
    }
  }

  lemma RepeatFollows(cfg: BackupConfig, snapshot: Bytes)
    requires cfg.formats.pager(snapshot) == Two(0, 0)
    ensures var wal, shipped := WalImage(REPEAT_SALT, Three()), WalImage(REPEAT_SALT, Three()[..1]);
            var epochs := [Epoch(Two(0, 0), wal)];
            && shipped <= wal && Full(Two(0, 0)) && EpochGrows(epochs[0], wal) && AlignedLen(wal) == |wal|
            && Following(cfg, epochs, 0, snapshot, 0, shipped, Some(REPEAT_SALT))
  {
    hide WalImage, Play, SaltOf, Observe, GrowthWritten, Full, Two;
    var frames := Three();
    FramesOfImage(REPEAT_SALT, frames[..1]);
    FramesOfImage(REPEAT_SALT, frames);
    ImagePrefix(REPEAT_SALT, frames, 1);
    RepeatedStates(0);
    GrowthPrefix(Two(0, 0), frames, 1);
    NothingPlayed(Two(0, 0));
    assert frames[..0] == [];
    Twos(0, 0, 0, 0);
  }
}
