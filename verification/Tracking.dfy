/**
 What ties a store to the history of the live database: where a manager's bookkeeping stands in
 that history, and which position every durable state of the store restores to.
 */
module Tracking {
  import opened Wrappers
  import opened Wal
  import opened Manifest
  import opened Config
  import opened Keys
  import opened S3
  import opened Durable
  import opened History

  /**
   The snapshot shows `epoch` with `snapFrames` frames backfilled; the shipped bytes are an
   aligned prefix of that epoch's WAL and of no other, past all that the snapshot holds; pages that
   come into view are written.
   */
  predicate Belongs(cfg: BackupConfig, epochs: seq<Epoch>, epoch: nat, snapshot: Bytes, snapFrames: nat, shipped: Bytes)
  {
    && epoch < |epochs|
    && FileShows(cfg, snapshot, epochs[epoch], snapFrames)
    && shipped <= epochs[epoch].wal
    && (shipped != [] ==> AlignedEnd(shipped, snapFrames) && EpochGrows(epochs[epoch], shipped))
  }

  /**
   The salt, once captured, is that of the epoch being followed. Before, nothing has been shipped
   and the epoch is still the current one.
   */
  predicate Following(cfg: BackupConfig, epochs: seq<Epoch>, epoch: nat, snapshot: Bytes, snapFrames: nat,
                      shipped: Bytes, salt: Option<Bytes>)
  {
    && Belongs(cfg, epochs, epoch, snapshot, snapFrames, shipped)
    && (salt.None? ==> epoch == |epochs| - 1 && shipped == [])
    && (salt.Some? ==> HasSalt(epochs[epoch].wal) && SaltOf(epochs[epoch].wal) == salt.value)
  }

  lemma FollowingBelongs(cfg: BackupConfig, epochs: seq<Epoch>, epoch: nat, snapshot: Bytes, snapFrames: nat,
                         shipped: Bytes, salt: Option<Bytes>)
    requires Following(cfg, epochs, epoch, snapshot, snapFrames, shipped, salt)
    ensures Belongs(cfg, epochs, epoch, snapshot, snapFrames, shipped)
  {
  }

  /** Without a salt, a snapshot of the current epoch is being followed. */
  lemma FollowsAnew(cfg: BackupConfig, epochs: seq<Epoch>, epoch: nat, snapshot: Bytes, snapFrames: nat)
    requires Belongs(cfg, epochs, epoch, snapshot, snapFrames, []) && epoch == |epochs| - 1
    ensures Following(cfg, epochs, epoch, snapshot, snapFrames, [], None)
  {
  }

  lemma ShippedHasSalt(cfg: BackupConfig, epochs: seq<Epoch>, epoch: nat, snapshot: Bytes, snapFrames: nat,
                       shipped: Bytes, salt: Option<Bytes>)
    requires Following(cfg, epochs, epoch, snapshot, snapFrames, shipped, salt)
    ensures shipped != [] ==> salt.Some?
  {
  }

  /** The position that the snapshot and the shipped bytes amount to. */
  function Here(epoch: nat, snapFrames: nat, shipped: Bytes): (p: Point)
  {
    Point(epoch, if shipped == [] then snapFrames else FrameCount(shipped))
  }

  /** Restoring the snapshot with the shipped bytes gives the database at that position. */
  lemma BelongsShows(cfg: BackupConfig, epochs: seq<Epoch>, epoch: nat, snapshot: Bytes, snapFrames: nat,
                     shipped: Bytes)
    requires Belongs(cfg, epochs, epoch, snapshot, snapFrames, shipped)
    ensures var p := Here(epoch, snapFrames, shipped);
            Reached(epochs, p) && Open(cfg, FilesOf(snapshot, shipped)) == StateAt(epochs, p)
  {
    if shipped == [] {
      assert Frames([]) == [];
    } else {
      SnapshotPlusWal(cfg, epochs[epoch], snapshot, snapFrames, shipped);
    }
  }

  lemma BelongsStable(cfg: BackupConfig, before: seq<Epoch>, after: seq<Epoch>, epoch: nat, snapshot: Bytes,
                      snapFrames: nat, shipped: Bytes)
    requires Belongs(cfg, before, epoch, snapshot, snapFrames, shipped) && Extends(before, after)
    ensures Belongs(cfg, after, epoch, snapshot, snapFrames, shipped)
  {
    hide FrameCount;
    FileShowsStable(cfg, snapshot, before[epoch], after[epoch], snapFrames);
  }

  /** The application's progress does not disturb what has been shipped. */
  lemma FollowingStable(cfg: BackupConfig, before: seq<Epoch>, after: seq<Epoch>, epoch: nat, snapshot: Bytes,
                        snapFrames: nat, shipped: Bytes, salt: Option<Bytes>)
    requires Following(cfg, before, epoch, snapshot, snapFrames, shipped, salt)
    requires Extends(before, after) && (salt.None? ==> |after| == |before|)
    ensures Following(cfg, after, epoch, snapshot, snapFrames, shipped, salt)
  {
    BelongsStable(cfg, before, after, epoch, snapshot, snapFrames, shipped);
  }

  /**
   The discontinuity check is exact: on a WAL with frames it fires if and only if the epoch
   being followed has ended. Appends alone never trigger it; a reset always does.
   */
  lemma DiscontinuityIsReset(cfg: BackupConfig, epochs: seq<Epoch>, epoch: nat, snapshot: Bytes, snapFrames: nat,
                             shipped: Bytes, salt: Option<Bytes>)
    requires Following(cfg, epochs, epoch, snapshot, snapFrames, shipped, salt) && SaltsDistinct(epochs)
    requires |epochs[|epochs| - 1].wal| > WAL_HEADER_SIZE
    ensures CheckDiscontinuity(|shipped|, salt, epochs[|epochs| - 1].wal) <==> epoch != |epochs| - 1
  {
    var last := |epochs| - 1;
    if epoch != last {
      assert SaltOf(epochs[epoch].wal) != SaltOf(epochs[last].wal);
    }
  }

  /** Shipping the rest of the aligned WAL keeps following the same epoch, further on. */
  lemma ShipNext(cfg: BackupConfig, epochs: seq<Epoch>, epoch: nat, snapshot: Bytes, snapFrames: nat,
                 shipped: Bytes, salt: Option<Bytes>, captured: Option<Bytes>)
    requires Following(cfg, epochs, epoch, snapshot, snapFrames, shipped, salt) && epoch == |epochs| - 1
    requires HasSalt(epochs[epoch].wal) && captured == Some(SaltOf(epochs[epoch].wal))
    requires EpochGrows(epochs[epoch], epochs[epoch].wal)
    ensures Following(cfg, epochs, epoch, snapshot, snapFrames, shipped, captured)
    ensures var wal := epochs[epoch].wal;
            var n := AlignedLen(wal);
            n <= |wal| && (n > WAL_HEADER_SIZE && n > |shipped| ==>
              && Following(cfg, epochs, epoch, snapshot, snapFrames, wal[..n], captured)
              && Here(epoch, snapFrames, wal[..n]) == Tip(epochs)
              && AtMost(Here(epoch, snapFrames, shipped), Tip(epochs)))
  {
    hide EpochGrows;
    var wal := epochs[epoch].wal;
    FramesOfAligned(wal);
    EpochGrowsPrefix(epochs[epoch], wal[..AlignedLen(wal)], wal);
    var n := AlignedLen(wal);
    assert |Frames(wal[..n])| == FrameCount(wal[..n]) && |Frames(wal)| == FrameCount(wal);
    AlignedLenMonotone(shipped, wal);
  }

  /** Every segment ends on a frame boundary of the data, with at least `least` frames up to there. */
  predicate AlignedCuts(segments: seq<SegmentMeta>, data: Bytes, least: nat)
  {
    if segments == [] then true
    else
      var last := segments[|segments| - 1];
      && AlignedEnd(data, least) && last.offset <= |data|
      && AlignedCuts(segments[..|segments| - 1], data[..last.offset], least)
  }

  predicate AlignedEnd(data: Bytes, least: nat)
  {
    |data| > WAL_HEADER_SIZE && AlignedLen(data) == |data| && least <= FrameCount(data)
  }

  /** A new segment that brings the data to a frame boundary keeps all ends on boundaries. */
  lemma NextAligned(segments: seq<SegmentMeta>, data: Bytes, added: SegmentMeta, goal: Bytes, least: nat)
    requires AlignedCuts(segments, data, least) && data <= goal && added.offset == |data| && AlignedEnd(goal, least)
    ensures AlignedCuts(segments + [added], goal, least)
  {
    hide AlignedEnd;
    var all := segments + [added];
    assert all[..|all| - 1] == segments && goal[..added.offset] == data;
  }

  // ---------- durable states ----------

  /** A reader of this store restores the database at that position, and no manifest lies. */
  ghost predicate Shows(cfg: BackupConfig, objects: Objects, epochs: seq<Epoch>, p: Point)
  {
    && Reached(epochs, p)
    && RestoreLatest(cfg, objects).Ok?
    && Open(cfg, RestoreLatest(cfg, objects).value) == StateAt(epochs, p)
    && Sound(cfg, objects)
  }

  /** For each durable state of a store, the position it is known to show, if any. */
  type Places = seq<Option<Point>>

  /** The store is sound, and shows the position if one is given. */
  ghost predicate Fits(cfg: BackupConfig, objects: Objects, epochs: seq<Epoch>, p: Option<Point>)
  {
    Sound(cfg, objects) && (p.Some? ==> Shows(cfg, objects, epochs, p.value))
  }

  /** Every durable state shows the position recorded for it. */
  ghost predicate Tracked(cfg: BackupConfig, trace: seq<Objects>, epochs: seq<Epoch>, places: Places)
  {
    && |places| == |trace|
    && forall i :: 0 <= i < |places| && places[i].Some? ==> Shows(cfg, trace[i], epochs, places[i].value)
  }

  /** From index `from` on, every state has a position, and positions never go back. */
  ghost predicate Ascending(places: Places, from: int)
  {
    forall i, j :: 0 <= i <= j < |places| && from <= i ==>
      places[i].Some? && places[j].Some? && AtMost(places[i].value, places[j].value)
  }

  function LastOf(places: Places): (p: Option<Point>)
  {
    if places == [] then None else places[|places| - 1]
  }

  /** The last state has a position, and it is not after `q`. */
  predicate Leads(places: Places, q: Point)
  {
    LastOf(places).Some? && AtMost(LastOf(places).value, q)
  }

  lemma LeadsFrom(places: Places, p: Point, q: Point)
    requires LastOf(places) == Some(p)
    ensures places != [] && (Leads(places, q) <==> AtMost(p, q))
  {
  }

  lemma ShowsStable(cfg: BackupConfig, objects: Objects, before: seq<Epoch>, after: seq<Epoch>, p: Point)
    requires Shows(cfg, objects, before, p) && Extends(before, after)
    ensures Shows(cfg, objects, after, p)
  {
    PastIsStable(before, after, p);
  }

  lemma TrackedStable(cfg: BackupConfig, trace: seq<Objects>, before: seq<Epoch>, after: seq<Epoch>, places: Places)
    requires Tracked(cfg, trace, before, places) && Extends(before, after)
    ensures Tracked(cfg, trace, after, places)
  {
    forall i | 0 <= i < |places| && places[i].Some?
      ensures Shows(cfg, trace[i], after, places[i].value)
    {
      ShowsStable(cfg, trace[i], before, after, places[i].value);
    }
  }

  lemma TrackedAppend(cfg: BackupConfig, trace: seq<Objects>, epochs: seq<Epoch>, places: Places, objects: Objects,
                      p: Option<Point>)
    requires Tracked(cfg, trace, epochs, places) && Fits(cfg, objects, epochs, p)
    ensures Tracked(cfg, trace + [objects], epochs, places + [p])
  {
    hide Shows, Sound;
  }

  lemma AscendingStart(places: Places)
    requires LastOf(places).Some?
    ensures Ascending(places, |places| - 1)
  {
  }

  /** Staying at the last position, or moving to one not before it, keeps the order. */
  lemma AscendingAdvance(places: Places, from: int, after: Places, q: Point)
    requires from < |places| && Ascending(places, from) && Leads(places, q)
    requires after == places || after == places + [LastOf(places)] || after == places + [Some(q)]
    ensures places <= after && Ascending(after, from) && Leads(after, q)
  {
  }

  /** Two ascending runs that meet are one. */
  lemma AscendingOn(a: Places, b: Places, c: Places)
    requires b != [] && a <= b <= c && Ascending(b, |a| - 1) && Ascending(c, |b| - 1)
    ensures a <= c && Ascending(c, |a| - 1)
  {
    forall i, j | 0 <= i <= j < |c| && |a| - 1 <= i
      ensures c[i].Some? && c[j].Some? && AtMost(c[i].value, c[j].value)
    {
      if i < |b| {
        assert b[i] == c[i] && b[|b| - 1] == c[|b| - 1];
        if j < |b| {
          assert b[j] == c[j];
        }
      }
    }
  }

  /**
   A run that ascends up to `p` and from there on, if `q` is not before `p`, ascends throughout;
   and if it ends in `q`, only then.
   */
  lemma AscendingThrough(a: Places, b: Places, c: Places, p: Point, q: Point)
    requires a != [] && a <= b <= c && Ascending(b, |a| - 1) && LastOf(b) == Some(p)
    requires AtMost(p, q) ==> Ascending(c, |b| - 1)
    ensures a <= c
    ensures AtMost(p, q) ==> Ascending(c, |a| - 1)
    ensures LastOf(c) == Some(q) && Ascending(c, |a| - 1) ==> AtMost(p, q)
  {
    if AtMost(p, q) {
      AscendingOn(a, b, c);
    }
    if LastOf(c) == Some(q) && Ascending(c, |a| - 1) {
      assert c[|b| - 1] == b[|b| - 1];
    }
  }

  /** From index `from` on, every state has a position, and never one in an earlier epoch than before. */
  ghost predicate Placed(places: Places, from: int)
  {
    forall i, j :: 0 <= i <= j < |places| && from <= i ==>
      places[i].Some? && places[j].Some? && places[i].value.epoch <= places[j].value.epoch
  }

  lemma PlacedOn(a: Places, b: Places, c: Places)
    requires b != [] && a <= b <= c && Placed(b, |a| - 1) && Placed(c, |b| - 1)
    ensures a <= c && Placed(c, |a| - 1)
  {
    forall i, j | 0 <= i <= j < |c| && |a| - 1 <= i
      ensures c[i].Some? && c[j].Some? && c[i].value.epoch <= c[j].value.epoch
    {
      if i < |b| {
        assert b[i] == c[i] && b[|b| - 1] == c[|b| - 1];
        if j < |b| {
          assert b[j] == c[j];
        }
      }
    }
  }

  lemma AscendingIsPlaced(places: Places, from: int)
    requires Ascending(places, from)
    ensures Placed(places, from)
  {
  }

  /** Once a state has a position, all that follow have one. */
  predicate Unbroken(places: Places)
  {
    forall i, j :: 0 <= i <= j < |places| && places[i].Some? ==> places[j].Some?
  }

  lemma PlacedUnbroken(before: Places, after: Places)
    requires Unbroken(before) && before <= after && Placed(after, |before| - 1)
    ensures Unbroken(after)
  {
    forall i, j | 0 <= i <= j < |after| && after[i].Some?
      ensures after[j].Some?
    {
      assert i < |before| ==> after[i] == before[i];
      assert j < |before| ==> after[j] == before[j];
    }
  }

  /** A state without a position is one that restores to nothing at all. */
  ghost predicate Honest(cfg: BackupConfig, trace: seq<Objects>, places: Places)
  {
    |places| == |trace| && forall t :: 0 <= t < |trace| && places[t].None? ==> RestoreLatest(cfg, trace[t]).Err?
  }

  /** New states have positions, or restore to what the last one restored to if that had none. */
  ghost predicate UnplacedAsBefore(cfg: BackupConfig, trace: seq<Objects>, places: Places, from: nat,
                                   before: Result<Files>)
  {
    |places| == |trace| && forall t :: from <= t < |trace| && places[t].None? ==> RestoreLatest(cfg, trace[t]) == before
  }

  /** One more state, with a position. */
  lemma UnplacedOn(cfg: BackupConfig, trace: seq<Objects>, places: Places, trace': seq<Objects>, places': Places,
                   from: nat, before: Result<Files>)
    requires UnplacedAsBefore(cfg, trace, places, from, before) && trace <= trace' && |places'| == |trace'|
    requires places' == places || (exists p :: places' == places + [Some(p)])
    ensures UnplacedAsBefore(cfg, trace', places', from, before)
  {
  }

  lemma HonestOn(cfg: BackupConfig, trace: seq<Objects>, places: Places, trace': seq<Objects>, places': Places)
    requires Honest(cfg, trace, places) && trace != [] && trace <= trace' && places <= places'
    requires UnplacedAsBefore(cfg, trace', places', |trace|, RestoreLatest(cfg, trace[|trace| - 1]))
    requires LastOf(places).Some? ==> Placed(places', |places| - 1)
    ensures Honest(cfg, trace', places')
  {
    forall t | 0 <= t < |trace'| && places'[t].None?
      ensures RestoreLatest(cfg, trace'[t]).Err?
    {
      assert t < |trace| ==> places'[t] == places[t] && trace'[t] == trace[t];
    }
  }

  lemma HonestPlaced(cfg: BackupConfig, trace: seq<Objects>, places: Places, trace': seq<Objects>, places': Places)
    requires Honest(cfg, trace, places) && trace <= trace' && places <= places' && |places'| == |trace'|
    requires Placed(places', |places| - 1)
    ensures Honest(cfg, trace', places')
  {
    forall t | 0 <= t < |trace'| && places'[t].None?
      ensures RestoreLatest(cfg, trace'[t]).Err?
    {
      assert t < |trace| ==> places'[t] == places[t] && trace'[t] == trace[t];
    }
  }

  /** The store restores to a database of the history. */
  ghost predicate ShowsHistory(cfg: BackupConfig, objects: Objects, epochs: seq<Epoch>)
  {
    exists p :: Shows(cfg, objects, epochs, p)
  }

  /** Once a durable state could be restored, it and every later one restores to a database of the history. */
  ghost predicate AlwaysShown(cfg: BackupConfig, trace: seq<Objects>, epochs: seq<Epoch>)
  {
    forall t, u :: 0 <= t <= u < |trace| && RestoreLatest(cfg, trace[t]).Ok? ==> ShowsHistory(cfg, trace[u], epochs)
  }

  lemma HonestShows(cfg: BackupConfig, trace: seq<Objects>, epochs: seq<Epoch>, places: Places)
    requires Tracked(cfg, trace, epochs, places) && Honest(cfg, trace, places) && Unbroken(places)
    ensures AlwaysShown(cfg, trace, epochs)
  {
    hide Shows, RestoreLatest;
    forall t, u | 0 <= t <= u < |trace| && RestoreLatest(cfg, trace[t]).Ok?
      ensures ShowsHistory(cfg, trace[u], epochs)
    {
      assert places[t].Some? && places[u].Some?;
      assert Shows(cfg, trace[u], epochs, places[u].value);
    }
  }

  /** Three uploads that lead to `a`, `b` and `c`, or fewer; the last one may or may not have had its effect. */
  predicate Staged(before: Places, after: Places, a: Option<Point>, b: Option<Point>, c: Option<Point>)
  {
    || after == before
    || after == before + [LastOf(before)] || after == before + [a]
    || after == before + [a, a] || after == before + [a, b]
    || after == before + [a, b, b] || after == before + [a, b, c]
  }

  predicate EpochsInOrder(l: Option<Point>, a: Option<Point>, b: Option<Point>, c: Option<Point>)
  {
    l.Some? && a.Some? && b.Some? && c.Some? && l.value.epoch <= a.value.epoch <= b.value.epoch <= c.value.epoch
  }

  lemma StagedPlaces(before: Places, after: Places, a: Option<Point>, b: Option<Point>, c: Option<Point>)
    requires Staged(before, after, a, b, c)
    ensures before <= after
    ensures EpochsInOrder(LastOf(before), a, b, c) ==> Placed(after, |before| - 1)
    ensures |after| == |before| + 3 && before != [] ==> after[|after| - 4] == LastOf(before)
  {
  }

  lemma StagesEnd(before: Places, two: Places, after: Places, a: Option<Point>, b: Option<Point>, c: Option<Point>)
    requires two == before + [a, b] && (after == two || after == two + [LastOf(two)] || after == two + [c])
    ensures Staged(before, after, a, b, c)
  {
    assert before + [a, b] + [b] == before + [a, b, b] && before + [a, b] + [c] == before + [a, b, c];
  }

  lemma StagedUnbroken(before: Places, after: Places, q: Point)
    requires Staged(before, after, LastOf(before), Some(q), Some(q)) && Unbroken(before)
    ensures Unbroken(after)
  {
    if LastOf(before).Some? {
      forall i, j | 0 <= i <= j < |after| && after[i].Some?
        ensures after[j].Some?
      {
        assert i < |before| ==> after[i] == before[i];
        assert j < |before| ==> after[j] == before[j];
      }
    } else {
      assert forall i :: 0 <= i < |before| ==> before[i].None?;
      forall i, j | 0 <= i <= j < |after| && after[i].Some?
        ensures after[j].Some?
      {
        assert i > |before|;
      }
    }
  }

  /** If each stage leads on, so does the whole. */
  lemma StagedAscends(before: Places, after: Places, a: Option<Point>, q: Point)
    requires Staged(before, after, a, Some(q), Some(q)) && a == LastOf(before) && Leads(before, q)
    ensures Ascending(after, |before| - 1) && Leads(after, q)
  {
    AscendingStart(before);
    AscendingAdvance(before, |before| - 1, before + [a], q);
    AscendingAdvance(before + [a], |before| - 1, before + [a] + [a], q);
    AscendingAdvance(before + [a], |before| - 1, before + [a] + [Some(q)], q);
    AscendingAdvance(before + [a] + [Some(q)], |before| - 1, before + [a] + [Some(q)] + [Some(q)], q);
    assert before + [a] + [Some(q)] + [Some(q)] == before + [a, Some(q), Some(q)];
    assert before + [a] + [a] == before + [a, a] && before + [a] + [Some(q)] == before + [a, Some(q)];
  }

  /** The positions stay at `p` from index `from` on. */
  predicate StaysAt(places: Places, from: nat, p: Point)
  {
    forall i :: from <= i < |places| ==> places[i] == Some(p)
  }

  lemma StaysOn(a: Places, b: Places, c: Places, p: Point)
    requires a <= b <= c && StaysAt(b, |a|, p) && StaysAt(c, |b|, p)
    ensures a <= c && StaysAt(c, |a|, p)
  {
    forall i | |a| <= i < |c|
      ensures c[i] == Some(p)
    {
      assert i < |b| ==> c[i] == b[i];
    }
  }

  lemma StayingAscends(before: Places, after: Places, p: Point)
    requires LastOf(before) == Some(p) && before <= after && StaysAt(after, |before|, p)
    ensures Ascending(after, |before| - 1)
  {
  }

  /** Further durable states that all show `p` are tracked by repeating it. */
  lemma {:induction false} TrackedMore(cfg: BackupConfig, trace: seq<Objects>, more: seq<Objects>, epochs: seq<Epoch>,
                                       places: Places, p: Point) returns (all: Places)
    requires Tracked(cfg, trace, epochs, places)
    requires trace <= more && forall t :: |trace| <= t < |more| ==> Fits(cfg, more[t], epochs, Some(p))
    ensures Tracked(cfg, more, epochs, all) && places <= all && StaysAt(all, |places|, p)
    decreases |more|
  {
    hide Fits;
    if more == trace {
      all := places;
    } else {
      var n := |more| - 1;
      assert more == more[..n] + [more[n]];
      var q := TrackedMore(cfg, trace, more[..n], epochs, places, p);
      TrackedAppend(cfg, more[..n], epochs, q, more[n], Some(p));
      all := q + [Some(p)];
    }
  }

  // ---------- the shape of a store ----------

  /** The keys that the manager ever writes. */
  ghost predicate WellKeyed(key: string)
  {
    key == LATEST || OwnKey(Head(key), key)
  }

  /** Every key has the manager's shape, and every generation id in the store has been issued. */
  ghost predicate Registered(cfg: BackupConfig, objects: Objects, issued: set<string>)
  {
    && (forall k :: k in objects ==> WellKeyed(k) && (k == LATEST || Head(k) in issued))
    && (LatestGeneration(cfg, objects).Ok? ==> Head(LatestGeneration(cfg, objects).value) in issued)
  }

  /** The keys of one generation. */
  ghost predicate OwnKey(generation: string, key: string)
  {
    key == SnapshotKey(generation) || key == ManifestKey(generation) || exists i :: key == SegmentKey(generation, i)
  }

  lemma OwnKeyUnder(generation: string, key: string)
    requires OwnKey(generation, key)
    ensures key != LATEST && Under(generation, key)
  {
    KeyShapes(generation, 0);
    if key != SnapshotKey(generation) && key != ManifestKey(generation) {
      var i :| key == SegmentKey(generation, i);
      KeyShapes(generation, i);
    }
  }

  lemma RegisteredPut(cfg: BackupConfig, objects: Objects, issued: set<string>, generation: string, key: string,
                      data: Bytes)
    requires Registered(cfg, objects, issued) && NoSlash(generation) && generation in issued
    requires OwnKey(generation, key)
    ensures Registered(cfg, objects[key := data], issued)
  {
    OwnKeyUnder(generation, key);
    HeadOfPrefixed(generation, key);
    assert OwnKey(Head(key), key);
    var after := objects[key := data];
    forall k | k in after
      ensures WellKeyed(k) && (k == LATEST || Head(k) in issued)
    {
      assert k == key || k in objects;
    }
  }

  lemma RegisteredMarker(cfg: BackupConfig, objects: Objects, issued: set<string>, generation: string, data: Bytes)
    requires Registered(cfg, objects, issued) && NoSlash(generation) && generation in issued
    requires cfg.formats.fromUtf8(data) == Some(generation)
    ensures Registered(cfg, objects[LATEST := data], issued)
  {
    HeadIsPlain(generation);
  }
}
