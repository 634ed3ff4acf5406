/**
 What SQLite shows to a reader: a database file overlaid with the frames of its WAL up to the
 last commit (SQLite "Database File Format", sections 4.3 to 4.5).
 */
module Replay {
  import opened Wrappers
  import opened Wal

  /** A database image: its size in pages, and page images by page number. */
  datatype Db = Db(size: nat, pages: map<nat, Bytes>)

  /** What a reader can see: pages past the recorded size are not part of the database. */
  function Observe(db: Db): (seen: Db)
  {
    Db(db.size, map p | p in db.pages && p <= db.size :: if p in db.pages && p <= db.size then db.pages[p] else [])
  }

  /** Number of frames up to and including the last commit frame. */
  function Committed(frames: seq<Frame>): (k: nat)
    ensures k <= |frames|
    ensures k > 0 ==> frames[k - 1].commit > 0
    ensures forall i :: k <= i < |frames| ==> frames[i].commit == 0
  {
    if frames == [] then 0
    else if frames[|frames| - 1].commit > 0 then |frames|
    else Committed(frames[..|frames| - 1])
  }

  function Overlay(pages: map<nat, Bytes>, frames: seq<Frame>): (r: map<nat, Bytes>)
  {
    if frames == [] then pages
    else
      var last := frames[|frames| - 1];
      Overlay(pages, frames[..|frames| - 1])[last.page := last.image]
  }

  /** The database after replaying the committed part of `frames` over `db`. */
  function Play(db: Db, frames: seq<Frame>): (r: Db)
  {
    var k := Committed(frames);
    if k == 0 then db else Db(frames[k - 1].commit, Overlay(db.pages, frames[..k]))
  }

  lemma NothingPlayed(db: Db)
    ensures Play(db, []) == db
  {
  }

  // ---------- absorption ----------

  predicate Writes(frames: seq<Frame>, page: nat)
  {
    exists i :: 0 <= i < |frames| && frames[i].page == page
  }

  lemma {:induction false} OverlayKeepsUnwritten(pages: map<nat, Bytes>, frames: seq<Frame>, page: nat)
    requires !Writes(frames, page)
    ensures (page in Overlay(pages, frames)) == (page in pages)
    ensures page in pages ==> Overlay(pages, frames)[page] == pages[page]
  {
    if frames != [] {
      var init := frames[..|frames| - 1];
      assert forall i :: 0 <= i < |init| ==> init[i] == frames[i];
      OverlayKeepsUnwritten(pages, init, page);
    }
  }

  lemma {:induction false} OverlayFixesWritten(p: map<nat, Bytes>, q: map<nat, Bytes>, frames: seq<Frame>, page: nat)
    requires Writes(frames, page)
    ensures page in Overlay(p, frames) && page in Overlay(q, frames)
    ensures Overlay(p, frames)[page] == Overlay(q, frames)[page]
  {
    var init := frames[..|frames| - 1];
    if frames[|frames| - 1].page != page {
      var i :| 0 <= i < |frames| && frames[i].page == page;
      assert init[i].page == page;
      OverlayFixesWritten(p, q, init, page);
    }
  }

  /** Overlaying frames on top of a prefix of themselves is overlaying them once. */
  lemma OverlayAbsorbs(pages: map<nat, Bytes>, frames: seq<Frame>, k: nat)
    requires k <= |frames|
    ensures Overlay(Overlay(pages, frames[..k]), frames) == Overlay(pages, frames)
  {
    var once := Overlay(pages, frames);
    var inner := Overlay(pages, frames[..k]);
    var twice := Overlay(inner, frames);
    forall page
      ensures (page in once) == (page in twice)
      ensures page in once ==> once[page] == twice[page]
    {
      if Writes(frames, page) {
        OverlayFixesWritten(pages, inner, frames, page);
      } else {
        OverlayKeepsUnwritten(pages, frames, page);
        OverlayKeepsUnwritten(inner, frames, page);
        assert forall i :: 0 <= i < k ==> frames[..k][i] == frames[i];
        OverlayKeepsUnwritten(pages, frames[..k], page);
      }
    }
    assert once == twice;
  }

  lemma CommittedMonotone(frames: seq<Frame>, k: nat)
    requires k <= |frames|
    ensures Committed(frames[..k]) <= Committed(frames)
    ensures Committed(frames) <= k ==> Committed(frames[..k]) == Committed(frames)
  {
    hide Committed;
    var c := Committed(frames[..k]);
    if c > 0 {
      assert frames[c - 1].commit > 0;
    }
    var d := Committed(frames);
    if 0 < d <= k {
      assert frames[..k][d - 1].commit > 0;
    }
  }

  /**
   A database file into which an initial part of the WAL has already been backfilled, followed by
   the whole WAL from its start, is the same database as the original file followed by the WAL.
   */
  lemma ReplayAbsorbsBackfill(db: Db, frames: seq<Frame>, k: nat)
    requires k <= |frames|
    ensures Play(Play(db, frames[..k]), frames) == Play(db, frames)
  {
    CommittedMonotone(frames, k);
    var c := Committed(frames[..k]);
    var d := Committed(frames);
    if c > 0 {
      assert frames[..k][..c] == frames[..d][..c];
      OverlayAbsorbs(db.pages, frames[..d], c);
    }
  }

  // ---------- files that only look like it ----------

  /** A reader may stop here: nothing is replayed yet, or a transaction has just been committed. */
  predicate Commits(frames: seq<Frame>, c: nat)
  {
    c <= |frames| && (c == 0 || frames[c - 1].commit > 0)
  }

  function SizeAt(db: Db, frames: seq<Frame>, c: nat): (size: nat)
    requires c <= |frames|
  {
    if c == 0 then db.size else frames[c - 1].commit
  }

  /** The page is past the database's size at one commit, and within it at another. */
  predicate ComesIntoView(db: Db, frames: seq<Frame>, c: nat, d: nat, page: nat)
    requires c <= |frames| && d <= |frames|
  {
    Commits(frames, c) && Commits(frames, d) && SizeAt(db, frames, c) < page <= SizeAt(db, frames, d)
  }

  /** Whenever the database grows, the pages that come into view have been written since they were not. */
  predicate GrowthWritten(db: Db, frames: seq<Frame>)
  {
    forall c, d :: 0 <= c < d <= |frames| ==>
      forall page :: 0 <= page <= SizeAt(db, frames, d) && ComesIntoView(db, frames, c, d, page) ==>
        Writes(frames[c..d], page)
  }

  lemma GrowthPrefix(db: Db, frames: seq<Frame>, n: nat)
    requires GrowthWritten(db, frames) && n <= |frames|
    ensures GrowthWritten(db, frames[..n])
  {
    var first := frames[..n];
    forall c, d, page | 0 <= c < d <= n && ComesIntoView(db, first, c, d, page)
      ensures Writes(first[c..d], page)
    {
      assert ComesIntoView(db, frames, c, d, page);
      assert first[c..d] == frames[c..d];
    }
  }

  lemma WritesEarlier(frames: seq<Frame>, c: nat, d: nat, page: nat)
    requires c <= d <= |frames| && Writes(frames[c..d], page)
    ensures Writes(frames[..d], page)
  {
    var i :| 0 <= i < d - c && frames[c..d][i].page == page;
    assert frames[..d][c + i].page == page;
  }

  lemma WritesMore(frames: seq<Frame>, c: nat, d: nat, page: nat)
    requires c <= d <= |frames| && Writes(frames[..c], page)
    ensures Writes(frames[..d], page)
  {
    var i :| 0 <= i < c && frames[..c][i].page == page;
    assert frames[..d][i].page == page;
  }

  /**
   The same for a file that merely looks, to a reader, as if an initial part of the WAL had been
   backfilled, whatever it holds past its size; a checkpoint may have cut it off there.
   */
  lemma LookalikeReplays(db: Db, file: Db, frames: seq<Frame>, k: nat)
    requires k <= |frames| && GrowthWritten(db, frames) && Observe(file) == Observe(Play(db, frames[..k]))
    ensures Observe(Play(file, frames)) == Observe(Play(db, frames))
  {
    hide Committed, GrowthWritten;
    assert Overlay(db.pages, []) == db.pages;
    CommittedMonotone(frames, k);
    var c, d := Committed(frames[..k]), Committed(frames);
    assert frames[..k][..c] == frames[..c];
    if d > 0 {
      var x, y := Play(file, frames), Play(db, frames);
      forall page: nat | page <= frames[d - 1].commit
        ensures (page in x.pages) == (page in y.pages) && (page in x.pages ==> x.pages[page] == y.pages[page])
      {
        LookalikePage(db, file, frames, c, d, page);
      }
    } else {
      assert c == 0;
    }
  }

  lemma LookalikePage(db: Db, file: Db, frames: seq<Frame>, c: nat, d: nat, page: nat)
    requires c <= d <= |frames| && 0 < d && Commits(frames, c) && Commits(frames, d) && page <= SizeAt(db, frames, d)
    requires GrowthWritten(db, frames)
    requires Observe(file) == Observe(Db(SizeAt(db, frames, c), Overlay(db.pages, frames[..c])))
    ensures var x, y := Overlay(file.pages, frames[..d]), Overlay(db.pages, frames[..d]);
            (page in x) == (page in y) && (page in x ==> x[page] == y[page])
  {
    if Writes(frames[..d], page) {
      OverlayFixesWritten(file.pages, db.pages, frames[..d], page);
    } else {
      OverlayKeepsUnwritten(file.pages, frames[..d], page);
      OverlayKeepsUnwritten(db.pages, frames[..d], page);
      if Writes(frames[..c], page) {
        WritesMore(frames, c, d, page);
      }
      OverlayKeepsUnwritten(db.pages, frames[..c], page);
      if page > SizeAt(db, frames, c) {
        assert ComesIntoView(db, frames, c, d, page);
        WritesEarlier(frames, c, d, page);
      }
      var seen := Observe(file);
      assert (page in file.pages) == (page in seen.pages);
    }
  }

  // ---------- files read in the middle of a checkpoint ----------

  /** The page is as one of the first `k` frames, or none of them, has left it. */
  predicate FromSomePrefix(db: Db, frames: seq<Frame>, file: Db, k: nat, page: nat)
    requires k <= |frames|
  {
    exists j: nat :: j <= k && SamePage(Overlay(db.pages, frames[..j]), file.pages, page)
  }

  predicate SamePage(a: map<nat, Bytes>, b: map<nat, Bytes>, page: nat)
  {
    (page in a) == (page in b) && (page in a ==> a[page] == b[page])
  }

  /**
   A checkpoint writes page by page. A file that is read, or left, in between may hold each page as
   of another prefix of the WAL, and any size; no reader could make sense of it alone. With the WAL
   from its start, and that at least as far as the checkpoint had come, it is as good as any.
   */
  lemma TornFileHeals(db: Db, frames: seq<Frame>, file: Db, k: nat)
    requires 0 < k <= Committed(frames)
    requires forall page: nat :: page <= frames[Committed(frames) - 1].commit ==>
               FromSomePrefix(db, frames, file, k, page)
    ensures Observe(Play(file, frames)) == Observe(Play(db, frames))
  {
    var d := Committed(frames);
    var x, y := Play(file, frames), Play(db, frames);
    forall page: nat | page <= frames[d - 1].commit
      ensures (page in x.pages) == (page in y.pages) && (page in x.pages ==> x.pages[page] == y.pages[page])
    {
      if Writes(frames[..d], page) {
        OverlayFixesWritten(file.pages, db.pages, frames[..d], page);
      } else {
        assert FromSomePrefix(db, frames, file, k, page);
        var j: nat :| j <= k && SamePage(Overlay(db.pages, frames[..j]), file.pages, page);
        if Writes(frames[..j], page) {
          WritesMore(frames, j, d, page);
        }
        OverlayKeepsUnwritten(db.pages, frames[..j], page);
        OverlayKeepsUnwritten(file.pages, frames[..d], page);
        OverlayKeepsUnwritten(db.pages, frames[..d], page);
      }
    }
  }
}
