/** Small databases of whole pages, for showing what can go wrong. */
module Samples {
  import opened Wrappers
  import opened Wal
  import opened Replay
  import opened Images

  /** A database file has the pages from 1 to its size, and no others. */
  ghost predicate Full(db: Db)
  {
    forall page: nat :: page in db.pages <==> 1 <= page <= db.size
  }

  /** A database of one page. */
  function One(a: byte): (db: Db)
  {
    Db(1, map[1 := Page(a)])
  }

  /** A database of two pages. */
  function Two(a: byte, b: byte): (db: Db)
  {
    Db(2, map[1 := Page(a), 2 := Page(b)])
  }

  lemma PagesDiffer(a: byte, b: byte)
    ensures Page(a) == Page(b) ==> a == b
  {
    assert Page(a)[0] == a && Page(b)[0] == b;
  }

  lemma Ones(a: byte, b: byte)
    ensures Full(One(a)) && Observe(One(a)) == One(a)
    ensures One(a) == One(b) ==> a == b
  {
    hide Page;
    PagesDiffer(a, b);
    assert One(a).pages[1] == Page(a) && One(b).pages[1] == Page(b);
  }

  lemma Twos(a: byte, b: byte, c: byte, d: byte)
    ensures Full(Two(a, b)) && Observe(Two(a, b)) == Two(a, b)
    ensures Two(a, b) == Two(c, d) ==> a == c && b == d
  {
    hide Page;
    PagesDiffer(a, c);
    PagesDiffer(b, d);
    assert Two(a, b).pages[1] == Page(a) && Two(c, d).pages[1] == Page(c);
    assert Two(a, b).pages[2] == Page(b) && Two(c, d).pages[2] == Page(d);
  }

  /** Writing one page of the two, or the only one. */
  lemma Written(a: byte, b: byte, c: byte)
    ensures Two(a, b).pages[1 := Page(c)] == Two(c, b).pages && Two(a, b).pages[2 := Page(c)] == Two(a, c).pages
    ensures One(a).pages[1 := Page(c)] == One(c).pages && One(a).pages[2 := Page(c)] == Two(a, c).pages
    ensures Observe(Db(1, Two(a, b).pages)) == One(a)
  {
    hide Page;
  }

  lemma OneFrame(db: Db, f: Frame)
    requires f.commit > 0
    ensures Play(db, [f]) == Db(f.commit, db.pages[f.page := f.image])
    ensures Play(db, []) == db && [f][..1] == [f] && [f][..0] == []
  {
    var frames := [f];
    assert frames[..1] == frames && frames[..0] == [];
    assert Committed(frames) == 1;
    assert Overlay(db.pages, frames) == db.pages[f.page := f.image];
  }

  /** Frames that all write the same page leave it as they write it. */
  lemma {:induction false} OnePageWritten(pages: map<nat, Bytes>, frames: seq<Frame>, f: Frame)
    requires frames != [] && forall g :: g in frames ==> g == f
    ensures Overlay(pages, frames) == pages[f.page := f.image]
  {
    var init := frames[..|frames| - 1];
    assert frames[|frames| - 1] in frames;
    if init != [] {
      assert forall g :: g in init ==> g in frames;
      OnePageWritten(pages, init, f);
    }
  }

  /** A database that never grows needs no page written. */
  lemma NeverGrows(db: Db, frames: seq<Frame>)
    requires forall c, d :: 0 <= c < d <= |frames| && Commits(frames, c) && Commits(frames, d) ==>
               SizeAt(db, frames, d) <= SizeAt(db, frames, c)
    ensures GrowthWritten(db, frames)
  {
  }

  /** One frame that adds the next page. */
  lemma GrowsByOne(db: Db, f: Frame)
    requires f.commit <= db.size || (f.commit == db.size + 1 && f.page == f.commit)
    ensures GrowthWritten(db, [f]) && GrowthWritten(db, [])
  {
    forall c, d, page | 0 <= c < d <= 1 && ComesIntoView(db, [f], c, d, page)
      ensures Writes([f][c..d], page)
    {
      assert [f][c..d][0].page == page;
    }
  }
}
