/**
 A WAL that a reset restarts in place: behind the new frames the old ones are still there. SQLite
 tells them apart by the salt in each frame; the code looks at length and header only.
 */
module StaleTail {
  import opened Wrappers
  import opened Arithmetic
  import opened Wal
  import opened Replay
  import opened Images
  import opened Samples

  const FRAME_SALT_OFFSET: nat := 8

  function FrameSalt(wal: Bytes, i: nat): (salt: Bytes)
    requires i < FrameCount(wal)
  {
    FrameFits(wal, i);
    SaltFrom(wal, WAL_HEADER_SIZE + i * FrameSize(wal))
  }

  function SaltFrom(wal: Bytes, at: nat): (salt: Bytes)
    requires at + WAL_FRAME_HEADER_SIZE <= |wal|
  {
    wal[at + FRAME_SALT_OFFSET..at + FRAME_SALT_OFFSET + WAL_SALT_LEN]
  }

  /** How many of the first `n` frames, from the first on, carry the salt of the header. */
  function CurrentUpTo(wal: Bytes, n: nat): (k: nat)
    requires n <= FrameCount(wal) && |wal| >= WAL_HEADER_SIZE
    ensures k <= n
  {
    if n == 0 then 0
    else if CurrentUpTo(wal, n - 1) == n - 1 && FrameSalt(wal, n - 1) == SaltOf(wal) then n
    else CurrentUpTo(wal, n - 1)
  }

  /** The frames that SQLite takes into account: up to the first that is left over from an earlier epoch. */
  function CurrentFrames(wal: Bytes): (frames: seq<Frame>)
    requires |wal| >= WAL_HEADER_SIZE
  {
    Frames(wal)[..CurrentUpTo(wal, FrameCount(wal))]
  }

  lemma SaltOfPrefix(wal: Bytes, longer: Bytes, i: nat)
    requires wal <= longer && i < FrameCount(wal) <= FrameCount(longer)
    ensures FrameSalt(wal, i) == FrameSalt(longer, i)
  {
    FrameFits(wal, i);
    assert FrameSize(longer) == FrameSize(wal);
    SliceOfPrefix(wal, longer, WAL_HEADER_SIZE + i * FrameSize(wal) + FRAME_SALT_OFFSET, WAL_SALT_LEN);
  }

  lemma SliceOfPrefix(wal: Bytes, longer: Bytes, at: nat, n: nat)
    requires wal <= longer && at + n <= |wal|
    ensures wal[at..at + n] == longer[at..at + n]
  {
    assert wal == longer[..|wal|];
  }

  lemma {:induction false} CurrentOfPrefix(wal: Bytes, longer: Bytes, n: nat)
    requires wal <= longer && n <= FrameCount(wal) <= FrameCount(longer) && |wal| >= WAL_HEADER_SIZE
    ensures CurrentUpTo(wal, n) == CurrentUpTo(longer, n)
  {
    hide FrameSalt, FrameCount;
    SliceOfPrefix(wal, longer, WAL_SALT_OFFSET, WAL_SALT_LEN);
    if n > 0 {
      CurrentOfPrefix(wal, longer, n - 1);
      SaltOfPrefix(wal, longer, n - 1);
    }
  }

  /** The first sync after such a reset ships the old frames, too; that does no harm. */
  lemma FirstSyncHarmless(wal: Bytes)
    requires |wal| > WAL_HEADER_SIZE
    ensures WAL_HEADER_SIZE <= AlignedLen(wal) <= |wal|
    ensures CurrentFrames(wal[..AlignedLen(wal)]) == CurrentFrames(wal)
  {
    hide CurrentUpTo;
    FramesOfAligned(wal);
    AlignedIsPastHeader(wal);
    var cut := wal[..AlignedLen(wal)];
    assert |Frames(cut)| == FrameCount(cut) && |Frames(wal)| == FrameCount(wal);
    CurrentOfPrefix(cut, wal, FrameCount(cut));
  }

  lemma AlignedIsPastHeader(wal: Bytes)
    requires |wal| >= WAL_HEADER_SIZE
    ensures AlignedLen(wal) >= WAL_HEADER_SIZE
  {
  }

  /**
   A later sync sees no discontinuity as long as the file is no shorter and its header is the same,
   and ships what lies past the offset. All that was shipped then agrees with the WAL, if and only
   if the bytes shipped before are still its beginning; and if so, its current frames do.
   */
  lemma LaterSyncAgrees(shipped: Bytes, wal: Bytes)
    requires |shipped| > WAL_HEADER_SIZE && |shipped| <= AlignedLen(wal) && SaltOf(shipped) == SaltOf(wal)
    ensures AlignedLen(wal) <= |wal| && !CheckDiscontinuity(|shipped|, Some(SaltOf(shipped)), wal)
    ensures var all := shipped + wal[|shipped|..AlignedLen(wal)];
            && (all == wal[..AlignedLen(wal)] <==> shipped <= wal)
            && (shipped <= wal ==> CurrentFrames(all) == CurrentFrames(wal))
  {
    hide CurrentFrames;
    var n := AlignedLen(wal);
    var all := shipped + wal[|shipped|..n];
    if shipped <= wal {
      assert wal[..n] == wal[..|shipped|] + wal[|shipped|..n];
      FirstSyncHarmless(wal);
    }
    if all == wal[..n] {
      assert shipped == all[..|shipped|] == wal[..|shipped|];
    }
  }

  // ---------- an example ----------

  const OLD_SALT: Bytes := [0, 0, 0, 0, 0, 0, 0, 3]
  const NEW_SALT: Bytes := [0, 0, 0, 0, 0, 0, 0, 4]

  /** One new frame, and an old one behind it. */
  function Restarted(): (wal: Bytes)
  {
    WalImage(NEW_SALT, [Frame(1, 1, Page(1))]) + FrameImage(OLD_SALT, Frame(1, 1, Page(5)))
  }

  /** The old one is overwritten. */
  function Overwritten(): (wal: Bytes)
  {
    WalImage(NEW_SALT, [Frame(1, 1, Page(1))]) + FrameImage(NEW_SALT, Frame(1, 1, Page(2)))
  }

  lemma SaltOfSecond(salt: Bytes, f: Frame)
    requires |salt| == WAL_SALT_LEN && Small(f)
    ensures var wal := WalImage(NEW_SALT, [Frame(1, 1, Page(1))]) + FrameImage(salt, f);
            && |wal| == WAL_HEADER_SIZE + 2 * FRAME_SIZE && FrameSize(wal) == FRAME_SIZE && SaltOf(wal) == NEW_SALT
            && FrameCount(wal) == 2 && AlignedLen(wal) == |wal| && Frames(wal) == [Frame(1, 1, Page(1)), f]
            && FrameSalt(wal, 0) == NEW_SALT && FrameSalt(wal, 1) == salt
  {
    hide Page, Frames;
    var one := [Frame(1, 1, Page(1))];
    var first := WalImage(NEW_SALT, one);
    var wal := first + FrameImage(salt, f);
    FramesOfImage(NEW_SALT, one);
    HeaderOf(NEW_SALT, wal);
    QuotientIs(2 * FRAME_SIZE, FRAME_SIZE, 2, 0);
    CountOfImage(wal, 2);
    FramesPrefix(first, wal);
    FrameOfImage(salt, f, wal, WAL_HEADER_SIZE + FRAME_SIZE);
    LastFrame(wal, 1);
    assert Frames(wal)[0] == Frames(first)[0];
    SaltsInImage(salt, f);
  }

  lemma SaltsInImage(salt: Bytes, f: Frame)
    requires |salt| == WAL_SALT_LEN && Small(f)
    ensures var wal := WalImage(NEW_SALT, [Frame(1, 1, Page(1))]) + FrameImage(salt, f);
            var at := WAL_HEADER_SIZE + FRAME_SALT_OFFSET;
            && wal[at..at + WAL_SALT_LEN] == NEW_SALT
            && wal[at + FRAME_SIZE..at + FRAME_SIZE + WAL_SALT_LEN] == salt
  {
    hide Page, Header;
    var one := [Frame(1, 1, Page(1))];
    assert one[..0] == [];
    var header, a, b := Header(NEW_SALT), FrameImage(NEW_SALT, one[0]), FrameImage(salt, f);
    assert WalImage(NEW_SALT, one) == header + a;
    assert a[FRAME_SALT_OFFSET..FRAME_SALT_OFFSET + WAL_SALT_LEN] == NEW_SALT;
    assert b[FRAME_SALT_OFFSET..FRAME_SALT_OFFSET + WAL_SALT_LEN] == salt;
  }

  /**
   The first sync ships the restarted WAL as a whole. When the old frame is overwritten, the next
   one sees no discontinuity and nothing to ship, while the application sees the new frame.
   */
  lemma OverwrittenUnseen()
    ensures var shipped, wal := Restarted(), Overwritten();
            && AlignedLen(shipped) == |shipped| > WAL_HEADER_SIZE && |wal| > WAL_HEADER_SIZE
            && SaltOf(shipped) == SaltOf(wal) && !CheckDiscontinuity(|shipped|, Some(SaltOf(shipped)), wal)
            && AlignedLen(wal) == |shipped|
            && Observe(Play(One(0), CurrentFrames(shipped))) == One(1)
            && Observe(Play(One(0), CurrentFrames(wal))) == One(2)
            && One(1) != One(2)
  {
    hide WalImage, FrameImage, Page, Play, FrameSalt, Frames;
    var a, b := Frame(1, 1, Page(1)), Frame(1, 1, Page(2));
    SaltOfSecond(OLD_SALT, Frame(1, 1, Page(5)));
    SaltOfSecond(NEW_SALT, b);
    assert OLD_SALT[7] != NEW_SALT[7];
    CountCurrent(Restarted());
    CountCurrent(Overwritten());
    assert [a, Frame(1, 1, Page(5))][..1] == [a] && [a, b][..2] == [a, b];
    OneFrame(One(0), a);
    TwoFrames();
    Written(0, 0, 1);
    Ones(1, 2);
    Ones(2, 2);
  }

  lemma CountCurrent(wal: Bytes)
    requires |wal| >= WAL_HEADER_SIZE && FrameCount(wal) == 2 && FrameSalt(wal, 0) == SaltOf(wal)
    ensures CurrentUpTo(wal, 2) == if FrameSalt(wal, 1) == SaltOf(wal) then 2 else 1
  {
    assert CurrentUpTo(wal, 0) == 0;
    assert CurrentUpTo(wal, 1) == 1;
  }

  lemma TwoFrames()
    ensures Play(One(0), [Frame(1, 1, Page(1)), Frame(1, 1, Page(2))]) == One(2)
  {
    hide Page;
    var frames := [Frame(1, 1, Page(1)), Frame(1, 1, Page(2))];
    assert frames[..2] == frames && frames[..1] == [frames[0]];
    OnePageWritten(One(0).pages, [frames[0]], frames[0]);
    assert Overlay(One(0).pages, frames) == One(0).pages[1 := Page(1)][1 := Page(2)];
    Written(0, 0, 2);
  }
}
