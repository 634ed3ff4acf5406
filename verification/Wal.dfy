/**
 The write-ahead log as bytes: the frame-alignment computation and the discontinuity
 check of src/manager.rs, and the reading of complete frames out of a WAL image
 (SQLite "Database File Format", section 4.1).
 */
module Wal {
  import opened Wrappers
  import opened Arithmetic

  const WAL_HEADER_SIZE: nat := 32
  const WAL_FRAME_HEADER_SIZE: nat := 24
  const WAL_SALT_OFFSET: nat := 16
  const WAL_SALT_LEN: nat := 8

  /** A frame: the page it rewrites, the database size if it commits (0 otherwise), the page image. */
  datatype Frame = Frame(page: nat, commit: nat, image: Bytes)

  function Be32(b: Bytes, at: nat): (n: nat)
    requires at + 4 <= |b|
  {
    var b0: int, b1: int, b2: int, b3: int := b[at], b[at + 1], b[at + 2], b[at + 3];
    b0 * 0x100_0000 + b1 * 0x1_0000 + b2 * 0x100 + b3
  }

  /** The bytes of a 32-bit number, the most significant one first. */
  function Be32Bytes(n: nat): (b: Bytes)
    requires n < 0x1_0000_0000
    ensures |b| == 4
  {
    var m := n / 0x100;
    [m / 0x1_0000, m / 0x100 % 0x100, m % 0x100, n % 0x100]
  }

  /** Every 32-bit number is read back, wherever it is written; a page size of 65536 among them. */
  lemma Be32ReadsBack(before: Bytes, n: nat, behind: Bytes)
    requires n < 0x1_0000_0000
    ensures Be32(before + Be32Bytes(n) + behind, |before|) == n
  {
    var b, at := before + Be32Bytes(n) + behind, |before|;
    assert b[at] == Be32Bytes(n)[0] && b[at + 1] == Be32Bytes(n)[1];
    assert b[at + 2] == Be32Bytes(n)[2] && b[at + 3] == Be32Bytes(n)[3];
  }

  /** Length of the longest prefix of `wal` that holds only complete frames. */
  function AlignedLen(wal: Bytes): (n: nat)
    ensures n <= |wal|
  {
    if |wal| < WAL_HEADER_SIZE + WAL_FRAME_HEADER_SIZE then
      if |wal| < WAL_HEADER_SIZE then |wal| else WAL_HEADER_SIZE
    else
      var pageSize := Be32(wal, 8);
      if pageSize == 0 then
        WAL_HEADER_SIZE
      else
        var frameSize := WAL_FRAME_HEADER_SIZE + pageSize;
        WAL_HEADER_SIZE + RoundDown(|wal| - WAL_HEADER_SIZE, frameSize)
  }

  /** `n / unit * unit`: the whole units in `n`. */
  function RoundDown(n: nat, unit: nat): (m: nat)
    requires unit > 0
    ensures m <= n < m + unit
  {
    Division(n, unit);
    n / unit * unit
  }

  /** The WAL shows a shrink below the synced offset or a salt other than the captured one. */
  predicate CheckDiscontinuity(walOffset: nat, walHeaderSalt: Option<Bytes>, wal: Bytes)
  {
    || (walOffset > 0 && |wal| < walOffset)
    || (walHeaderSalt.Some? && |wal| >= WAL_SALT_OFFSET + WAL_SALT_LEN && SaltOf(wal) != walHeaderSalt.value)
  }

  function SaltOf(wal: Bytes): (salt: Bytes)
    requires |wal| >= WAL_SALT_OFFSET + WAL_SALT_LEN
  {
    wal[WAL_SALT_OFFSET..WAL_SALT_OFFSET + WAL_SALT_LEN]
  }

  /**
   A WAL passes the check against what was shipped if and only if it is no shorter and carries the
   same salt; in particular every continuation passes. A shorter one never does, salt or no salt.
   */
  lemma CheckIsExact(shipped: Bytes, wal: Bytes, captured: Option<Bytes>)
    ensures |wal| < |shipped| ==> CheckDiscontinuity(|shipped|, captured, wal)
    ensures captured.None? ==> (CheckDiscontinuity(|shipped|, captured, wal) <==> |wal| < |shipped|)
    ensures WAL_HEADER_SIZE <= |shipped| ==>
              (!CheckDiscontinuity(|shipped|, Some(SaltOf(shipped)), wal) <==>
                 |shipped| <= |wal| && wal[16..24] == shipped[16..24])
    ensures WAL_HEADER_SIZE <= |shipped| && shipped <= wal ==>
              !CheckDiscontinuity(|shipped|, Some(SaltOf(shipped)), wal)
  {
    if WAL_HEADER_SIZE <= |shipped| && shipped <= wal {
      assert wal[16..24] == wal[..|shipped|][16..24] == shipped[16..24];
    }
  }

  // ---------- what the aligned length means ----------

  /** Size of one frame; 0 when the header is too short or carries no page size. */
  function FrameSize(wal: Bytes): (n: nat)
  {
    if |wal| < 12 || Be32(wal, 8) == 0 then 0 else WAL_FRAME_HEADER_SIZE + Be32(wal, 8)
  }

  /** `n` bytes are the header and a whole number `k` of frames of `wal`. */
  predicate HoldsFrames(wal: Bytes, k: nat, n: nat)
  {
    FrameSize(wal) > 0 && n == WAL_HEADER_SIZE + k * FrameSize(wal) && n <= |wal|
  }

  /** Number of complete frames in `wal`. */
  function FrameCount(wal: Bytes): (k: nat)
  {
    if |wal| < WAL_HEADER_SIZE + WAL_FRAME_HEADER_SIZE || FrameSize(wal) == 0 then
      0
    else
      Division(|wal| - WAL_HEADER_SIZE, FrameSize(wal));
      (|wal| - WAL_HEADER_SIZE) / FrameSize(wal)
  }

  /** The aligned length is the header and all complete frames; without any, the header or what there is of it. */
  lemma AlignedLenHoldsFrames(wal: Bytes)
    ensures var k := FrameCount(wal);
            k > 0 ==> HoldsFrames(wal, k, AlignedLen(wal)) && AlignedLen(wal) > WAL_HEADER_SIZE
    ensures FrameCount(wal) == 0 ==> AlignedLen(wal) == if |wal| < WAL_HEADER_SIZE then |wal| else WAL_HEADER_SIZE
    ensures AlignedLen(wal) <= |wal|
  {
    var k := FrameCount(wal);
    if k > 0 {
      Division(|wal| - WAL_HEADER_SIZE, FrameSize(wal));
      TimesMonotone(1, k, FrameSize(wal));
    }
  }

  /** The aligned length is the greatest frame boundary inside the WAL. */
  lemma AlignedLenIsGreatest(wal: Bytes, k: nat, n: nat)
    requires HoldsFrames(wal, k, n)
    ensures k <= FrameCount(wal) && n <= AlignedLen(wal)
  {
    var size := FrameSize(wal);
    AlignedLenHoldsFrames(wal);
    if k > 0 {
      TimesMonotone(1, k, size);
      Division(|wal| - WAL_HEADER_SIZE, size);
      TimesReflects(k, FrameCount(wal), size);
      TimesMonotone(k, FrameCount(wal), size);
    }
  }

  /** Appending bytes never moves the frame boundary or the frame count backwards. */
  lemma AlignedLenMonotone(wal: Bytes, longer: Bytes)
    requires wal <= longer
    ensures FrameCount(wal) <= FrameCount(longer)
    ensures AlignedLen(wal) <= AlignedLen(longer)
  {
    var k := FrameCount(wal);
    AlignedLenHoldsFrames(wal);
    if k > 0 {
      assert FrameSize(longer) == FrameSize(wal);
      AlignedLenIsGreatest(longer, k, AlignedLen(wal));
    }
  }

  /** Cutting a WAL at any frame boundary leaves a WAL that is itself exactly aligned there. */
  lemma AlignedPrefix(wal: Bytes, k: nat)
    requires 0 < k <= FrameCount(wal)
    ensures var n := WAL_HEADER_SIZE + k * FrameSize(wal);
            n <= AlignedLen(wal) <= |wal| && n > WAL_HEADER_SIZE
            && AlignedLen(wal[..n]) == n && FrameCount(wal[..n]) == k && FrameSize(wal[..n]) == FrameSize(wal)
  {
    var size := FrameSize(wal);
    AlignedLenHoldsFrames(wal);
    TimesMonotone(k, FrameCount(wal), size);
    TimesMonotone(1, k, size);
    var n := WAL_HEADER_SIZE + k * size;
    var cut := wal[..n];
    assert FrameSize(cut) == size;
    assert HoldsFrames(cut, k, n);
    AlignedLenIsGreatest(cut, k, n);
    AlignedLenHoldsFrames(cut);
    TimesReflects(FrameCount(cut), k, size);
  }

  // ---------- frames ----------

  function FrameAt(wal: Bytes, i: nat): (f: Frame)
    requires i < FrameCount(wal)
  {
    FrameFits(wal, i);
    FrameFrom(wal, WAL_HEADER_SIZE + i * FrameSize(wal), FrameSize(wal))
  }

  function FrameFrom(wal: Bytes, at: nat, size: nat): (f: Frame)
    requires WAL_FRAME_HEADER_SIZE <= size && at + size <= |wal|
  {
    Frame(Be32(wal, at), Be32(wal, at + 4), wal[at + WAL_FRAME_HEADER_SIZE..at + size])
  }

  lemma FrameFits(wal: Bytes, i: nat)
    requires i < FrameCount(wal)
    ensures WAL_HEADER_SIZE + i * FrameSize(wal) + FrameSize(wal) <= AlignedLen(wal) <= |wal|
    ensures FrameSize(wal) > WAL_FRAME_HEADER_SIZE
  {
    AlignedLenHoldsFrames(wal);
    TimesMonotone(i + 1, FrameCount(wal), FrameSize(wal));
    assert (i + 1) * FrameSize(wal) == i * FrameSize(wal) + FrameSize(wal);
  }

  /** The complete frames of a WAL image, in order. */
  function Frames(wal: Bytes): (fs: seq<Frame>)
    ensures |fs| == FrameCount(wal)
  {
    seq(FrameCount(wal), i requires 0 <= i < FrameCount(wal) => FrameAt(wal, i))
  }

  lemma FrameFromPrefix(wal: Bytes, longer: Bytes, at: nat, size: nat)
    requires wal <= longer && WAL_FRAME_HEADER_SIZE <= size && at + size <= |wal|
    ensures FrameFrom(wal, at, size) == FrameFrom(longer, at, size)
  {
    assert wal == longer[..|wal|];
  }

  lemma FrameStable(wal: Bytes, longer: Bytes, i: nat)
    requires wal <= longer && i < FrameCount(wal) <= FrameCount(longer)
    ensures FrameAt(wal, i) == FrameAt(longer, i)
  {
    FrameFits(wal, i);
    assert FrameSize(longer) == FrameSize(wal);
    FrameFromPrefix(wal, longer, WAL_HEADER_SIZE + i * FrameSize(wal), FrameSize(wal));
  }

  /** Appending bytes, whole frames or torn ones, only ever adds frames at the end. */
  lemma FramesPrefix(wal: Bytes, longer: Bytes)
    requires wal <= longer
    ensures Frames(wal) <= Frames(longer)
  {
    AlignedLenMonotone(wal, longer);
    forall i | 0 <= i < FrameCount(wal)
      ensures FrameAt(wal, i) == FrameAt(longer, i)
    {
      FrameStable(wal, longer, i);
    }
  }

  /** Dropping the torn tail loses no complete frame, and the result is already aligned. */
  lemma FramesOfAligned(wal: Bytes)
    ensures AlignedLen(wal) <= |wal|
    ensures var cut := wal[..AlignedLen(wal)];
            AlignedLen(cut) == |cut| && Frames(cut) == Frames(wal)
  {
    var k := FrameCount(wal);
    AlignedLenHoldsFrames(wal);
    var cut := wal[..AlignedLen(wal)];
    if k > 0 {
      AlignedPrefix(wal, k);
      FramesPrefix(cut, wal);
    }
  }
}
