/** Byte images of real WAL files: header, frame headers and pages (SQLite "Database File Format", section 4.1). */
module Images {
  import opened Wrappers
  import opened Arithmetic
  import opened Wal

  const PAGE_SIZE: nat := 1024
  const FRAME_SIZE: nat := 1048

  /** A page filled with one byte. */
  function Page(b: byte): (image: Bytes)
    ensures |image| == PAGE_SIZE
  {
    seq(PAGE_SIZE, _ => b)
  }

  /** Magic, format version 3007000, page size, checkpoint number, salt, checksum. */
  function Header(salt: Bytes): (header: Bytes)
    requires |salt| == WAL_SALT_LEN
    ensures |header| == WAL_HEADER_SIZE
  {
    [0x37, 0x7f, 0x06, 0x82, 0x00, 0x2d, 0xe2, 0x18, 0x00, 0x00, 0x04, 0x00, 0x00, 0x00, 0x00, 0x00]
    + salt + [0, 0, 0, 0, 0, 0, 0, 0]
  }

  /** Frames whose numbers fit in one byte and whose page is a whole one. */
  predicate Small(f: Frame)
  {
    f.page < 256 && f.commit < 256 && |f.image| == PAGE_SIZE
  }

  /** Page number, commit size, salt and checksum, and the page. */
  function FrameImage(salt: Bytes, f: Frame): (b: Bytes)
    requires |salt| == WAL_SALT_LEN && Small(f)
    ensures |b| == FRAME_SIZE
  {
    [0, 0, 0, f.page, 0, 0, 0, f.commit] + salt + [0, 0, 0, 0, 0, 0, 0, 0] + f.image
  }

  function WalImage(salt: Bytes, frames: seq<Frame>): (wal: Bytes)
    requires |salt| == WAL_SALT_LEN && forall f :: f in frames ==> Small(f)
    ensures |wal| == WAL_HEADER_SIZE + |frames| * FRAME_SIZE
    ensures Header(salt) <= wal
  {
    if frames == [] then Header(salt)
    else
      var init := WalImage(salt, frames[..|frames| - 1]);
      OneMore(|frames| - 1, FRAME_SIZE);
      init + FrameImage(salt, frames[|frames| - 1])
  }

  lemma FrameOfImage(salt: Bytes, f: Frame, wal: Bytes, at: nat)
    requires |salt| == WAL_SALT_LEN && Small(f)
    requires at + FRAME_SIZE <= |wal| && wal[at..at + FRAME_SIZE] == FrameImage(salt, f)
    ensures FrameFrom(wal, at, FRAME_SIZE) == f
  {
    var image := wal[at..at + FRAME_SIZE];
    assert wal[at] == image[0] && wal[at + 1] == image[1] && wal[at + 2] == image[2] && wal[at + 3] == image[3];
    assert wal[at + 4] == image[4] && wal[at + 5] == image[5] && wal[at + 6] == image[6] && wal[at + 7] == image[7];
    assert wal[at + WAL_FRAME_HEADER_SIZE..at + FRAME_SIZE] == image[WAL_FRAME_HEADER_SIZE..];
  }

  lemma HeaderOf(salt: Bytes, wal: Bytes)
    requires |salt| == WAL_SALT_LEN && Header(salt) <= wal
    ensures FrameSize(wal) == FRAME_SIZE && SaltOf(wal) == salt
  {
    var h := Header(salt);
    assert wal[8] == h[8] && wal[9] == h[9] && wal[10] == h[10] && wal[11] == h[11];
    assert SaltOf(wal) == h[WAL_SALT_OFFSET..WAL_SALT_OFFSET + WAL_SALT_LEN];
  }

  /** Such a file holds exactly these frames, is aligned, and carries the salt. */
  lemma {:induction false} FramesOfImage(salt: Bytes, frames: seq<Frame>)
    requires |salt| == WAL_SALT_LEN && forall f :: f in frames ==> Small(f)
    ensures var wal := WalImage(salt, frames);
            && Frames(wal) == frames && FrameCount(wal) == |frames| && AlignedLen(wal) == |wal|
            && SaltOf(wal) == salt && FrameSize(wal) == FRAME_SIZE
  {
    hide Small, FrameImage, Header, FrameFrom, SaltOf, FrameSize;
    var wal := WalImage(salt, frames);
    HeaderOf(salt, wal);
    QuotientIs(|frames| * FRAME_SIZE, FRAME_SIZE, |frames|, 0);
    CountOfImage(wal, |frames|);
    if frames != [] {
      var n := |frames| - 1;
      var init := WalImage(salt, frames[..n]);
      FramesOfImage(salt, frames[..n]);
      FramesPrefix(init, wal);
      FrameOfImage(salt, frames[n], wal, WAL_HEADER_SIZE + n * FRAME_SIZE);
      LastFrame(wal, n);
      assert Frames(wal)[..n] == frames[..n];
    }
  }

  lemma LastFrame(wal: Bytes, n: nat)
    requires FrameSize(wal) == FRAME_SIZE && FrameCount(wal) == n + 1
    ensures WAL_HEADER_SIZE + n * FRAME_SIZE + FRAME_SIZE <= |wal|
    ensures Frames(wal)[n] == FrameFrom(wal, WAL_HEADER_SIZE + n * FRAME_SIZE, FRAME_SIZE)
  {
    FrameFits(wal, n);
  }

  lemma CountOfImage(wal: Bytes, n: nat)
    requires |wal| == WAL_HEADER_SIZE + n * FRAME_SIZE && FrameSize(wal) == FRAME_SIZE
    requires (n * FRAME_SIZE) / FRAME_SIZE == n
    ensures FrameCount(wal) == n && AlignedLen(wal) == |wal|
  {
    if n > 0 {
      TimesMonotone(1, n, FRAME_SIZE);
    }
  }

  /** Cutting the list of frames cuts the file. */
  lemma {:induction false} ImagePrefix(salt: Bytes, frames: seq<Frame>, n: nat)
    requires |salt| == WAL_SALT_LEN && (forall f :: f in frames ==> Small(f)) && n <= |frames|
    ensures WalImage(salt, frames[..n]) <= WalImage(salt, frames)
    decreases |frames|
  {
    if n == |frames| {
      assert frames[..n] == frames;
    } else {
      var init := frames[..|frames| - 1];
      assert init[..n] == frames[..n];
      ImagePrefix(salt, init, n);
    }
  }
}
