/** The hypotheses about codecs and text formats can be met, so no theorem holds for want of a configuration. */
module Consistency {
  import opened Wrappers
  import opened Manifest
  import opened Config
  import opened Pipeline
  import opened Replay

  /** A number as so many ones and a zero: no code is the beginning of another. */
  function Number(n: nat): (b: Bytes)
  {
    if n == 0 then [0] else [1] + Number(n - 1)
  }

  function Text(s: string): (b: Bytes)
  {
    if s == [] then [0] else [1] + (Number(s[0] as nat) + Text(s[1..]))
  }

  function Extent(m: SegmentMeta): (b: Bytes)
  {
    Number(m.offset) + Number(m.size)
  }

  function Stamp(m: SegmentMeta): (b: Bytes)
  {
    Number(m.timestampMs) + Extent(m)
  }

  function Segment(m: SegmentMeta): (b: Bytes)
  {
    Number(m.index) + Stamp(m)
  }

  function Segments(ms: seq<SegmentMeta>): (b: Bytes)
  {
    if ms == [] then [0] else [1] + (Segment(ms[0]) + Segments(ms[1..]))
  }

  function Document(m: GenerationManifest): (b: Bytes)
  {
    ['{' as int]
    + (Text(m.generation) + (Number(m.createdAtMs) + (Number(m.snapshotTimestampMs) + Segments(m.segments))))
  }

  lemma {:induction false} NumberSplits(m: nat, n: nat, a: Bytes, b: Bytes)
    requires Number(m) + a == Number(n) + b
    ensures m == n && a == b
  {
    var x, y := Number(m) + a, Number(n) + b;
    assert x[0] == Number(m)[0] && y[0] == Number(n)[0];
    if m > 0 && n > 0 {
      assert x[1..] == Number(m - 1) + a && y[1..] == Number(n - 1) + b;
      NumberSplits(m - 1, n - 1, a, b);
    } else {
      assert x[1..] == a && y[1..] == b;
    }
  }

  lemma {:induction false} TextSplits(s: string, t: string, a: Bytes, b: Bytes)
    requires Text(s) + a == Text(t) + b
    ensures s == t && a == b
  {
    hide Number;
    var x, y := Text(s) + a, Text(t) + b;
    assert x[0] == Text(s)[0] && y[0] == Text(t)[0];
    if s != [] && t != [] {
      assert x[1..] == Number(s[0] as nat) + (Text(s[1..]) + a) && y[1..] == Number(t[0] as nat) + (Text(t[1..]) + b);
      NumberSplits(s[0] as nat, t[0] as nat, Text(s[1..]) + a, Text(t[1..]) + b);
      TextSplits(s[1..], t[1..], a, b);
      assert s == [s[0]] + s[1..] && t == [t[0]] + t[1..];
    } else {
      assert x[1..] == a && y[1..] == b;
    }
  }

  /** A code that starts with a number, followed by more. */
  lemma FirstNumber(n: nat, m: nat, s: Bytes, t: Bytes, a: Bytes, b: Bytes)
    requires Number(n) + s + a == Number(m) + t + b
    ensures n == m && s + a == t + b
  {
    hide Number;
    assert Number(n) + s + a == Number(n) + (s + a) && Number(m) + t + b == Number(m) + (t + b);
    NumberSplits(n, m, s + a, t + b);
  }

  lemma ExtentSplits(m: SegmentMeta, n: SegmentMeta, a: Bytes, b: Bytes)
    requires Extent(m) + a == Extent(n) + b
    ensures m.offset == n.offset && m.size == n.size && a == b
  {
    hide Number;
    FirstNumber(m.offset, n.offset, Number(m.size), Number(n.size), a, b);
    NumberSplits(m.size, n.size, a, b);
  }

  lemma StampSplits(m: SegmentMeta, n: SegmentMeta, a: Bytes, b: Bytes)
    requires Stamp(m) + a == Stamp(n) + b
    ensures m.timestampMs == n.timestampMs && m.offset == n.offset && m.size == n.size && a == b
  {
    hide Number, Extent;
    FirstNumber(m.timestampMs, n.timestampMs, Extent(m), Extent(n), a, b);
    ExtentSplits(m, n, a, b);
  }

  lemma SegmentSplits(m: SegmentMeta, n: SegmentMeta, a: Bytes, b: Bytes)
    requires Segment(m) + a == Segment(n) + b
    ensures m == n && a == b
  {
    hide Number, Stamp;
    FirstNumber(m.index, n.index, Stamp(m), Stamp(n), a, b);
    StampSplits(m, n, a, b);
  }

  lemma {:induction false} SegmentsSplit(ms: seq<SegmentMeta>, ns: seq<SegmentMeta>)
    requires Segments(ms) == Segments(ns)
    ensures ms == ns
  {
    hide Segment;
    var x, y := Segments(ms), Segments(ns);
    assert x[0] == y[0];
    if ms != [] {
      assert ns != [];
      assert x[1..] == Segment(ms[0]) + Segments(ms[1..]) && y[1..] == Segment(ns[0]) + Segments(ns[1..]);
      SegmentSplits(ms[0], ns[0], Segments(ms[1..]), Segments(ns[1..]));
      SegmentsSplit(ms[1..], ns[1..]);
      assert ms == [ms[0]] + ms[1..] && ns == [ns[0]] + ns[1..];
    }
  }

  lemma DocumentsDiffer(m: GenerationManifest, n: GenerationManifest)
    requires Document(m) == Document(n)
    ensures m == n
  {
    var a2 := Number(m.snapshotTimestampMs) + Segments(m.segments);
    var b2 := Number(n.snapshotTimestampMs) + Segments(n.segments);
    var a1, b1 := Number(m.createdAtMs) + a2, Number(n.createdAtMs) + b2;
    assert Document(m)[1..] == Text(m.generation) + a1 && Document(n)[1..] == Text(n.generation) + b1;
    TextSplits(m.generation, n.generation, a1, b1);
    NumberSplits(m.createdAtMs, n.createdAtMs, a2, b2);
    NumberSplits(m.snapshotTimestampMs, n.snapshotTimestampMs, Segments(m.segments), Segments(n.segments));
    SegmentsSplit(m.segments, n.segments);
  }

  /** For all settings and every reading of database files there is a lawful configuration that refuses nothing. */
  lemma LawfulExists(compression: CompressionAlgorithm, key: Option<string>, retentionMs: Option<nat>,
                     pager: Bytes -> Db)
    returns (cfg: BackupConfig)
    ensures Lawful(cfg) && Able(cfg) && cfg.formats.pager == pager
    ensures cfg.compression == compression && cfg.encryptionKey == key && cfg.retentionMs == retentionMs
  {
    var toJson: GenerationManifest -> Bytes := m => Document(m);
    var fromJson: Bytes -> Option<GenerationManifest> :=
      b => if exists m :: Document(m) == b then var m :| Document(m) == b; Some(m) else None;
    var toUtf8: string -> Bytes := s => Text(s);
    var fromUtf8: Bytes -> Option<string> :=
      b => if exists s :: Text(s) == b then var s :| Text(s) == b; Some(s) else None;
    var same: Bytes -> Result<Bytes> := d => Ok(d);
    var codecs := Codecs(d => d, same, same, same, (p, s) => Ok(s), (k, n, d) => Ok(d), (k, n, d) => Ok(d));
    var formats := Formats(toJson, fromJson, toUtf8, fromUtf8, pager);
    cfg := BackupConfig(codecs, formats, compression, key, retentionMs);
    forall m
      ensures fromJson(toJson(m)) == Some(m) && toJson(m)[0] == '{' as int
    {
      var n :| fromJson(Document(m)) == Some(n) && Document(n) == Document(m);
      DocumentsDiffer(m, n);
    }
    forall s
      ensures fromUtf8(toUtf8(s)) == Some(s)
    {
      var t :| fromUtf8(Text(s)) == Some(t) && Text(t) == Text(s);
      assert Text(s) + [] == Text(s) && Text(t) + [] == Text(t);
      TextSplits(s, t, [], []);
    }
  }
}
