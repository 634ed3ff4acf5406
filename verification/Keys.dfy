/** How object keys are built and taken apart (src/manager.rs). */
module Keys {
  import opened Order

  const LATEST: string := "latest"
  const MANIFEST_SUFFIX: string := "/manifest.json"

  function SnapshotKey(generation: string): (key: string) { generation + "/snapshot" }

  function ManifestKey(generation: string): (key: string) { generation + MANIFEST_SUFFIX }

  function WalPrefix(generation: string): (key: string) { generation + "/wal/" }

  function SegmentKey(generation: string, index: nat): (key: string) { WalPrefix(generation) + Padded(index) }

  function GenerationPrefix(generation: string): (key: string) { generation + "/" }

  /** The key belongs to the generation. */
  predicate Under(generation: string, key: string) { GenerationPrefix(generation) <= key }

  // ---------- decimal numbers ----------

  function Digit(d: nat): (c: char)
    requires d < 10
  {
    '0' + d as char
  }

  function Decimal(n: nat): (s: string)
  {
    if n < 10 then [Digit(n)] else Decimal(n / 10) + [Digit(n % 10)]
  }

  function Zeros(n: nat): (s: string)
    ensures |s| == n
  {
    seq(n, _ => '0')
  }

  /** Zero-padded to at least eight digits. */
  function Padded(n: nat): (s: string)
  {
    var d := Decimal(n);
    if |d| < 8 then Zeros(8 - |d|) + d else d
  }

  /** The number that a string of digits denotes. */
  function Value(s: string): (n: int)
  {
    if s == [] then 0 else Value(s[..|s| - 1]) * 10 + (s[|s| - 1] as int - '0' as int)
  }

  predicate AllDigits(s: string)
  {
    forall i :: 0 <= i < |s| ==> '0' <= s[i] <= '9'
  }

  lemma {:induction false} ValueOfDecimal(n: nat)
    ensures Value(Decimal(n)) == n && AllDigits(Decimal(n)) && |Decimal(n)| > 0
  {
    if n >= 10 {
      ValueOfDecimal(n / 10);
      assert Decimal(n)[..|Decimal(n)| - 1] == Decimal(n / 10);
    }
  }

  lemma {:induction false} ValueSkipsZeros(k: nat, s: string)
    ensures Value(Zeros(k) + s) == Value(s)
  {
    var t := Zeros(k) + s;
    if s != [] {
      assert t[..|t| - 1] == Zeros(k) + s[..|s| - 1];
      ValueSkipsZeros(k, s[..|s| - 1]);
    } else if k > 0 {
      assert t[..|t| - 1] == Zeros(k - 1) + s;
      ValueSkipsZeros(k - 1, s);
    }
  }

  lemma ValueOfPadded(n: nat)
    ensures Value(Padded(n)) == n && AllDigits(Padded(n))
  {
    ValueOfDecimal(n);
    if |Decimal(n)| < 8 {
      ValueSkipsZeros(8 - |Decimal(n)|, Decimal(n));
    }
  }

  /** Different indices never share a key. */
  lemma SegmentKeyInjective(generation: string, i: nat, j: nat)
    requires SegmentKey(generation, i) == SegmentKey(generation, j)
    ensures i == j
  {
    var p := WalPrefix(generation);
    assert Padded(i) == SegmentKey(generation, i)[|p|..] && Padded(j) == SegmentKey(generation, j)[|p|..];
    ValueOfPadded(i);
    ValueOfPadded(j);
  }

  function Pow10(k: nat): (n: nat)
    ensures n > 0
  {
    if k == 0 then 1 else 10 * Pow10(k - 1)
  }

  lemma {:induction false} DecimalLength(n: nat, k: nat)
    requires k > 0
    ensures |Decimal(n)| <= k <==> n < Pow10(k)
  {
    if n >= 10 {
      if k > 1 {
        DecimalLength(n / 10, k - 1);
        assert n / 10 < Pow10(k - 1) <==> n < 10 * Pow10(k - 1);
      } else {
        ValueOfDecimal(n / 10);
        assert Pow10(1) == 10 * Pow10(0);
      }
    } else {
      assert Pow10(k) == 10 * Pow10(k - 1);
    }
  }

  lemma PaddedLength(n: nat)
    ensures |Padded(n)| == 8 <==> n < 100_000_000
    ensures |Padded(n)| >= 8
  {
    DecimalLength(n, 8);
    DecimalLength(n, 7);
    assert Pow10(2) == 100 && Pow10(4) == 10_000 && Pow10(6) == 1_000_000;
    assert Pow10(8) == 10 * (10 * Pow10(6));
  }

  lemma {:induction false} LessOnLastDigit(a: string, b: string, x: char, y: char)
    requires |a| == |b|
    ensures Less(a + [x], b + [y]) <==> Less(a, b) || (a == b && x < y)
  {
    if a == [] {
      assert a + [x] == [x] && b + [y] == [y];
    } else {
      assert (a + [x])[1..] == a[1..] + [x] && (b + [y])[1..] == b[1..] + [y];
      LessOnLastDigit(a[1..], b[1..], x, y);
      assert a == [a[0]] + a[1..] && b == [b[0]] + b[1..];
    }
  }

  /** On digit strings of one length, lexicographic order is numeric order. */
  lemma {:induction false} LessIsNumeric(a: string, b: string)
    requires |a| == |b| && AllDigits(a) && AllDigits(b)
    ensures Less(a, b) <==> Value(a) < Value(b)
    ensures a == b <==> Value(a) == Value(b)
  {
    if a != [] {
      var n := |a| - 1;
      LessIsNumeric(a[..n], b[..n]);
      LessOnLastDigit(a[..n], b[..n], a[n], b[n]);
      assert a == a[..n] + [a[n]] && b == b[..n] + [b[n]];
    }
  }

  /** Below 10^8 the listing order of segment keys is the order of their indices. */
  lemma SegmentKeyOrder(generation: string, i: nat, j: nat)
    requires i < 100_000_000 && j < 100_000_000
    ensures Less(SegmentKey(generation, i), SegmentKey(generation, j)) <==> i < j
  {
    LessCancelsPrefix(WalPrefix(generation), Padded(i), Padded(j));
    PaddedLength(i);
    PaddedLength(j);
    ValueOfPadded(i);
    ValueOfPadded(j);
    LessIsNumeric(Padded(i), Padded(j));
  }

  /** At 10^8 the order breaks: the ninth digit sorts in front of every other index. */
  lemma SegmentKeyOrderBreaks(generation: string)
    ensures Less(SegmentKey(generation, 100_000_000), SegmentKey(generation, 99_999_999))
  {
    LessCancelsPrefix(WalPrefix(generation), Padded(100_000_000), Padded(99_999_999));
    assert Decimal(100_000_000)[0] == '1';
    assert Decimal(99_999_999)[0] == '9';
  }

  // ---------- generations and their keys ----------

  predicate NoSlash(s: string)
  {
    '/' !in s
  }

  /** The part of a key in front of its first slash. */
  function Head(key: string): (h: string)
  {
    if key == [] || key[0] == '/' then [] else [key[0]] + Head(key[1..])
  }

  lemma {:induction false} HeadIsPlain(key: string)
    ensures NoSlash(Head(key))
    ensures NoSlash(key) ==> Head(key) == key
  {
    if key != [] && key[0] != '/' {
      HeadIsPlain(key[1..]);
      assert key == [key[0]] + key[1..];
    } else {
      assert key != [] ==> key[0] in key;
    }
  }

  /** A key under a generation's prefix has the generation's own head. */
  lemma {:induction false} HeadOfPrefixed(generation: string, key: string)
    requires Under(generation, key)
    ensures Head(key) == Head(generation)
    ensures NoSlash(generation) ==> Head(key) == generation
  {
    HeadIsPlain(generation);
    assert key[0] == GenerationPrefix(generation)[0];
    if generation != [] {
      assert GenerationPrefix(generation)[1..] == GenerationPrefix(generation[1..]);
      HeadOfPrefixed(generation[1..], key[1..]);
    }
  }

  /** No key belongs to two generations. */
  lemma GenerationsDisjoint(g: string, h: string, key: string)
    requires NoSlash(g) && NoSlash(h) && Under(g, key) && Under(h, key)
    ensures g == h
  {
    HeadOfPrefixed(g, key);
    HeadOfPrefixed(h, key);
  }

  /** Everything a generation owns carries its prefix; the marker belongs to none; all are distinct. */
  lemma KeyShapes(generation: string, index: nat)
    ensures Under(generation, SnapshotKey(generation))
    ensures Under(generation, ManifestKey(generation))
    ensures Under(generation, SegmentKey(generation, index))
    ensures !Under(generation, LATEST)
    ensures SnapshotKey(generation) != ManifestKey(generation)
    ensures SegmentKey(generation, index) != SnapshotKey(generation)
    ensures SegmentKey(generation, index) != ManifestKey(generation)
  {
    var n := |generation|;
    assert SnapshotKey(generation)[n + 1] == 's';
    assert ManifestKey(generation)[n + 1] == 'm';
    assert SegmentKey(generation, index)[n + 1] == 'w';
    assert GenerationPrefix(generation)[n] == '/' && '/' !in LATEST;
    assert n < |LATEST| ==> LATEST[n] in LATEST;
  }

  lemma WalKeyShape(generation: string, key: string)
    requires WalPrefix(generation) <= key
    ensures Under(generation, key) && key != SnapshotKey(generation) && key != ManifestKey(generation)
  {
    var n := |generation|;
    assert WalPrefix(generation)[..n + 1] == GenerationPrefix(generation);
    assert key[n + 1] == WalPrefix(generation)[n + 1] == 'w';
    assert SnapshotKey(generation)[n + 1] == 's' && ManifestKey(generation)[n + 1] == 'm';
  }

  predicate EndsWith(s: string, suffix: string)
  {
    |suffix| <= |s| && s[|s| - |suffix|..] == suffix
  }

  /** Removes the suffix as often as it occurs at the end (str::trim_end_matches). */
  function TrimEndMatches(s: string, suffix: string): (r: string)
    requires suffix != []
  {
    if EndsWith(s, suffix) then TrimEndMatches(s[..|s| - |suffix|], suffix) else s
  }

  /** Trimming undoes the construction of a manifest key. */
  lemma TrimManifestKey(generation: string)
    requires NoSlash(generation)
    ensures EndsWith(ManifestKey(generation), MANIFEST_SUFFIX)
    ensures TrimEndMatches(ManifestKey(generation), MANIFEST_SUFFIX) == generation
  {
    var key := ManifestKey(generation);
    assert key[|key| - |MANIFEST_SUFFIX|..] == MANIFEST_SUFFIX;
    assert key[..|key| - |MANIFEST_SUFFIX|] == generation;
    var at := |generation| - |MANIFEST_SUFFIX|;
    assert at >= 0 ==> generation[at..][0] == generation[at] && generation[at] in generation;
  }

  /** None of the other keys that the manager writes is taken for a manifest. */
  lemma OtherKeysAreNotManifests(generation: string, index: nat)
    ensures !EndsWith(LATEST, MANIFEST_SUFFIX)
    ensures !EndsWith(SnapshotKey(generation), MANIFEST_SUFFIX)
    ensures !EndsWith(SegmentKey(generation, index), MANIFEST_SUFFIX)
  {
    var key := SnapshotKey(generation);
    assert key[|key| - 1] == 't' && MANIFEST_SUFFIX[|MANIFEST_SUFFIX| - 1] == 'n';
    var seg := SegmentKey(generation, index);
    ValueOfPadded(index);
    PaddedLength(index);
    assert seg[|seg| - 1] == Padded(index)[|Padded(index)| - 1];
  }
}
