/** What compaction makes of the bytes shipped, whatever they are, and exactly when they survive it. */
module Recutting {
  import opened Wrappers
  import opened Arithmetic
  import opened Manifest
  import opened Config
  import opened Pipeline
  import opened Keys
  import opened S3
  import opened Durable
  import opened Compaction

  /** What a chunk comes back as after its trip through the pipeline. */
  function ReadBack(cfg: BackupConfig, chunk: Bytes): (r: Result<Bytes>)
  {
    if Carries(cfg, chunk) then Ok(chunk)
    else if chunk[1] == MAGIC_LZ4[1] then cfg.codecs.lz4Decompress(chunk[MAGIC_LEN..])
    else cfg.codecs.zstdDecompress(chunk[MAGIC_LEN..])
  }

  /** Exactly that, for every salt and nonce. */
  lemma ReadBackIsExact(cfg: BackupConfig, chunk: Bytes, salt: Bytes, nonce: Bytes)
    requires LawfulCodecs(cfg.codecs) && |salt| == SALT_LEN && |nonce| == NONCE_LEN
    requires Encode(cfg, chunk, salt, nonce).Ok?
    ensures Decode(cfg, Encode(cfg, chunk, salt, nonce).value) == ReadBack(cfg, chunk)
  {
    if Carries(cfg, chunk) {
      RoundTrip(cfg, cfg, chunk, salt, nonce);
    } else {
      UncompressedRoundTrip(cfg, chunk, salt, nonce);
    }
  }

  /** The chunks read back one after the other; the first error is the result. */
  function Rejoin(cfg: BackupConfig, chunks: seq<Bytes>): (r: Result<Bytes>)
  {
    if chunks == [] then Ok([])
    else
      match Rejoin(cfg, chunks[..|chunks| - 1])
      case Err(e) => Err(e)
      case Ok(head) =>
        match ReadBack(cfg, chunks[|chunks| - 1])
        case Err(e) => Err(e)
        case Ok(tail) => Ok(head + tail)
  }

  /** The object under the key is the chunk, encoded with some salt and nonce. */
  ghost predicate Uploaded(cfg: BackupConfig, objects: Objects, key: string, chunk: Bytes)
  {
    && key in objects
    && exists salt, nonce :: |salt| == SALT_LEN && |nonce| == NONCE_LEN
                             && Encode(cfg, chunk, salt, nonce) == Ok(objects[key])
  }

  lemma {:induction false} FetchRejoins(cfg: BackupConfig, objects: Objects, keys: seq<string>, chunks: seq<Bytes>)
    requires LawfulCodecs(cfg.codecs) && |keys| == |chunks|
    requires forall i :: 0 <= i < |keys| ==> Uploaded(cfg, objects, keys[i], chunks[i])
    ensures Fetch(cfg, objects, keys) == Rejoin(cfg, chunks)
  {
    hide Encode, Decode, ReadBack, LawfulCodecs;
    if keys != [] {
      var n := |keys| - 1;
      FetchRejoins(cfg, objects, keys[..n], chunks[..n]);
      assert Uploaded(cfg, objects, keys[n], chunks[n]);
      var salt, nonce :| |salt| == SALT_LEN && |nonce| == NONCE_LEN
                         && Encode(cfg, chunks[n], salt, nonce) == Ok(objects[keys[n]]);
      ReadBackIsExact(cfg, chunks[n], salt, nonce);
    }
  }

  /**
   A store as compaction leaves it, safe or not: the manifest names the chunks, and each object is
   its chunk's encoding. It restores to the snapshot and the chunks as they read back.
   */
  lemma CompactedRestores(cfg: BackupConfig, objects: Objects, generation: string, m: GenerationManifest,
                          snapshot: Bytes, data: Bytes, maxSize: nat)
    requires LawfulCodecs(cfg.codecs) && LatestGeneration(cfg, objects) == Ok(generation)
    requires DecodeAt(cfg, objects, SnapshotKey(generation)) == Ok(snapshot)
    requires ManifestAt(cfg, objects, generation) == Some(m)
    requires maxSize > 0 && data != [] && |m.segments| == |Chunks(data, maxSize)|
    requires forall i :: 0 <= i < |m.segments| ==>
               Uploaded(cfg, objects, SegmentKey(generation, m.segments[i].index), Chunks(data, maxSize)[i])
    ensures RestoreLatest(cfg, objects) ==
            match Rejoin(cfg, Chunks(data, maxSize))
            case Ok(wal) => Ok(Files(snapshot, Some(wal)))
            case Err(e) => Err(e)
  {
    hide LawfulCodecs, Uploaded, Rejoin;
    FetchRejoins(cfg, objects, KeysOf(generation, m.segments), Chunks(data, maxSize));
  }

  // ---------- when the data survives ----------

  lemma {:induction false} RejoinFront(cfg: BackupConfig, c: Bytes, rest: seq<Bytes>)
    ensures Rejoin(cfg, [c] + rest) ==
            match ReadBack(cfg, c)
            case Err(e) => Err(e)
            case Ok(head) =>
              match Rejoin(cfg, rest)
              case Err(e) => Err(e)
              case Ok(tail) => Ok(head + tail)
  {
    hide ReadBack;
    var all := [c] + rest;
    if rest == [] {
      assert all[..|all| - 1] == [] && all[|all| - 1] == c;
      var head, none: Bytes := ReadBack(cfg, c), [];
      assert head.Ok? ==> none + head.value == head.value == head.value + none;
    } else {
      var n := |rest| - 1;
      assert all[..|all| - 1] == [c] + rest[..n];
      RejoinFront(cfg, c, rest[..n]);
      var head, middle, last := ReadBack(cfg, c), Rejoin(cfg, rest[..n]), ReadBack(cfg, rest[n]);
      assert head.Ok? && middle.Ok? && last.Ok? ==>
        (head.value + middle.value) + last.value == head.value + (middle.value + last.value);
    }
  }

  /** If every chunk is carried, nothing changes. */
  lemma {:induction false} SafeRejoins(cfg: BackupConfig, data: Bytes, maxSize: nat)
    requires maxSize > 0 && SafeToCompact(cfg, data, maxSize)
    ensures Rejoin(cfg, Chunks(data, maxSize)) == Ok(data)
    decreases |data|
  {
    if data != [] {
      NextIsCarried(cfg, data, maxSize);
      if |data| <= maxSize {
        assert data[..|data|] == data && Chunks(data, maxSize) == [data] + [];
        RejoinFront(cfg, data, []);
        assert data + [] == data;
      } else {
        SafeRejoins(cfg, data[maxSize..], maxSize);
        RejoinFront(cfg, data[..maxSize], Chunks(data[maxSize..], maxSize));
        assert data == data[..maxSize] + data[maxSize..];
      }
    }
  }

  lemma {:induction false} OneErrorIsEnough(cfg: BackupConfig, chunks: seq<Bytes>, i: nat)
    requires i < |chunks| && ReadBack(cfg, chunks[i]).Err?
    ensures Rejoin(cfg, chunks).Err?
  {
    if i < |chunks| - 1 {
      OneErrorIsEnough(cfg, chunks[..|chunks| - 1], i);
    }
  }

  /** Lawful codecs whose every output is longer than `n`: shorter input is no output of theirs. */
  function Picky(n: nat): (c: Codecs)
  {
    var wrap := (d: Bytes) => seq(n + 1, _ => 0) + d;
    var unwrap := (b: Bytes) => if |b| <= n then Err(Codec) else Ok(b[n + 1..]);
    Codecs(wrap, unwrap, d => Ok(wrap(d)), unwrap, (p, s) => Ok(s), (k, i, d) => Ok(d), (k, i, d) => Ok(d))
  }

  lemma PickyIsLawful(n: nat)
    ensures LawfulCodecs(Picky(n))
  {
    var c := Picky(n);
    forall d: Bytes
      ensures c.lz4Decompress(c.lz4Compress(d)) == Ok(d)
    {
      assert (seq(n + 1, _ => 0) + d)[n + 1..] == d;
    }
  }

  lemma {:induction false} ChunkIsShorter(data: Bytes, maxSize: nat, i: nat)
    requires maxSize > 0 && i < |Chunks(data, maxSize)|
    ensures |Chunks(data, maxSize)[i]| <= |data|
    decreases |data|
  {
    if |data| > maxSize && i > 0 {
      ChunkIsShorter(data[maxSize..], maxSize, i - 1);
    }
  }

  /** With these codecs linked in, compaction into chunks of this size keeps the data. */
  ghost predicate Survives(cfg: BackupConfig, data: Bytes, maxSize: nat, codecs: Codecs)
    requires maxSize > 0
  {
    Rejoin(cfg.(codecs := codecs), Chunks(data, maxSize)) == Ok(data)
  }

  lemma SafeSurvives(cfg: BackupConfig, data: Bytes, maxSize: nat, codecs: Codecs)
    requires maxSize > 0 && SafeToCompact(cfg, data, maxSize)
    ensures Survives(cfg, data, maxSize, codecs)
  {
    SafeRejoins(cfg.(codecs := codecs), data, maxSize);
  }

  lemma UnsafeIsLost(cfg: BackupConfig, data: Bytes, maxSize: nat)
    requires maxSize > 0 && !SafeToCompact(cfg, data, maxSize)
    ensures LawfulCodecs(Picky(|data|)) && !Survives(cfg, data, maxSize, Picky(|data|))
  {
    var chunks := Chunks(data, maxSize);
    var bad :| bad in chunks && !Carries(cfg, bad);
    var i :| 0 <= i < |chunks| && chunks[i] == bad;
    PickyIsLawful(|data|);
    ChunkIsShorter(data, maxSize, i);
    OneErrorIsEnough(cfg.(codecs := Picky(|data|)), chunks, i);
  }

  /**
   The guard is exact: whatever lawful codecs are linked in, compaction keeps the data, if and
   only if the guard holds, which depends on the data, the chunk size and the setting alone.
   */
  lemma SafeToCompactIsExact(cfg: BackupConfig, data: Bytes, maxSize: nat)
    requires maxSize > 0
    ensures SafeToCompact(cfg, data, maxSize) <==>
            forall codecs :: LawfulCodecs(codecs) ==> Survives(cfg, data, maxSize, codecs)
  {
    hide SafeToCompact, Survives, LawfulCodecs, Picky;
    if SafeToCompact(cfg, data, maxSize) {
      forall codecs | LawfulCodecs(codecs)
        ensures Survives(cfg, data, maxSize, codecs)
      {
        SafeSurvives(cfg, data, maxSize, codecs);
      }
    } else {
      UnsafeIsLost(cfg, data, maxSize);
    }
  }

  // ---------- how much is lost ----------

  function TotalSize(chunks: seq<Bytes>): (n: nat)
  {
    if chunks == [] then 0 else |chunks[0]| + TotalSize(chunks[1..])
  }

  lemma {:induction false} ChunksTotal(data: Bytes, maxSize: nat)
    requires maxSize > 0
    ensures TotalSize(Chunks(data, maxSize)) == |data|
    decreases |data|
  {
    if |data| > maxSize {
      ChunksTotal(data[maxSize..], maxSize);
      assert Chunks(data, maxSize)[1..] == Chunks(data[maxSize..], maxSize);
    } else if data != [] {
      assert Chunks(data, maxSize)[1..] == [];
    }
  }

  /** The chunk with index `i` is the piece of the data that starts at `i * maxSize`. */
  lemma {:induction false} ChunkAt(data: Bytes, maxSize: nat, i: nat)
    requires maxSize > 0 && i < |Chunks(data, maxSize)|
    ensures i * maxSize < |data|
    ensures Chunks(data, maxSize)[i] ==
            data[i * maxSize..if i * maxSize + maxSize < |data| then i * maxSize + maxSize else |data|]
    decreases |data|
  {
    if |data| > maxSize {
      if i > 0 {
        OneMore(i - 1, maxSize);
        ChunkAt(data[maxSize..], maxSize, i - 1);
      }
    } else {
      assert i == 0 && data[0..|data|] == data;
    }
  }

  lemma {:induction false} ChunkExists(data: Bytes, maxSize: nat, i: nat)
    requires maxSize > 0 && i * maxSize < |data|
    ensures i < |Chunks(data, maxSize)|
    decreases |data|
  {
    if i > 0 {
      OneMore(i - 1, maxSize);
      TimesMonotone(1, i, maxSize);
      ChunkExists(data[maxSize..], maxSize, i - 1);
    }
  }

  /** If one chunk comes back empty and the others are carried, exactly its bytes are missing. */
  lemma {:induction false} OneChunkLost(cfg: BackupConfig, chunks: seq<Bytes>, i: nat)
    requires i <= |chunks| && (i < |chunks| ==> ReadBack(cfg, chunks[i]) == Ok([]))
    requires forall j :: 0 <= j < |chunks| && j != i ==> Carries(cfg, chunks[j])
    ensures Rejoin(cfg, chunks).Ok?
    ensures |Rejoin(cfg, chunks).value| == TotalSize(chunks) - if i < |chunks| then |chunks[i]| else 0
    decreases |chunks|
  {
    if chunks != [] {
      assert chunks == [chunks[0]] + chunks[1..];
      OneChunkLost(cfg, chunks[1..], if i > 0 then i - 1 else |chunks| - 1);
      RejoinFront(cfg, chunks[0], chunks[1..]);
    }
  }
}
