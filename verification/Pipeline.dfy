/**
 The byte pipeline: magic-prefixed compression and encryption with auto-detection on the way
 back (src/compression.rs, src/encryption.rs and the pipeline functions of src/manager.rs).
 */
module Pipeline {
  import opened Wrappers
  import opened Manifest
  import opened Config

  const MAGIC_LEN: nat := 4
  const MAGIC_LZ4: Bytes := [0x57, 0x4C, 0x34, 0x01]
  const MAGIC_ZSTD: Bytes := [0x57, 0x5A, 0x53, 0x01]
  const MAGIC_ENCRYPTED: Bytes := [0x57, 0x45, 0x4E, 0x01]
  const SALT_LEN: nat := 16
  const NONCE_LEN: nat := 12

  function Compress(c: Codecs, data: Bytes, algo: CompressionAlgorithm): (r: Result<Bytes>)
  {
    match algo
    case NoCompression => Ok(data)
    case Lz4 => Ok(MAGIC_LZ4 + c.lz4Compress(data))
    case Zstd =>
      match c.zstdCompress(data)
      case Ok(z) => Ok(MAGIC_ZSTD + z)
      case Err(e) => Err(e)
  }

  function Decompress(c: Codecs, data: Bytes): (r: Result<Bytes>)
  {
    if |data| < MAGIC_LEN then Ok(data)
    else if data[..MAGIC_LEN] == MAGIC_LZ4 then c.lz4Decompress(data[MAGIC_LEN..])
    else if data[..MAGIC_LEN] == MAGIC_ZSTD then c.zstdDecompress(data[MAGIC_LEN..])
    else Ok(data)
  }

  /** `salt` and `nonce` are the bytes drawn from the system's random source. */
  function Encrypt(c: Codecs, data: Bytes, passphrase: string, salt: Bytes, nonce: Bytes): (r: Result<Bytes>)
    requires |salt| == SALT_LEN && |nonce| == NONCE_LEN
  {
    match c.deriveKey(passphrase, salt)
    case Err(e) => Err(e)
    case Ok(key) =>
      match c.seal(key, nonce, data)
      case Err(e) => Err(e)
      case Ok(ciphertext) => Ok(MAGIC_ENCRYPTED + salt + nonce + ciphertext)
  }

  function Decrypt(c: Codecs, data: Bytes, passphrase: string): (r: Result<Bytes>)
  {
    var bodyAt := MAGIC_LEN + SALT_LEN + NONCE_LEN;
    if |data| < bodyAt || data[..MAGIC_LEN] != MAGIC_ENCRYPTED then Ok(data)
    else
      match c.deriveKey(passphrase, data[MAGIC_LEN..MAGIC_LEN + SALT_LEN])
      case Err(e) => Err(e)
      case Ok(key) => c.unseal(key, data[MAGIC_LEN + SALT_LEN..bodyAt], data[bodyAt..])
  }

  /** Before upload: compress, then encrypt if a key is configured. */
  function Encode(cfg: BackupConfig, data: Bytes, salt: Bytes, nonce: Bytes): (r: Result<Bytes>)
    requires |salt| == SALT_LEN && |nonce| == NONCE_LEN
  {
    match Compress(cfg.codecs, data, cfg.compression)
    case Err(e) => Err(e)
    case Ok(compressed) =>
      match cfg.encryptionKey
      case None => Ok(compressed)
      case Some(key) => Encrypt(cfg.codecs, compressed, key, salt, nonce)
  }

  /** After download: decrypt if a key is configured, then decompress. */
  function Decode(cfg: BackupConfig, data: Bytes): (r: Result<Bytes>)
  {
    match cfg.encryptionKey
    case None => Decompress(cfg.codecs, data)
    case Some(key) =>
      match Decrypt(cfg.codecs, data, key)
      case Err(e) => Err(e)
      case Ok(plain) => Decompress(cfg.codecs, plain)
  }

  function DecodeManifest(cfg: BackupConfig, data: Bytes): (r: Option<GenerationManifest>)
  {
    match Decode(cfg, data)
    case Err(_) => None
    case Ok(json) => cfg.formats.fromJson(json)
  }

  /** The encoder refuses nothing. */
  ghost predicate Able(cfg: BackupConfig)
  {
    forall data, salt, nonce :: |salt| == SALT_LEN && |nonce| == NONCE_LEN ==> Encode(cfg, data, salt, nonce).Ok?
  }

  /** Encoding fails only if a library call does: zstd, the key derivation, or the cipher on the compressed data. */
  lemma EncodeFails(cfg: BackupConfig, data: Bytes, salt: Bytes, nonce: Bytes)
    requires |salt| == SALT_LEN && |nonce| == NONCE_LEN
    ensures var c := cfg.codecs;
            var zstdFails := cfg.compression.Zstd? && c.zstdCompress(data).Err?;
            Encode(cfg, data, salt, nonce).Err? <==>
              || zstdFails
              || (cfg.encryptionKey.Some? && c.deriveKey(cfg.encryptionKey.value, salt).Err?)
              || (cfg.encryptionKey.Some?
                  && c.seal(c.deriveKey(cfg.encryptionKey.value, salt).value, nonce,
                            Compress(c, data, cfg.compression).value).Err?)
  {
  }

  // ---------- round trips ----------

  predicate HasMagic(data: Bytes)
  {
    |data| >= MAGIC_LEN && (data[..MAGIC_LEN] == MAGIC_LZ4 || data[..MAGIC_LEN] == MAGIC_ZSTD)
  }

  /** The payloads that the configured pipeline can carry without loss. */
  predicate Carries(cfg: BackupConfig, data: Bytes)
  {
    cfg.compression.NoCompression? ==> !HasMagic(data)
  }

  lemma DecompressCompress(c: Codecs, data: Bytes, algo: CompressionAlgorithm)
    requires LawfulCodecs(c) && (algo.NoCompression? ==> !HasMagic(data))
    ensures Compress(c, data, algo).Ok? ==> Decompress(c, Compress(c, data, algo).value) == Ok(data)
  {
    match algo
    case NoCompression =>
    case Lz4 =>
      var body := c.lz4Compress(data);
      assert (MAGIC_LZ4 + body)[..MAGIC_LEN] == MAGIC_LZ4 && (MAGIC_LZ4 + body)[MAGIC_LEN..] == body;
    case Zstd =>
      var z := c.zstdCompress(data);
      if z.Ok? {
        assert (MAGIC_ZSTD + z.value)[..MAGIC_LEN] == MAGIC_ZSTD && (MAGIC_ZSTD + z.value)[MAGIC_LEN..] == z.value;
        assert MAGIC_ZSTD[1] != MAGIC_LZ4[1];
      }
  }

  lemma DecryptEncrypt(c: Codecs, data: Bytes, passphrase: string, salt: Bytes, nonce: Bytes)
    requires LawfulCodecs(c) && |salt| == SALT_LEN && |nonce| == NONCE_LEN
    ensures var r := Encrypt(c, data, passphrase, salt, nonce);
            r.Ok? ==> Decrypt(c, r.value, passphrase) == Ok(data)
  {
    var r := Encrypt(c, data, passphrase, salt, nonce);
    if r.Ok? {
      var key := c.deriveKey(passphrase, salt).value;
      var ciphertext := c.seal(key, nonce, data).value;
      var bodyAt := MAGIC_LEN + SALT_LEN + NONCE_LEN;
      assert r.value == MAGIC_ENCRYPTED + salt + nonce + ciphertext;
      assert r.value[..MAGIC_LEN] == MAGIC_ENCRYPTED;
      assert r.value[MAGIC_LEN..MAGIC_LEN + SALT_LEN] == salt;
      assert r.value[MAGIC_LEN + SALT_LEN..bodyAt] == nonce;
      assert r.value[bodyAt..] == ciphertext;
    }
  }

  /**
   Whatever was encoded under `enc` decodes back under any `dec` with the same codecs and key:
   the algorithm configured for decoding plays no part, so one generation may mix algorithms.
   */
  lemma RoundTrip(enc: BackupConfig, dec: BackupConfig, data: Bytes, salt: Bytes, nonce: Bytes)
    requires LawfulCodecs(enc.codecs) && dec.codecs == enc.codecs && dec.encryptionKey == enc.encryptionKey
    requires |salt| == SALT_LEN && |nonce| == NONCE_LEN && Carries(enc, data)
    ensures var r := Encode(enc, data, salt, nonce);
            r.Ok? ==> Decode(dec, r.value) == Ok(data)
  {
    DecompressCompress(enc.codecs, data, enc.compression);
    var compressed := Compress(enc.codecs, data, enc.compression);
    if compressed.Ok? && enc.encryptionKey.Some? {
      DecryptEncrypt(enc.codecs, compressed.value, enc.encryptionKey.value, salt, nonce);
    }
  }

  /**
   With no compression the round trip is the identity except on a payload that begins with a
   compression magic: that one comes back as whatever the decoder makes of its tail.
   */
  lemma UncompressedRoundTrip(cfg: BackupConfig, data: Bytes, salt: Bytes, nonce: Bytes)
    requires LawfulCodecs(cfg.codecs) && cfg.compression.NoCompression?
    requires |salt| == SALT_LEN && |nonce| == NONCE_LEN && Encode(cfg, data, salt, nonce).Ok?
    ensures var back := Decode(cfg, Encode(cfg, data, salt, nonce).value);
            back == if !HasMagic(data) then Ok(data)
                    else if data[1] == MAGIC_LZ4[1] then cfg.codecs.lz4Decompress(data[MAGIC_LEN..])
                    else cfg.codecs.zstdDecompress(data[MAGIC_LEN..])
  {
    if cfg.encryptionKey.Some? {
      DecryptEncrypt(cfg.codecs, data, cfg.encryptionKey.value, salt, nonce);
    }
    if HasMagic(data) {
      assert data[1] == data[..MAGIC_LEN][1];
      assert MAGIC_LZ4[1] != MAGIC_ZSTD[1];
    }
  }

  /** Every lawful configuration without compression has a payload that it does not carry. */
  lemma UncompressedLosesMagicPayload(cfg: BackupConfig, salt: Bytes, nonce: Bytes) returns (data: Bytes)
    requires LawfulCodecs(cfg.codecs) && cfg.compression.NoCompression? && cfg.encryptionKey.None?
    requires |salt| == SALT_LEN && |nonce| == NONCE_LEN
    ensures Encode(cfg, data, salt, nonce).Ok?
    ensures Decode(cfg, Encode(cfg, data, salt, nonce).value) == Ok([]) && data != []
  {
    data := MAGIC_LZ4 + cfg.codecs.lz4Compress([]);
    assert data[..MAGIC_LEN] == MAGIC_LZ4 && data[MAGIC_LEN..] == cfg.codecs.lz4Compress([]);
  }

  /**
   What an uploaded object looks like. With a key it is magic, salt, nonce and a sealed body of
   the compressed payload; without one it is the compressed payload, its algorithm named in front.
   */
  lemma ObjectLayout(cfg: BackupConfig, data: Bytes, salt: Bytes, nonce: Bytes)
    requires LawfulCodecs(cfg.codecs) && |salt| == SALT_LEN && |nonce| == NONCE_LEN
    requires Encode(cfg, data, salt, nonce).Ok?
    ensures var stored := Encode(cfg, data, salt, nonce).value;
            var bodyAt := MAGIC_LEN + SALT_LEN + NONCE_LEN;
            match cfg.encryptionKey
            case None =>
              (match cfg.compression
               case NoCompression => stored == data
               case Lz4 => MAGIC_LZ4 <= stored && cfg.codecs.lz4Decompress(stored[MAGIC_LEN..]) == Ok(data)
               case Zstd => MAGIC_ZSTD <= stored && cfg.codecs.zstdDecompress(stored[MAGIC_LEN..]) == Ok(data))
            case Some(passphrase) =>
              && |stored| >= bodyAt && stored[..MAGIC_LEN] == MAGIC_ENCRYPTED
              && stored[MAGIC_LEN..MAGIC_LEN + SALT_LEN] == salt && stored[MAGIC_LEN + SALT_LEN..bodyAt] == nonce
              && cfg.codecs.deriveKey(passphrase, salt).Ok?
              && cfg.codecs.unseal(cfg.codecs.deriveKey(passphrase, salt).value, nonce, stored[bodyAt..]) ==
                   Compress(cfg.codecs, data, cfg.compression)
  {
    var stored := Encode(cfg, data, salt, nonce).value;
    var compressed := Compress(cfg.codecs, data, cfg.compression).value;
    if cfg.encryptionKey.Some? {
      var key := cfg.codecs.deriveKey(cfg.encryptionKey.value, salt).value;
      var ciphertext := cfg.codecs.seal(key, nonce, compressed).value;
      assert stored == MAGIC_ENCRYPTED + salt + nonce + ciphertext;
      assert stored[..MAGIC_LEN] == MAGIC_ENCRYPTED && stored[MAGIC_LEN + SALT_LEN + NONCE_LEN..] == ciphertext;
    } else if !cfg.compression.NoCompression? {
      assert stored == stored[..MAGIC_LEN] + stored[MAGIC_LEN..];
    }
  }

  /** Without the key a decoder does not fail on an encrypted object: it hands the object back as it is. */
  lemma MissingKeyUnnoticed(enc: BackupConfig, dec: BackupConfig, data: Bytes, salt: Bytes, nonce: Bytes)
    requires enc.encryptionKey.Some? && dec.encryptionKey.None?
    requires |salt| == SALT_LEN && |nonce| == NONCE_LEN
    ensures var r := Encode(enc, data, salt, nonce);
            r.Ok? ==> Decode(dec, r.value) == Ok(r.value)
  {
    var r := Encode(enc, data, salt, nonce);
    if r.Ok? {
      assert r.value[..MAGIC_LEN] == MAGIC_ENCRYPTED;
      assert MAGIC_ENCRYPTED[1] != MAGIC_LZ4[1] && MAGIC_ENCRYPTED[1] != MAGIC_ZSTD[1];
    }
  }

  /** Begins like an encrypted object and is long enough for one. */
  predicate LooksEncrypted(data: Bytes)
  {
    MAGIC_ENCRYPTED <= data && |data| >= MAGIC_LEN + SALT_LEN + NONCE_LEN
  }

  /**
   Objects uploaded before a key was configured stay readable afterwards: all compressed ones, and
   of the uncompressed ones those that do not themselves look encrypted.
   */
  lemma KeyAddedLater(enc: BackupConfig, dec: BackupConfig, data: Bytes, salt: Bytes, nonce: Bytes)
    requires LawfulCodecs(enc.codecs) && dec.codecs == enc.codecs && enc.encryptionKey.None?
    requires |salt| == SALT_LEN && |nonce| == NONCE_LEN && Carries(enc, data)
    requires enc.compression.NoCompression? ==> !LooksEncrypted(data)
    ensures var r := Encode(enc, data, salt, nonce);
            r.Ok? ==> Decode(dec, r.value) == Ok(data)
  {
    DecompressCompress(enc.codecs, data, enc.compression);
    var r := Encode(enc, data, salt, nonce);
    if r.Ok? && !enc.compression.NoCompression? {
      assert r.value[..MAGIC_LEN] == MAGIC_LZ4 || r.value[..MAGIC_LEN] == MAGIC_ZSTD;
      assert MAGIC_ENCRYPTED[1] != MAGIC_LZ4[1] && MAGIC_ENCRYPTED[1] != MAGIC_ZSTD[1];
    }
  }

  /** The exception: an uncompressed payload that looks encrypted is taken apart and unsealed. */
  lemma LookalikeUnsealed(cfg: BackupConfig, data: Bytes)
    requires cfg.encryptionKey.Some? && LooksEncrypted(data)
    requires cfg.codecs.deriveKey(cfg.encryptionKey.value, data[4..20]).Ok?
    ensures var key := cfg.codecs.deriveKey(cfg.encryptionKey.value, data[4..20]).value;
            var plain := cfg.codecs.unseal(key, data[20..32], data[32..]);
            Decode(cfg, data) == if plain.Err? then Err(plain.error) else Decompress(cfg.codecs, plain.value)
  {
  }

  /** A manifest survives the pipeline under every lawful configuration. */
  lemma ManifestRoundTrip(cfg: BackupConfig, m: GenerationManifest, salt: Bytes, nonce: Bytes)
    requires Lawful(cfg) && |salt| == SALT_LEN && |nonce| == NONCE_LEN
    ensures var r := Encode(cfg, cfg.formats.toJson(m), salt, nonce);
            r.Ok? ==> DecodeManifest(cfg, r.value) == Some(m)
  {
    var json := cfg.formats.toJson(m);
    assert |json| >= MAGIC_LEN ==> json[..MAGIC_LEN][0] == json[0] == '{' as int;
    RoundTrip(cfg, cfg, json, salt, nonce);
  }
}
