/**
 The configuration that the modelled code reads, with the code it calls into but which is not
 modelled (codecs, ciphers, JSON, UTF-8, SQLite's reading of a database file) as function fields.
 */
module Config {
  import opened Wrappers
  import opened Manifest
  import opened Replay

  datatype CompressionAlgorithm = NoCompression | Lz4 | Zstd

  /** Library calls behind src/compression_lz4.rs, src/compression_zstd.rs and src/encryption.rs. */
  datatype Codecs = Codecs(
    lz4Compress: Bytes -> Bytes,
    lz4Decompress: Bytes -> Result<Bytes>,
    zstdCompress: Bytes -> Result<Bytes>,
    zstdDecompress: Bytes -> Result<Bytes>,
    deriveKey: (string, Bytes) -> Result<Bytes>,
    seal: (Bytes, Bytes, Bytes) -> Result<Bytes>,
    unseal: (Bytes, Bytes, Bytes) -> Result<Bytes>)

  /** Text formats, and how SQLite sees a database file on its own. */
  datatype Formats = Formats(
    toJson: GenerationManifest -> Bytes,
    fromJson: Bytes -> Option<GenerationManifest>,
    toUtf8: string -> Bytes,
    fromUtf8: Bytes -> Option<string>,
    pager: Bytes -> Db)

  datatype BackupConfig = BackupConfig(
    codecs: Codecs,
    formats: Formats,
    compression: CompressionAlgorithm,
    encryptionKey: Option<string>,
    retentionMs: Option<nat>)

  /** Every codec undoes what it did. */
  ghost predicate LawfulCodecs(c: Codecs)
  {
    && (forall d :: c.lz4Decompress(c.lz4Compress(d)) == Ok(d))
    && (forall d :: c.zstdCompress(d).Ok? ==> c.zstdDecompress(c.zstdCompress(d).value) == Ok(d))
    && (forall k, n, d :: c.seal(k, n, d).Ok? ==> c.unseal(k, n, c.seal(k, n, d).value) == Ok(d))
  }

  /** Text round trips, and a serialised manifest begins with an opening brace. */
  ghost predicate LawfulFormats(f: Formats)
  {
    && (forall m :: f.fromJson(f.toJson(m)) == Some(m))
    && (forall m :: |f.toJson(m)| > 0 && f.toJson(m)[0] == '{' as int)
    && (forall s :: f.fromUtf8(f.toUtf8(s)) == Some(s))
  }

  ghost predicate Lawful(cfg: BackupConfig)
  {
    LawfulCodecs(cfg.codecs) && LawfulFormats(cfg.formats)
  }
}
