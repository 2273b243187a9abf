/**
 * The per-run settings of the `migrate` subcommand and the per-bucket
 * `BucketMigrationConfiguration` built from them (src/main.rs:80-221).
 * Command-line parsing itself is not modelled: the parsed values are inputs.
 */
module Options {
  import opened Wrappers

  /** Largest value of `usize` on the 64-bit targets the tool is built for. */
  const USIZE_MAX: int := 0xFFFF_FFFF_FFFF_FFFF

  type usize = x: int | 0 <= x <= USIZE_MAX

  /** Bytes per megabyte, as the command counts them (`* 1024 * 1024`). */
  const MIB: nat := 1024 * 1024

  /** 2^64 bytes are 2^44 whole megabytes, so the product wraps at a multiple of 2^44 MB. */
  const WRAP_MB: nat := 0x1000_0000_0000

  /** Largest chunk size in megabytes whose byte count still fits a `usize`. */
  const MAX_CHUNK_SIZE_MB: nat := USIZE_MAX / MIB

  /** The legacy cluster is always the source; it is not a command-line option. */
  const SOURCE_ENDPOINT: string := "cellar.services.clever-cloud.com"

  /** The values of the `migrate` subcommand after parsing and defaulting. */
  datatype MigrateArgs = MigrateArgs(
    sourceBucket: Option<string>,
    sourceAccessKey: string,
    sourceSecretKey: string,
    destinationBucket: Option<string>,
    destinationBucketPrefix: Option<string>,
    destinationAccessKey: string,
    destinationSecretKey: string,
    destinationEndpoint: string,
    threads: usize,
    multipartChunkSizeMb: usize,
    maxKeys: usize,
    executeOccurrences: nat,
    deleteOccurrences: nat)

  /** Configuration errors, detected before any bucket is listed, created or migrated. */
  datatype ConfigError =
    | ChunkSizeOverflow         // the chunk size in bytes does not fit a usize
    | DestinationWithoutSource  // --destination-bucket given without --source-bucket

  /** The values derived once per run and shared by every bucket's configuration. */
  datatype Settings = Settings(
    dryRun: bool,
    chunkSize: usize,
    deleteDestinationFiles: bool,
    prefix: string)

  /** Everything one bucket migration needs; read-only once built. */
  datatype BucketMigrationConfiguration = BucketMigrationConfiguration(
    sourceBucket: string,
    sourceAccessKey: string,
    sourceSecretKey: string,
    sourceEndpoint: string,
    destinationBucket: string,
    destinationAccessKey: string,
    destinationSecretKey: string,
    destinationEndpoint: string,
    deleteDestinationFiles: bool,
    maxKeys: usize,
    chunkSize: usize,
    syncThreads: usize,
    dryRun: bool)

  /**
   * The chunk size as the multiplication is written: `usize` arithmetic,
   * which wraps modulo 2^64 when overflow checks are off (release builds).
   */
  function ChunkSizeAsWritten(mb: usize): (bytes: usize)
    ensures mb * MIB <= USIZE_MAX ==> bytes == mb * MIB
    ensures bytes % MIB == 0 && bytes / MIB == mb % WRAP_MB
  {
    WrappedProduct(mb);
    (mb * MIB) % (USIZE_MAX + 1)
  }

  /** Wrapping `mb * MIB` modulo 2^64 keeps whole megabytes: the result is `mb` modulo 2^44 megabytes. */
  lemma WrappedProduct(mb: nat)
    ensures (mb * MIB) % (USIZE_MAX + 1) == (mb % WRAP_MB) * MIB
  {
    var q, r := mb / WRAP_MB, mb % WRAP_MB;
    assert WRAP_MB * MIB == USIZE_MAX + 1;
    assert mb * MIB == q * (USIZE_MAX + 1) + r * MIB by {
      assert mb == q * WRAP_MB + r;
    }
    assert 0 <= r * MIB < USIZE_MAX + 1;
  }

  /** A chunk size of 2^44 MB wraps to a chunk of zero bytes, and one more megabyte to a single megabyte. */
  lemma ChunkSizeAsWrittenWraps()
    ensures ChunkSizeAsWritten(0x1000_0000_0000) == 0
    ensures ChunkSizeAsWritten(0x1000_0000_0001) == MIB
  {
  }

  /**
   * The chunk size in bytes with the multiplication checked: `None` exactly
   * when the byte count does not fit a `usize`.
   */
  function ChunkSizeBytes(mb: usize): (r: Option<usize>)
    ensures r.Some? <==> mb * MIB <= USIZE_MAX
    ensures r.Some? ==> r.value % MIB == 0 && r.value / MIB == mb
  {
    if mb <= MAX_CHUNK_SIZE_MB then Some(mb * MIB) else None
  }

  /** Wherever the checked chunk size is defined it agrees with the multiplication as written. */
  lemma ChunkSizeBytesAgreesWithWritten(mb: usize)
    requires mb <= MAX_CHUNK_SIZE_MB
    ensures ChunkSizeBytes(mb) == Some(ChunkSizeAsWritten(mb))
  {
  }

  /** The destination prefix: `"<p>-"` when a prefix `p` is given, the empty string otherwise. */
  function EffectivePrefix(prefix: Option<string>): (p: string)
    ensures prefix.None? <==> p == ""
    ensures prefix.Some? ==> p[..|p| - 1] == prefix.value && p[|p| - 1] == '-'
  {
    match prefix
    case Some(v) => v + "-"
    case None => ""
  }

  /** Distinct prefix options never produce the same effective prefix. */
  lemma EffectivePrefixInjective(a: Option<string>, b: Option<string>)
    requires EffectivePrefix(a) == EffectivePrefix(b)
    ensures a == b
  {
    if a.Some? && b.Some? {
      var p := EffectivePrefix(a);
      assert a.value == p[..|p| - 1] == b.value;
    }
  }

  /** Dry-run mode: on exactly when `--execute` was not given. */
  predicate IsDryRun(executeOccurrences: nat) {
    executeOccurrences == 0
  }

  /** Delete mode: on exactly when `--delete` was given at least once. */
  predicate DeletesDestinationFiles(deleteOccurrences: nat) {
    deleteOccurrences > 0
  }

  /** A destination bucket makes no sense unless a single source bucket is named. */
  predicate DestinationWithoutSourceGiven(args: MigrateArgs) {
    args.sourceBucket.None? && args.destinationBucket.Some?
  }

  /**
   * Derives the shared settings, or the configuration error that stops the
   * run; the chunk size is computed before the bucket options are checked.
   */
  function Derive(args: MigrateArgs): (r: Result<Settings, ConfigError>)
    ensures r.Ok? <==>
      args.multipartChunkSizeMb * MIB <= USIZE_MAX
      && !(args.sourceBucket.None? && args.destinationBucket.Some?)
    ensures args.multipartChunkSizeMb * MIB > USIZE_MAX ==> r == Err(ChunkSizeOverflow)
    ensures r.Ok? ==>
      && (r.value.dryRun <==> args.executeOccurrences == 0)
      && (r.value.deleteDestinationFiles <==> args.deleteOccurrences >= 1)
      && r.value.chunkSize == args.multipartChunkSizeMb * MIB
      && (args.destinationBucketPrefix.None? ==> r.value.prefix == "")
      && (args.destinationBucketPrefix.Some? ==> r.value.prefix == args.destinationBucketPrefix.value + "-")
  {
    match ChunkSizeBytes(args.multipartChunkSizeMb)
    case None => Err(ChunkSizeOverflow)
    case Some(chunkSize) =>
      if DestinationWithoutSourceGiven(args) then Err(DestinationWithoutSource)
      else Ok(Settings(
        IsDryRun(args.executeOccurrences),
        chunkSize,
        DeletesDestinationFiles(args.deleteOccurrences),
        EffectivePrefix(args.destinationBucketPrefix)))
  }

  /** The buckets to migrate: the named source bucket alone, or every bucket the source cluster lists. */
  function SelectBuckets(sourceBucket: Option<string>, listed: Result<seq<string>, string>): (r: Result<seq<string>, string>)
    ensures sourceBucket.Some? ==> r.Ok? && |r.value| == 1 && r.value[0] == sourceBucket.value
    ensures sourceBucket.None? ==> r == listed
  {
    match sourceBucket
    case Some(bucket) => Ok([bucket])
    case None => listed
  }

  /**
   * The destination for `bucket` before the prefix is applied; `None` is the
   * panic for a named source bucket among several buckets to migrate.
   */
  function DestinationFor(sourceBucket: Option<string>, destinationBucket: Option<string>,
                          bucketCount: nat, bucket: string): (d: Option<string>)
    ensures d.None? <==> sourceBucket.Some? && bucketCount != 1
    ensures sourceBucket.None? ==> d == Some(bucket)
    ensures d.Some? && destinationBucket.None? ==> d.value == bucket
    ensures d.Some? && sourceBucket.Some? && destinationBucket.Some? ==> d.value == destinationBucket.value
  {
    if sourceBucket.Some? then
      if bucketCount == 1 then Some(destinationBucket.GetOr(bucket)) else None
    else Some(bucket)
  }

  /** The destination bucket name with the prefix applied (`format!("{}{}", prefix, destination)`). */
  function DestinationName(prefix: string, destination: string): (name: string)
    ensures |name| == |prefix| + |destination|
    ensures name[..|prefix|] == prefix && name[|prefix|..] == destination
  {
    prefix + destination
  }

  /** Two destinations under one prefix get the same name only if they are the same destination. */
  lemma DestinationNameInjective(prefix: string, d1: string, d2: string)
    requires DestinationName(prefix, d1) == DestinationName(prefix, d2)
    ensures d1 == d2
  {
    var name := DestinationName(prefix, d1);
    assert d1 == name[|prefix|..] == d2;
  }

  /** The configuration of one bucket migration. */
  function Configure(args: MigrateArgs, settings: Settings, bucket: string, destination: string): (c: BucketMigrationConfiguration)
    ensures c.sourceBucket == bucket
    ensures |c.destinationBucket| == |settings.prefix| + |destination|
    ensures c.destinationBucket[..|settings.prefix|] == settings.prefix
    ensures c.destinationBucket[|settings.prefix|..] == destination
    ensures c.dryRun == settings.dryRun && c.chunkSize == settings.chunkSize
    ensures c.deleteDestinationFiles == settings.deleteDestinationFiles
  {
    BucketMigrationConfiguration(
      bucket,
      args.sourceAccessKey,
      args.sourceSecretKey,
      SOURCE_ENDPOINT,
      DestinationName(settings.prefix, destination),
      args.destinationAccessKey,
      args.destinationSecretKey,
      args.destinationEndpoint,
      settings.deleteDestinationFiles,
      args.maxKeys,
      settings.chunkSize,
      args.threads,
      settings.dryRun)
  }
}
