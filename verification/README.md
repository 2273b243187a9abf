# cellar-c1-migration-tool: the `migrate` command, modelled in Dafny

The tool copies the buckets of a legacy Cellar (RiakCS, signature v2) add-on to a
Cellar C2 (RadosGW) cluster. Its `migrate` subcommand turns the command-line values
into one `BucketMigrationConfiguration` per bucket and hands each to the bucket migration
engine. It then reports, in a dry run, what would be synchronised and deleted, and, in
every run, the per-bucket errors and the synchronised size.

This project models that command, `migrate_command` in `src/main.rs`, as pure functions:

- `wrappers.dfy` — `Option` and `Result`.
- `options.dfy` (module `Options`) — the parsed arguments (`MigrateArgs`); the run's
  shared settings (`Derive`): dry-run and delete mode from flag occurrence counts, the
  multipart chunk size in bytes, the effective destination prefix, and the
  "destination bucket without source bucket" rejection; bucket selection
  (`SelectBuckets`); destination resolution (`DestinationFor`, `DestinationName`); and
  `Configure`, which builds a `BucketMigrationConfiguration`.
- `aggregate.dfy` (module `Aggregate`) — the per-bucket result, a three-way sum
  (`Ok(stats)`, `BucketMigrationError(stats, errors)`, `OtherError`), stats recovery
  (`AllStats`), flattening of objects (`AllObjects`, `AllObjectsToDelete`), and the three
  totals the command folds (`SynchronizationSize`, `TotalSyncBytes`, `TotalDeleteBytes`).
  Each total is the left fold `Fold` the source writes, proved equal to an
  independent reference sum `Sum`.
- `command.dfy` (module `Command`) — `MigrateCommand`, which takes the parsed
  arguments plus the three external collaborators as inputs: the source cluster's
  bucket listing, whether provisioning the destination buckets succeeds, and the
  per-bucket migration. It returns an `Outcome`: `Rejected`, `ListingFailed`,
  `ProvisioningFailed`, `Panicked` or `Completed(report)`. `ExitCode` maps outcomes to
  process statuses. The lemmas state what a run promises: early rejection,
  bucket selection, one result per bucket in order, destination naming, shared
  settings, dry-run totals and listings, the synchronisation size, and error
  attribution. They also show which panics can fire. The multi-bucket panic and the
  bucket-at-index `expect` never fire. The `unwrap` of a missing key in the listing of
  objects to delete fires in a dry run with `--delete` whenever such an object is
  recovered.

`usize` is taken to be 64 bits wide.

## Model

| member | source | states |
|---|---|---|
| Options.ChunkSizeAsWritten | src/main.rs:90-94 | The chunk size as written (`mb * 1024 * 1024` in `usize`, wrapping as in a release build). It is exact when the product fits. Even when it wraps it is a whole number of megabytes, namely `mb` modulo 2^44. |
| Options.WrappedProduct | src/main.rs:90-94 | The product taken modulo 2^64 equals (`mb` modulo 2^44) megabytes, because 2^64 bytes are exactly 2^44 MiB. |
| Options.ChunkSizeAsWrittenWraps | src/main.rs:90-94 | Counterexample: 2^44 MB gives a zero-byte chunk, and 2^44 + 1 MB gives a one-megabyte chunk. |
| Options.ChunkSizeBytes | src/main.rs:90-94 | Corrected chunk size: defined exactly when MB × 1024 × 1024 fits a `usize`. When defined, it is a whole number of megabytes and dividing it by 1 MiB gives back the MB value. |
| Options.ChunkSizeBytesAgreesWithWritten | src/main.rs:90-94 | Wherever no overflow occurs, the checked chunk size equals the multiplication as written. |
| Options.EffectivePrefix | src/main.rs:107-110 | The effective prefix is empty exactly when no prefix is given. Otherwise it is the given prefix followed by a final `-`. |
| Options.EffectivePrefixInjective | src/main.rs:107-110 | Different prefix options never give the same effective prefix. |
| Options.Derive | src/main.rs:81-124 | Settings are derived exactly when the chunk size fits and no destination bucket is given without a source bucket. Dry-run is on iff `--execute` occurs zero times, delete mode iff `--delete` occurs at least once, the chunk size is MB × 1024 × 1024, and the prefix is `p-` or empty. The overflow error is the corrected behaviour (see Findings). |
| Options.SelectBuckets | src/main.rs:128-148 | A named source bucket gives exactly that one bucket. Otherwise the listing's result, names or error, is passed through unchanged. |
| Options.DestinationFor | src/main.rs:188-198 | Resolution panics exactly when a source bucket is named and the bucket count is not 1. Without a source bucket the destination is the bucket itself. With a source and a destination bucket it is the destination bucket. |
| Options.DestinationName | src/main.rs:212 | The destination name starts with the prefix, and what follows the prefix is exactly the resolved destination. |
| Options.DestinationNameInjective | src/main.rs:212 | Under one prefix, two destinations get the same name only if they are equal. |
| Options.Configure | src/main.rs:207-221 | The configuration migrates the given bucket to the prefix followed by the given destination. It carries the run's dry-run mode, delete mode and chunk size. |
| Aggregate.RecoveredStats | src/main.rs:253-258 | A result carries stats exactly when it is not an other error, and those stats are the result's own. |
| Aggregate.Fold | src/main.rs:321-323 | The accumulating left fold from `acc` equals `acc` plus the independent reference sum `Sum`, for every sequence and size function. |
| Aggregate.SumAppend | src/main.rs:262-272 | A sum over concatenated sequences is the sum of the two sums. |
| Aggregate.AllStats | src/main.rs:251-260 | Recovering stats yields at most one stats value per result. |
| Aggregate.AllStatsAppend | src/main.rs:251-260 | Recovering stats commutes with concatenating results. |
| Aggregate.AllStatsMembership | src/main.rs:251-260 | A stats value is recovered exactly when some result (`Ok` or `BucketMigrationError`) carries it. |
| Aggregate.AllStatsWithoutOtherErrors | src/main.rs:251-260 | If no result is an other error, the i-th recovered stats value is the i-th result's stats. |
| Aggregate.AllObjects | src/main.rs:262-266 | The flattened objects to sync number exactly the per-bucket object counts summed, and every object of every recovered bucket is among them. |
| Aggregate.AllObjectsToDelete | src/main.rs:268-272 | The flattened objects to delete number exactly the per-bucket counts summed, and every object to delete of every recovered bucket is among them. |
| Aggregate.SyncContribution | src/main.rs:370-381 | A result adds its stats' `synchronization_size` to the total when it is `Ok` or a `BucketMigrationError`, and 0 for any other error. |
| Aggregate.DeleteSize | src/main.rs:335 | A destination object's size counts as its size when present and as 0 when missing. |
| Aggregate.SynchronizationSize | src/main.rs:369-382 | The folded synchronisation size equals the sum of `synchronization_size` over the stats of `Ok` and `BucketMigrationError` results. |
| Aggregate.TotalSyncBytes | src/main.rs:321-323 | The dry-run sync byte total equals the sum, over recovered stats, of each bucket's object sizes. |
| Aggregate.TotalDeleteBytes | src/main.rs:333-335 | The dry-run delete byte total is the sum of the known sizes of all objects to delete, and also the per-bucket sum. |
| Aggregate.SyncSumIsStatsSum | src/main.rs:370-381 | Summing each result's contribution equals summing the recovered stats; other errors contribute 0. |
| Aggregate.SynchronizationSizeAppend | src/main.rs:369-382 | The synchronisation size of concatenated results is the sum of the two sizes. |
| Aggregate.SynchronizationSizeIgnoresOtherErrors | src/main.rs:369-382 | Inserting an error without stats leaves the synchronisation size unchanged. |
| Aggregate.AllObjectsAppend | src/main.rs:262-272 | Flattening the objects to sync and to delete distributes over concatenated stats. |
| Aggregate.FlattenedSums | src/main.rs:262-272 | The size sum and the count over the flattened objects equal the per-bucket sums and counts, both for objects to sync and for objects to delete. |
| Aggregate.KnownSizes | src/main.rs:333-335 | The known sizes are never more numerous than the objects. |
| Aggregate.DeleteSizesAreKnownSizes | src/main.rs:333-335 | Summing with a missing size read as 0 equals summing only the sizes that are present. |
| Command.ExitCode | src/main.rs:121-169 | The status is 0 exactly for a completed run and 101 exactly for a panic. It is 1 exactly for a configuration error, a listing error (the `?` at line 143) or a provisioning failure. |
| Command.ProvisionRequestFor | src/main.rs:152-160 | Provisioning receives the destination endpoint and credentials, the destination bucket option unchanged, the effective prefix, the buckets to migrate in order, and the dry-run flag. |
| Command.ProvisioningRequest | src/main.rs:150-169 | Once the arguments are valid and the buckets are selected, the run ends in a provisioning failure (exit 1) exactly when provisioning rejects the request built from the arguments: the destination option as given, the `p-` prefix, the selected buckets, and dry-run iff no `--execute`. |
| Command.Configurations | src/main.rs:188-198 | Configuring panics exactly when a source bucket is named among two or more buckets. Otherwise there is one configuration per bucket, built from bucket i and its resolved destination. |
| Command.MigrateEach | src/main.rs:171-248 | One result per configuration, in order: result i is the migration of configuration i. |
| Command.Details | src/main.rs:353-365 | A successful result reports nothing, a bucket migration error reports each of its object errors, and any other error reports itself once. |
| Command.ErrorLinesFrom | src/main.rs:348-351 | The bucket-at-index lookup fails exactly when results outnumber buckets. |
| Command.ErrorLinesStep | src/main.rs:348-367 | From a given index, the error report is that result's lines followed by the report of the rest. |
| Command.ErrorLineReported | src/main.rs:353-358 | Failure k of result i is reported against bucket i. |
| Command.ErrorLinesComplete | src/main.rs:348-367 | Every object error of a `BucketMigrationError`, and every other error, is reported against its own result's bucket. |
| Command.ErrorLinesSound | src/main.rs:348-367 | Every reported line is a failure of some result i, reported against bucket i. |
| Command.DeleteLinesOf | src/main.rs:301-309 | A bucket's delete listing fails (the `key.unwrap()` at line 306) exactly when one of its objects has no key. Otherwise line i carries the bucket, object i's key and its size, a missing size counting as 0. |
| Command.DeleteBuckets | src/main.rs:299-305 | The reference list of bucket names for the delete listing has one entry per recovered object to delete, in flattened order. |
| Command.DeleteBucketsComplete | src/main.rs:299-312 | Object j to delete of bucket k sits at some flattened position whose bucket name is bucket k's. |
| Command.DeleteBucketsSound | src/main.rs:299-312 | The bucket name at each flattened position is that of a bucket whose stats list the object at that position. |
| Command.DeleteListing | src/main.rs:295-313 | The listing of all recovered objects to delete fails exactly when one of them has no key. Otherwise line i names the bucket that lists object i (`stats.bucket` at line 305), its key and its size. |
| Command.KeysPresentAppend | src/main.rs:299-312 | Every object of a concatenated listing has a key exactly when every object of both parts does, so the listing `unwrap` fails on the whole exactly when it fails on a part. |
| Command.DeleteListingStep | src/main.rs:299-312 | The objects to delete are the first bucket's followed by the rest's, and all have keys exactly when both parts do. |
| Command.DryRunReportOf | src/main.rs:250-344 | The dry-run report fails exactly with `--delete` and a keyless recovered object to delete. Otherwise it gives the recovered stats, the flattened objects to sync and to delete, and the per-bucket sync totals and counts. Each delete-listing line names the bucket that lists its object. The delete listing and delete total appear only with `--delete`; the total sums the known sizes. |
| Command.MigrateCommand | src/main.rs:80-393 | A run can panic only in a dry run with `--delete`. A completed run has one configuration and one result per bucket, and has a dry-run report exactly when `--execute` was not given. |
| Command.CompletedRun | src/main.rs:128-248 | Once configuration, bucket selection and provisioning succeed, the run panics exactly on a keyless object in the dry-run delete listing. Otherwise it completes with one configuration and one migration result per bucket, the dry-run report only in a dry run, the error report and the synchronisation size. |
| Command.ConfigurationErrorsRejectBeforeBucketWork | src/main.rs:121-124 | A destination bucket without a source bucket rejects the run with status 1, whatever the listing, provisioning and migrations would have done. The same holds for the corrected chunk-size overflow error (see Findings), which is reported first. |
| Command.BucketSelection | src/main.rs:128-148 | A named source bucket is the only bucket migrated and the listing is never consulted. Otherwise the listed names are migrated in order, and a listing error ends the run. |
| Command.PanicsOnlyOnKeylessDelete | src/main.rs:188-195 | A run panics exactly when the dry-run delete listing (line 306) meets a keyless object. The "source bucket with several buckets" panic and the bucket-at-index `expect` at lines 349-351 never fire. A run with `--execute` or without `--delete` never panics. |
| Command.KeylessDeleteListingPanics | src/main.rs:295-313 | Example: a dry run with `--delete` of one bucket whose stats list an object to delete without a key ends with a panic and status 101. |
| Command.OneResultPerBucket | src/main.rs:171-247 | A completed run has one configuration and one result per bucket. Configuration i migrates bucket i, and result i is the migration of configuration i. |
| Command.DestinationNamesResolved | src/main.rs:188-212 | Each destination name starts with the effective prefix. After the prefix comes the explicit destination when a source and a destination bucket are named, and otherwise the bucket's own name. |
| Command.DistinctDestinations | src/main.rs:196-212 | When every listed bucket is migrated and the listing has no duplicates, no two buckets share a destination bucket. |
| Command.SharedSettings | src/main.rs:207-221 | Every configuration carries the run's dry-run and delete modes and the chunk size in bytes. It also carries the max-keys, thread count, credentials, endpoints and the fixed source endpoint. |
| Command.DryRunTotals | src/main.rs:250-344 | Only a dry run reports. Its objects to sync and to delete are the flattened lists of the recovered stats. The sync total and count sum each recovered bucket's objects. The delete listing and delete total exist only with `--delete`. The listing gives the bucket, key and size of each object, and the total sums the known sizes, a missing size counting as 0. |
| Command.SynchronizationSizeReported | src/main.rs:369-382 | The reported synchronisation size sums the stats of every result that has them. |
| Command.ErrorsReportedPerBucket | src/main.rs:348-367 | In a completed run, each failure of result i is reported against bucket i, and every reported line is such a failure. |
| Command.ExitCodeIgnoresBucketFailures | src/main.rs:348-392 | Per-bucket results change the exit status only through the keyless-delete panic. The status is 0 exactly when configuration, bucket selection and provisioning succeed and that panic does not happen. With `--execute` or without `--delete`, the results never change it. |

## Left out

- Command-line parsing, defaults and help text (src/main.rs:31-76): the parsed values are the inputs of `MigrateArgs`. A value that fails to parse as a number, which `expect` turns into a panic, is not modelled.
- Logging (`tracing` setup and every `event!`): `Outcome` keeps the values the command reports. `ErrorLine` keeps the per-bucket error lines and `DeleteLine` the dry-run delete listing. Formatting, `ByteSize` rendering and the "need to be sync" text lines are not modelled.
- Command.MigrateCommand: assumes the INFO level is enabled, as the default filter `info` (src/main.rs:22-24) has it. The `event!` arguments of the delete listing, and with them the `key.unwrap()` at src/main.rs:306, are evaluated only then. A filter that silences INFO would make that run complete instead of panicking.
- The source cluster's `list_buckets` network call: its result is the `listBuckets` input.
- `create_destination_buckets` and `migrate_bucket` live in the `migrate` module, which is not part of this model. They are the `provision` and `migrate` function inputs. Only their arguments and how their results are used are modelled. As pure functions, they cannot model effects between calls. Two equal configurations (a listing that names a bucket twice) therefore get equal results, whereas the second real migration would see the writes of the first.
- `std::process::exit` and panics are outcomes (`Rejected`, `ProvisioningFailed`, `Panicked`) with the exit status `ExitCode` assigns.
- Wall-clock timing and the floating-point throughput division (src/main.rs:126, 346, 384-390).
- `anyhow` downcasting: replaced by the three constructors of `MigrationResult`.
- Options.Derive: an overflowing chunk size (2^44 MB or more) yields `ChunkSizeOverflow`. That is the corrected behaviour, not the source's. A release build wraps to a 0-byte or small chunk and carries on (Options.ChunkSizeAsWritten), and a debug build panics at src/main.rs:93 with status 101.
- Command.ConfigurationErrorsRejectBeforeBucketWork: rejection with status 1 on an overflowing chunk size follows the corrected Options.Derive. The source instead wraps (release) or panics with status 101 (debug). The rejection of a destination bucket without a source bucket is the source's own.
- Aggregate.Fold: the totals are unbounded naturals. The `u64` accumulators of the dry-run totals and the integer type of `synchronization_size` could in principle overflow, and that is not modelled.
- Aggregate.ObjectSize: object sizes are naturals, so the `as u64` cast of a negative size is not modelled.

## Findings

| source | as written | input that shows it | evidently intended | confidence | as-written member | corrected member |
|---|---|---|---|---|---|---|
| src/main.rs:90-94 | `value_of_t::<usize>(...) * 1024 * 1024` is unchecked `usize` arithmetic. A release build wraps it, so a huge megabyte count yields a tiny or zero chunk size. | `--multipart-chunk-size-mb 17592186044416` (2^44) gives a chunk size of 0 bytes | reject a chunk size whose byte count does not fit a `usize` | low; not executed | Options.ChunkSizeAsWritten (shown by Options.ChunkSizeAsWrittenWraps) | Options.ChunkSizeBytes (used by Options.Derive, which yields `ChunkSizeOverflow`) |
