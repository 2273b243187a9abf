/**
 * The `migrate` command (src/main.rs:80-393) as a function of its parsed
 * arguments and of the three external collaborators it calls: the source
 * cluster's bucket listing, the destination bucket provisioning, and the
 * per-bucket migration. Logging, timing and process exit are folded into
 * the returned `Outcome`.
 */
module Command {
  import opened Wrappers
  import opened Options
  import opened Aggregate

  /** The arguments handed to the destination bucket provisioning step. */
  datatype ProvisionRequest = ProvisionRequest(
    destinationEndpoint: string,
    destinationAccessKey: string,
    destinationSecretKey: string,
    destinationBucket: Option<string>,
    prefix: string,
    buckets: seq<string>,
    dryRun: bool)

  /** One entry of the dry-run listing of objects to delete: bucket, key and size. */
  datatype DeleteLine = DeleteLine(bucket: string, key: string, size: nat)

  /**
   * What a dry run reports: the recovered stats, every object that needs to
   * be synchronised and its byte total, every object to delete, and, only
   * when `--delete` is given, the listing of those objects and their byte total.
   */
  datatype DryRunReport = DryRunReport(
    stats: seq<BucketMigrationStats>,
    objectsToSync: seq<ObjectContents>,
    totalSyncBytes: nat,
    objectsToDelete: seq<S3Object>,
    deleteListing: Option<seq<DeleteLine>>,
    totalDeleteBytes: Option<nat>)

  /** One reported failure, attributed to the bucket it happened in. */
  datatype ErrorLine = ErrorLine(bucket: string, detail: string)

  /** Everything a completed run produced. */
  datatype Report = Report(
    buckets: seq<string>,
    configurations: seq<BucketMigrationConfiguration>,
    results: seq<MigrationResult>,
    dryRunReport: Option<DryRunReport>,
    errorLines: seq<ErrorLine>,
    synchronizationSize: nat)

  /** How a run ends. */
  datatype Outcome =
    | Rejected(reason: ConfigError)  // configuration error: exit(1) before any bucket work
    | ListingFailed(cause: string)   // the source bucket listing failed: the error leaves `main`
    | ProvisioningFailed             // destination buckets could not be created: exit(1)
    | Panicked                       // a `panic!`, a failed `expect` or `unwrap`
    | Completed(report: Report)

  /** The process exit status of an outcome: 0 on completion, 101 on a panic, 1 on every other early end. */
  function ExitCode(o: Outcome): (code: int)
    ensures code == 0 <==> o.Completed?
    ensures code == 101 <==> o.Panicked?
    ensures code == 1 <==> o.Rejected? || o.ListingFailed? || o.ProvisioningFailed?
  {
    match o
    case Completed(_) => 0
    case Panicked => 101
    case _ => 1
  }

  /**
   * What the provisioning step receives: the destination cluster and its
   * credentials, the destination bucket option unchanged, the effective
   * prefix, the buckets to migrate in order, and whether the run is dry.
   */
  function ProvisionRequestFor(args: MigrateArgs, settings: Settings, buckets: seq<string>): (req: ProvisionRequest)
    ensures req.destinationEndpoint == args.destinationEndpoint
    ensures req.destinationAccessKey == args.destinationAccessKey && req.destinationSecretKey == args.destinationSecretKey
    ensures req.destinationBucket == args.destinationBucket
    ensures req.prefix == settings.prefix
    ensures req.buckets == buckets
    ensures req.dryRun == settings.dryRun
  {
    ProvisionRequest(
      args.destinationEndpoint,
      args.destinationAccessKey,
      args.destinationSecretKey,
      args.destinationBucket,
      settings.prefix,
      buckets,
      settings.dryRun)
  }

  /** The destination a bucket resolves to before the prefix: the explicit destination of a named source bucket, or the bucket itself. */
  function ResolvedDestination(args: MigrateArgs, bucket: string): string {
    if args.sourceBucket.Some? && args.destinationBucket.Some? then args.destinationBucket.value else bucket
  }

  /**
   * The configuration of every bucket, in bucket order, or `None` when
   * resolving a destination panics: a named source bucket among two or more
   * buckets to migrate.
   */
  function Configurations(args: MigrateArgs, settings: Settings, buckets: seq<string>): (r: Option<seq<BucketMigrationConfiguration>>)
    ensures r.None? <==> args.sourceBucket.Some? && |buckets| >= 2
    ensures r.Some? ==> |r.value| == |buckets|
    ensures r.Some? ==> forall i :: 0 <= i < |buckets| ==>
      r.value[i] == Configure(args, settings, buckets[i], ResolvedDestination(args, buckets[i]))
  {
    if forall b | b in buckets :: DestinationFor(args.sourceBucket, args.destinationBucket, |buckets|, b).Some? then
      assert |buckets| >= 2 ==> DestinationFor(args.sourceBucket, args.destinationBucket, |buckets|, buckets[0]).Some?;
      Some(seq(|buckets|, i requires 0 <= i < |buckets| =>
        Configure(args, settings, buckets[i],
          DestinationFor(args.sourceBucket, args.destinationBucket, |buckets|, buckets[i]).value)))
    else None
  }

  /** `Vec::get`: the bucket at `index`, if there is one. */
  function BucketAt(buckets: seq<string>, index: nat): Option<string> {
    if index < |buckets| then Some(buckets[index]) else None
  }

  /** The failures one result reports: each object error of a bucket migration error, or the error itself. */
  function Details(r: MigrationResult): (details: seq<string>)
    ensures r.Ok? ==> details == []
    ensures r.BucketMigrationError? ==> details == r.errors
    ensures r.OtherError? ==> |details| == 1 && details[0] == r.message
  {
    match r
    case Ok(_) => []
    case BucketMigrationError(_, errors) => errors
    case OtherError(message) => [message]
  }

  function LinesFor(bucket: string, r: MigrationResult): seq<ErrorLine> {
    seq(|Details(r)|, k requires 0 <= k < |Details(r)| => ErrorLine(bucket, Details(r)[k]))
  }

  /**
   * The error report for results from `index` on; `None` when a result has
   * no bucket at its index (the failed `expect`), which happens exactly when
   * results outnumber buckets.
   */
  function ErrorLinesFrom(buckets: seq<string>, results: seq<MigrationResult>, index: nat): (r: Option<seq<ErrorLine>>)
    requires index <= |results|
    ensures r.Some? <==> index == |results| || |results| <= |buckets|
    decreases |results| - index
  {
    if index == |results| then Some([])
    else
      match BucketAt(buckets, index)
      case None => None
      case Some(bucket) =>
        match ErrorLinesFrom(buckets, results, index + 1)
        case None => None
        case Some(rest) => Some(LinesFor(bucket, results[index]) + rest)
  }

  /** Every object in `objs` has a key. */
  predicate AllKeysPresent(objs: seq<S3Object>) {
    forall i :: 0 <= i < |objs| ==> objs[i].key.Some?
  }

  /**
   * The listing of one bucket's objects to delete; `None` when an object has
   * no key, where the source's `key.unwrap()` panics.
   */
  function DeleteLinesOf(bucket: string, objs: seq<S3Object>): (r: Option<seq<DeleteLine>>)
    ensures r.Some? <==> AllKeysPresent(objs)
    ensures r.Some? ==> |r.value| == |objs| && forall i :: 0 <= i < |objs| ==>
      r.value[i] == DeleteLine(bucket, objs[i].key.value, DeleteSize(objs[i]))
    decreases |objs|
  {
    if objs == [] then Some([])
    else if objs[0].key.None? then None
    else
      match DeleteLinesOf(bucket, objs[1..])
      case None => None
      case Some(rest) => Some([DeleteLine(bucket, objs[0].key.value, DeleteSize(objs[0]))] + rest)
  }

  /**
   * The bucket of every recovered object to delete, in the order of
   * `AllObjectsToDelete`: each bucket's name repeated once per object it lists.
   */
  function DeleteBuckets(stats: seq<BucketMigrationStats>): (names: seq<string>)
    ensures |names| == |AllObjectsToDelete(stats)|
    decreases |stats|
  {
    if stats == [] then []
    else seq(|stats[0].objectsToDelete|, _ => stats[0].bucket) + DeleteBuckets(stats[1..])
  }

  /** Object j to delete of bucket k sits at some flattened position i, which names bucket k. */
  lemma {:induction false} DeleteBucketsComplete(stats: seq<BucketMigrationStats>, k: nat, j: nat) returns (i: nat)
    requires k < |stats| && j < |stats[k].objectsToDelete|
    ensures i < |AllObjectsToDelete(stats)|
    ensures AllObjectsToDelete(stats)[i] == stats[k].objectsToDelete[j]
    ensures DeleteBuckets(stats)[i] == stats[k].bucket
    decreases |stats|
  {
    var a := stats[0].objectsToDelete;
    if k == 0 {
      i := j;
    } else {
      var i' := DeleteBucketsComplete(stats[1..], k - 1, j);
      i := |a| + i';
    }
  }

  /** Flattened position i names the bucket of some stats value that lists the object at i. */
  lemma {:induction false} DeleteBucketsSound(stats: seq<BucketMigrationStats>, i: nat) returns (k: nat, j: nat)
    requires i < |AllObjectsToDelete(stats)|
    ensures k < |stats| && j < |stats[k].objectsToDelete|
    ensures AllObjectsToDelete(stats)[i] == stats[k].objectsToDelete[j]
    ensures DeleteBuckets(stats)[i] == stats[k].bucket
    decreases |stats|
  {
    var a := stats[0].objectsToDelete;
    if i < |a| {
      k, j := 0, i;
    } else {
      var k', j' := DeleteBucketsSound(stats[1..], i - |a|);
      k, j := k' + 1, j';
    }
  }

  /**
   * The dry-run listing of every recovered object to delete, bucket after
   * bucket; `None` exactly when one of them has no key. Line i names the
   * bucket that lists object i, its key and its size.
   */
  function DeleteListing(stats: seq<BucketMigrationStats>): (r: Option<seq<DeleteLine>>)
    ensures r.Some? <==> AllKeysPresent(AllObjectsToDelete(stats))
    ensures r.Some? ==> |r.value| == |AllObjectsToDelete(stats)| && forall i :: 0 <= i < |r.value| ==>
      && r.value[i].bucket == DeleteBuckets(stats)[i]
      && AllObjectsToDelete(stats)[i].key == Some(r.value[i].key)
      && r.value[i].size == DeleteSize(AllObjectsToDelete(stats)[i])
    decreases |stats|
  {
    if stats == [] then Some([])
    else
      var here := DeleteLinesOf(stats[0].bucket, stats[0].objectsToDelete);
      var rest := DeleteListing(stats[1..]);
      DeleteListingStep(stats);
      if here.None? || rest.None? then None else Some(here.value + rest.value)
  }

  /** Keys are present in a concatenation exactly when they are present in both parts. */
  lemma KeysPresentAppend(a: seq<S3Object>, b: seq<S3Object>)
    ensures AllKeysPresent(a + b) <==> AllKeysPresent(a) && AllKeysPresent(b)
  {
    if AllKeysPresent(a) && AllKeysPresent(b) {
      forall i | 0 <= i < |a + b| ensures (a + b)[i].key.Some? {
        if i >= |a| {
          assert (a + b)[i] == b[i - |a|];
        }
      }
    }
    if AllKeysPresent(a + b) {
      forall i | 0 <= i < |a| ensures a[i].key.Some? {
        assert (a + b)[i] == a[i];
      }
      forall i | 0 <= i < |b| ensures b[i].key.Some? {
        assert (a + b)[|a| + i] == b[i];
      }
    }
  }

  /** The objects to delete split into the first bucket's and the rest, and keys are present in the whole exactly when in both parts. */
  lemma DeleteListingStep(stats: seq<BucketMigrationStats>)
    requires stats != []
    ensures AllObjectsToDelete(stats) == stats[0].objectsToDelete + AllObjectsToDelete(stats[1..])
    ensures AllKeysPresent(AllObjectsToDelete(stats)) <==>
      AllKeysPresent(stats[0].objectsToDelete) && AllKeysPresent(AllObjectsToDelete(stats[1..]))
  {
    KeysPresentAppend(stats[0].objectsToDelete, AllObjectsToDelete(stats[1..]));
  }

  /**
   * The dry-run report of a run's results; `None` when listing the objects
   * to delete panics. The totals are the per-bucket sums of the recovered
   * stats, and the delete listing and total exist only with `--delete`.
   */
  function DryRunReportOf(results: seq<MigrationResult>, deleteDestinationFiles: bool): (r: Option<DryRunReport>)
    ensures r.None? <==> deleteDestinationFiles && !AllKeysPresent(AllObjectsToDelete(AllStats(results)))
    ensures r.Some? ==>
      var d := r.value;
      && d.stats == AllStats(results)
      && d.objectsToSync == AllObjects(d.stats)
      && |d.objectsToSync| == Sum(d.stats, ObjectCount)
      && d.totalSyncBytes == Sum(d.stats, BucketSyncBytes)
      && d.objectsToDelete == AllObjectsToDelete(d.stats)
      && |d.objectsToDelete| == Sum(d.stats, DeleteCount)
      && (d.deleteListing.Some? <==> deleteDestinationFiles)
      && (d.deleteListing.Some? ==>
            && |d.deleteListing.value| == |d.objectsToDelete|
            && forall i :: 0 <= i < |d.objectsToDelete| ==>
                 && d.deleteListing.value[i].bucket == DeleteBuckets(d.stats)[i]
                 && d.objectsToDelete[i].key == Some(d.deleteListing.value[i].key)
                 && d.deleteListing.value[i].size == DeleteSize(d.objectsToDelete[i]))
      && (d.totalDeleteBytes.Some? <==> deleteDestinationFiles)
      && (d.totalDeleteBytes.Some? ==>
            && d.totalDeleteBytes.value == Sum(d.stats, BucketDeleteBytes)
            && d.totalDeleteBytes.value == Sum(KnownSizes(d.objectsToDelete), Id))
  {
    var stats := AllStats(results);
    FlattenedSums(stats);
    if deleteDestinationFiles && DeleteListing(stats).None? then None
    else Some(DryRunReport(
      stats,
      AllObjects(stats),
      TotalSyncBytes(stats),
      AllObjectsToDelete(stats),
      if deleteDestinationFiles then DeleteListing(stats) else None,
      if deleteDestinationFiles then Some(TotalDeleteBytes(stats)) else None))
  }

  /** The loop over the buckets: migrate each configuration in turn, collecting one result per configuration. */
  function MigrateEach(configurations: seq<BucketMigrationConfiguration>,
                       migrate: BucketMigrationConfiguration -> MigrationResult): (results: seq<MigrationResult>)
    ensures |results| == |configurations|
    ensures forall i :: 0 <= i < |configurations| ==> results[i] == migrate(configurations[i])
    decreases |configurations|
  {
    if configurations == [] then [] else [migrate(configurations[0])] + MigrateEach(configurations[1..], migrate)
  }

  /**
   * The `migrate` command. `listBuckets` is what the source cluster's bucket
   * listing returns, `provision` whether creating the destination buckets
   * succeeds, and `migrate` the result of migrating one bucket.
   */
  function MigrateCommand(args: MigrateArgs,
                          listBuckets: Result<seq<string>, string>,
                          provision: ProvisionRequest -> bool,
                          migrate: BucketMigrationConfiguration -> MigrationResult): (o: Outcome)
    ensures o.Panicked? ==> args.executeOccurrences == 0 && args.deleteOccurrences >= 1
    ensures o.Completed? ==>
      && |o.report.configurations| == |o.report.buckets|
      && |o.report.results| == |o.report.buckets|
      && (o.report.dryRunReport.Some? <==> args.executeOccurrences == 0)
  {
    match Derive(args)
    case Err(error) => Rejected(error)
    case Ok(settings) =>
      match SelectBuckets(args.sourceBucket, listBuckets)
      case Err(error) => ListingFailed(error)
      case Ok(buckets) =>
        if !provision(ProvisionRequestFor(args, settings, buckets)) then ProvisioningFailed
        else
          match Configurations(args, settings, buckets)
          case None => Panicked
          case Some(configurations) =>
            var results := MigrateEach(configurations, migrate);
            if settings.dryRun && DryRunReportOf(results, settings.deleteDestinationFiles).None? then Panicked
            else
              var dryRunReport := if settings.dryRun then DryRunReportOf(results, settings.deleteDestinationFiles) else None;
              match ErrorLinesFrom(buckets, results, 0)
              case None => Panicked
              case Some(errorLines) =>
                Completed(Report(buckets, configurations, results, dryRunReport, errorLines, SynchronizationSize(results)))
  }

  /** The result of migrating every bucket, in bucket order. */
  function BucketResults(args: MigrateArgs, settings: Settings, buckets: seq<string>,
                         migrate: BucketMigrationConfiguration -> MigrationResult): seq<MigrationResult>
  {
    seq(|buckets|, i requires 0 <= i < |buckets| => migrate(Configure(args, settings, buckets[i], ResolvedDestination(args, buckets[i]))))
  }

  /** Configuration, bucket selection and provisioning all succeed, so the buckets are migrated. */
  predicate ReachesMigration(args: MigrateArgs, listBuckets: Result<seq<string>, string>, provision: ProvisionRequest -> bool) {
    && Derive(args).Ok?
    && SelectBuckets(args.sourceBucket, listBuckets).Ok?
    && provision(ProvisionRequestFor(args, Derive(args).value, SelectBuckets(args.sourceBucket, listBuckets).value))
  }

  /**
   * The buckets are migrated, and the dry-run listing of objects to delete
   * meets a recovered object to delete that has no key.
   */
  predicate DeleteListingPanics(args: MigrateArgs, listBuckets: Result<seq<string>, string>,
                                provision: ProvisionRequest -> bool,
                                migrate: BucketMigrationConfiguration -> MigrationResult)
  {
    && ReachesMigration(args, listBuckets, provision)
    && var settings := Derive(args).value;
       var buckets := SelectBuckets(args.sourceBucket, listBuckets).value;
       && settings.dryRun
       && settings.deleteDestinationFiles
       && !AllKeysPresent(AllObjectsToDelete(AllStats(BucketResults(args, settings, buckets, migrate))))
  }

  /** The report from `index` on is the lines of result `index` followed by the rest. */
  lemma ErrorLinesStep(buckets: seq<string>, results: seq<MigrationResult>, index: nat)
    requires |results| <= |buckets|
    requires index < |results|
    ensures ErrorLinesFrom(buckets, results, index).Some?
    ensures ErrorLinesFrom(buckets, results, index + 1).Some?
    ensures ErrorLinesFrom(buckets, results, index).value
      == LinesFor(buckets[index], results[index]) + ErrorLinesFrom(buckets, results, index + 1).value
  {
  }

  /** Failure `k` of result `i` is reported against bucket `i` in the report from any `index <= i` on. */
  lemma {:induction false} ErrorLineReported(buckets: seq<string>, results: seq<MigrationResult>, index: nat, i: nat, k: nat)
    requires |results| <= |buckets|
    requires index <= i < |results|
    requires k < |Details(results[i])|
    ensures ErrorLinesFrom(buckets, results, index).Some?
    ensures ErrorLine(buckets[i], Details(results[i])[k]) in ErrorLinesFrom(buckets, results, index).value
    decreases i - index
  {
    ErrorLinesStep(buckets, results, index);
    if index == i {
      var here := LinesFor(buckets[i], results[i]);
      assert here[k] == ErrorLine(buckets[i], Details(results[i])[k]);
    } else {
      ErrorLineReported(buckets, results, index + 1, i, k);
    }
  }

  /** Each failure of result `i` is reported against bucket `i`. */
  lemma ErrorLinesComplete(buckets: seq<string>, results: seq<MigrationResult>)
    requires |results| <= |buckets|
    ensures ErrorLinesFrom(buckets, results, 0).Some?
    ensures forall i, k :: 0 <= i < |results| && 0 <= k < |Details(results[i])| ==>
      ErrorLine(buckets[i], Details(results[i])[k]) in ErrorLinesFrom(buckets, results, 0).value
  {
    forall i, k | 0 <= i < |results| && 0 <= k < |Details(results[i])|
      ensures ErrorLine(buckets[i], Details(results[i])[k]) in ErrorLinesFrom(buckets, results, 0).value
    {
      ErrorLineReported(buckets, results, 0, i, k);
    }
  }

  /** Every reported line (from `index` on) is a failure of some result `i`, reported against bucket `i`. */
  lemma {:induction false} ErrorLinesSound(buckets: seq<string>, results: seq<MigrationResult>, index: nat)
    requires |results| <= |buckets|
    requires index <= |results|
    ensures ErrorLinesFrom(buckets, results, index).Some?
    ensures forall line :: line in ErrorLinesFrom(buckets, results, index).value ==>
      exists i :: index <= i < |results| && line.bucket == buckets[i] && line.detail in Details(results[i])
    decreases |results| - index
  {
    if index < |results| {
      ErrorLinesSound(buckets, results, index + 1);
      ErrorLinesStep(buckets, results, index);
      var rest := ErrorLinesFrom(buckets, results, index + 1).value;
      var here := LinesFor(buckets[index], results[index]);
      forall line: ErrorLine | line in here + rest
        ensures exists i :: index <= i < |results| && line.bucket == buckets[i] && line.detail in Details(results[i])
      {
        if line in here {
          var k :| 0 <= k < |here| && here[k] == line;
          assert line.bucket == buckets[index] && line.detail in Details(results[index]);
        } else {
          assert line in rest;
        }
      }
    }
  }

  /**
   * The shape of a run that reaches migration: it panics exactly when the
   * dry-run delete listing meets a keyless object, and otherwise completes
   * with one configuration and one result per bucket.
   */
  lemma CompletedRun(args: MigrateArgs,
                     listBuckets: Result<seq<string>, string>,
                     provision: ProvisionRequest -> bool,
                     migrate: BucketMigrationConfiguration -> MigrationResult)
    requires ReachesMigration(args, listBuckets, provision)
    ensures var o := MigrateCommand(args, listBuckets, provision, migrate);
      var settings := Derive(args).value;
      var buckets := SelectBuckets(args.sourceBucket, listBuckets).value;
      && (o.Panicked? <==> DeleteListingPanics(args, listBuckets, provision, migrate))
      && (!o.Panicked? ==> o.Completed?)
      && (o.Completed? ==>
            && o.report.buckets == buckets
            && |o.report.configurations| == |buckets|
            && o.report.results == BucketResults(args, settings, buckets, migrate)
            && (forall i :: 0 <= i < |buckets| ==>
                  && o.report.configurations[i] == Configure(args, settings, buckets[i], ResolvedDestination(args, buckets[i]))
                  && o.report.results[i] == migrate(o.report.configurations[i]))
            && o.report.dryRunReport == (if settings.dryRun then DryRunReportOf(o.report.results, settings.deleteDestinationFiles) else None)
            && ErrorLinesFrom(buckets, o.report.results, 0) == Some(o.report.errorLines)
            && o.report.synchronizationSize == SynchronizationSize(o.report.results))
  {
    var settings := Derive(args).value;
    var buckets := SelectBuckets(args.sourceBucket, listBuckets).value;
    var configurations := Configurations(args, settings, buckets).value;
    var results := MigrateEach(configurations, migrate);
    assert results == BucketResults(args, settings, buckets, migrate);
  }

  /**
   * A configuration error (a destination bucket without a source bucket, or
   * a chunk size that does not fit) rejects the run before any bucket is
   * listed, created or migrated: the outcome does not depend on what those
   * steps would have done.
   */
  lemma ConfigurationErrorsRejectBeforeBucketWork(args: MigrateArgs,
                                                  listBuckets: Result<seq<string>, string>,
                                                  provision: ProvisionRequest -> bool,
                                                  migrate: BucketMigrationConfiguration -> MigrationResult,
                                                  listBuckets': Result<seq<string>, string>,
                                                  provision': ProvisionRequest -> bool,
                                                  migrate': BucketMigrationConfiguration -> MigrationResult)
    ensures var o := MigrateCommand(args, listBuckets, provision, migrate);
      && (o.Rejected? <==> args.multipartChunkSizeMb * MIB > USIZE_MAX || (args.sourceBucket.None? && args.destinationBucket.Some?))
      && (o.Rejected? ==> o == MigrateCommand(args, listBuckets', provision', migrate') && ExitCode(o) == 1)
      && (o.Rejected? ==> (o.reason == DestinationWithoutSource <==> args.multipartChunkSizeMb * MIB <= USIZE_MAX))
  {
  }

  /**
   * Once the arguments are valid and the buckets are selected, the run stops
   * with a provisioning failure exactly when provisioning rejects this
   * request: the destination cluster, its credentials and the destination
   * bucket option as given, the effective prefix, the selected buckets in
   * order, and dry-run mode exactly when `--execute` is absent.
   */
  lemma ProvisioningRequest(args: MigrateArgs,
                            listBuckets: Result<seq<string>, string>,
                            provision: ProvisionRequest -> bool,
                            migrate: BucketMigrationConfiguration -> MigrationResult)
    requires Derive(args).Ok? && SelectBuckets(args.sourceBucket, listBuckets).Ok?
    ensures MigrateCommand(args, listBuckets, provision, migrate).ProvisioningFailed? <==>
      !provision(ProvisionRequest(
        args.destinationEndpoint,
        args.destinationAccessKey,
        args.destinationSecretKey,
        args.destinationBucket,
        EffectivePrefix(args.destinationBucketPrefix),
        SelectBuckets(args.sourceBucket, listBuckets).value,
        args.executeOccurrences == 0))
  {
  }

  /**
   * A named source bucket is the only bucket migrated and the source
   * listing is never consulted; otherwise the listed buckets are migrated
   * in listing order, and a listing failure ends the run.
   */
  lemma BucketSelection(args: MigrateArgs,
                        listBuckets: Result<seq<string>, string>,
                        provision: ProvisionRequest -> bool,
                        migrate: BucketMigrationConfiguration -> MigrationResult,
                        listBuckets': Result<seq<string>, string>)
    ensures var o := MigrateCommand(args, listBuckets, provision, migrate);
      && (args.sourceBucket.Some? ==> o == MigrateCommand(args, listBuckets', provision, migrate))
      && (o.Completed? && args.sourceBucket.Some? ==> o.report.buckets == [args.sourceBucket.value])
      && (o.Completed? && args.sourceBucket.None? ==> listBuckets.Ok? && o.report.buckets == listBuckets.value)
      && (Derive(args).Ok? && args.sourceBucket.None? && listBuckets.Err? ==> o == ListingFailed(listBuckets.error))
  {
    var o := MigrateCommand(args, listBuckets, provision, migrate);
    if o.Completed? {
      CompletedRun(args, listBuckets, provision, migrate);
    }
  }

  /**
   * The only panic a run can reach is the `unwrap` of a missing key in the
   * dry-run listing of objects to delete: the multi-bucket panic and the
   * bucket-at-index `expect` never fire, and a run with `--execute` or
   * without `--delete` never panics.
   */
  lemma PanicsOnlyOnKeylessDelete(args: MigrateArgs,
                                  listBuckets: Result<seq<string>, string>,
                                  provision: ProvisionRequest -> bool,
                                  migrate: BucketMigrationConfiguration -> MigrationResult)
    ensures MigrateCommand(args, listBuckets, provision, migrate) == Panicked <==>
      DeleteListingPanics(args, listBuckets, provision, migrate)
    ensures args.executeOccurrences > 0 || args.deleteOccurrences == 0 ==>
      MigrateCommand(args, listBuckets, provision, migrate) != Panicked
  {
    if ReachesMigration(args, listBuckets, provision) {
      CompletedRun(args, listBuckets, provision, migrate);
    }
  }

  /**
   * A dry run with `--delete` of one named bucket whose stats list an object
   * to delete without a key panics (exit status 101) instead of completing.
   */
  lemma KeylessDeleteListingPanics(args: MigrateArgs, listBuckets: Result<seq<string>, string>)
    requires args.sourceBucket == Some("b") && args.destinationBucket.None?
    requires args.multipartChunkSizeMb == 100
    requires args.executeOccurrences == 0 && args.deleteOccurrences == 1
    ensures var o := MigrateCommand(args, listBuckets, _ => true,
                                    _ => MigrationResult.Ok(BucketMigrationStats("b", [], [S3Object(None, Some(5))], 0)));
      o == Panicked && ExitCode(o) == 101
  {
    var migrate: BucketMigrationConfiguration -> MigrationResult :=
      _ => MigrationResult.Ok(BucketMigrationStats("b", [], [S3Object(None, Some(5))], 0));
    var settings := Derive(args).value;
    var results := BucketResults(args, settings, ["b"], migrate);
    assert AllStats(results) == [BucketMigrationStats("b", [], [S3Object(None, Some(5))], 0)] by {
      assert results[1..] == [];
    }
    assert AllObjectsToDelete(AllStats(results))[0].key.None?;
    PanicsOnlyOnKeylessDelete(args, listBuckets, _ => true, migrate);
  }

  /** A completed run has one configuration and one result per bucket, in bucket order. */
  lemma OneResultPerBucket(args: MigrateArgs,
                           listBuckets: Result<seq<string>, string>,
                           provision: ProvisionRequest -> bool,
                           migrate: BucketMigrationConfiguration -> MigrationResult)
    ensures var o := MigrateCommand(args, listBuckets, provision, migrate);
      o.Completed? ==>
        && |o.report.configurations| == |o.report.buckets|
        && |o.report.results| == |o.report.buckets|
        && forall i :: 0 <= i < |o.report.buckets| ==>
             && o.report.configurations[i].sourceBucket == o.report.buckets[i]
             && o.report.results[i] == migrate(o.report.configurations[i])
  {
    var o := MigrateCommand(args, listBuckets, provision, migrate);
    if o.Completed? {
      CompletedRun(args, listBuckets, provision, migrate);
    }
  }

  /**
   * Every bucket's destination is the effective prefix followed by the
   * explicit destination (when a source bucket and a destination are named)
   * or by the source bucket's own name.
   */
  lemma DestinationNamesResolved(args: MigrateArgs,
                                 listBuckets: Result<seq<string>, string>,
                                 provision: ProvisionRequest -> bool,
                                 migrate: BucketMigrationConfiguration -> MigrationResult)
    ensures var o := MigrateCommand(args, listBuckets, provision, migrate);
      o.Completed? ==> forall i :: 0 <= i < |o.report.buckets| ==>
        var name := o.report.configurations[i].destinationBucket;
        var prefix := EffectivePrefix(args.destinationBucketPrefix);
        && name[..|prefix|] == prefix
        && (args.sourceBucket.Some? && args.destinationBucket.Some? ==> name[|prefix|..] == args.destinationBucket.value)
        && (args.destinationBucket.None? ==> name[|prefix|..] == o.report.buckets[i])
  {
    var o := MigrateCommand(args, listBuckets, provision, migrate);
    if o.Completed? {
      CompletedRun(args, listBuckets, provision, migrate);
    }
  }

  /** When every bucket is migrated and the listing names no bucket twice, no two buckets share a destination. */
  lemma DistinctDestinations(args: MigrateArgs,
                             listBuckets: Result<seq<string>, string>,
                             provision: ProvisionRequest -> bool,
                             migrate: BucketMigrationConfiguration -> MigrationResult)
    requires args.sourceBucket.None?
    requires listBuckets.Ok? ==> forall i, j :: 0 <= i < j < |listBuckets.value| ==> listBuckets.value[i] != listBuckets.value[j]
    ensures var o := MigrateCommand(args, listBuckets, provision, migrate);
      o.Completed? ==> forall i, j :: 0 <= i < j < |o.report.configurations| ==>
        o.report.configurations[i].destinationBucket != o.report.configurations[j].destinationBucket
  {
    var o := MigrateCommand(args, listBuckets, provision, migrate);
    if o.Completed? {
      CompletedRun(args, listBuckets, provision, migrate);
      var prefix := Derive(args).value.prefix;
      forall i, j | 0 <= i < j < |o.report.configurations|
        ensures o.report.configurations[i].destinationBucket != o.report.configurations[j].destinationBucket
      {
        if o.report.configurations[i].destinationBucket == o.report.configurations[j].destinationBucket {
          DestinationNameInjective(prefix, o.report.buckets[i], o.report.buckets[j]);
        }
      }
    }
  }

  /** Every bucket migration gets the run's shared settings: modes, chunk size in bytes, credentials and endpoints. */
  lemma SharedSettings(args: MigrateArgs,
                       listBuckets: Result<seq<string>, string>,
                       provision: ProvisionRequest -> bool,
                       migrate: BucketMigrationConfiguration -> MigrationResult)
    ensures var o := MigrateCommand(args, listBuckets, provision, migrate);
      o.Completed? ==> forall i :: 0 <= i < |o.report.configurations| ==>
        var c := o.report.configurations[i];
        && (c.dryRun <==> args.executeOccurrences == 0)
        && (c.deleteDestinationFiles <==> args.deleteOccurrences >= 1)
        && c.chunkSize == args.multipartChunkSizeMb * MIB
        && c.maxKeys == args.maxKeys
        && c.syncThreads == args.threads
        && c.sourceEndpoint == SOURCE_ENDPOINT
        && c.sourceAccessKey == args.sourceAccessKey && c.sourceSecretKey == args.sourceSecretKey
        && c.destinationEndpoint == args.destinationEndpoint
        && c.destinationAccessKey == args.destinationAccessKey && c.destinationSecretKey == args.destinationSecretKey
  {
    var o := MigrateCommand(args, listBuckets, provision, migrate);
    if o.Completed? {
      CompletedRun(args, listBuckets, provision, migrate);
    }
  }

  /**
   * A dry run, and only a dry run, reports the objects to synchronise and
   * delete: the sync total is the sum of every recovered bucket's object
   * sizes, and the delete total (present only with `--delete`) sums the
   * known sizes of the objects to delete, a missing size counting as 0.
   */
  lemma DryRunTotals(args: MigrateArgs,
                     listBuckets: Result<seq<string>, string>,
                     provision: ProvisionRequest -> bool,
                     migrate: BucketMigrationConfiguration -> MigrationResult)
    ensures var o := MigrateCommand(args, listBuckets, provision, migrate);
      o.Completed? ==>
        && (o.report.dryRunReport.Some? <==> args.executeOccurrences == 0)
        && (o.report.dryRunReport.Some? ==>
              var d := o.report.dryRunReport.value;
              && d.stats == AllStats(o.report.results)
              && d.objectsToSync == AllObjects(d.stats)
              && d.objectsToDelete == AllObjectsToDelete(d.stats)
              && |d.objectsToSync| == Sum(d.stats, ObjectCount)
              && d.totalSyncBytes == Sum(d.stats, BucketSyncBytes)
              && |d.objectsToDelete| == Sum(d.stats, DeleteCount)
              && (d.deleteListing.Some? <==> args.deleteOccurrences >= 1)
              && (d.deleteListing.Some? ==>
                    && |d.deleteListing.value| == |d.objectsToDelete|
                    && forall i :: 0 <= i < |d.objectsToDelete| ==>
                         && d.deleteListing.value[i].bucket == DeleteBuckets(d.stats)[i]
                         && d.objectsToDelete[i].key == Some(d.deleteListing.value[i].key)
                         && d.deleteListing.value[i].size == DeleteSize(d.objectsToDelete[i]))
              && (d.totalDeleteBytes.Some? <==> args.deleteOccurrences >= 1)
              && (d.totalDeleteBytes.Some? ==>
                    && d.totalDeleteBytes.value == Sum(d.stats, BucketDeleteBytes)
                    && d.totalDeleteBytes.value == Sum(KnownSizes(d.objectsToDelete), Id)))
  {
    var o := MigrateCommand(args, listBuckets, provision, migrate);
    if o.Completed? {
      CompletedRun(args, listBuckets, provision, migrate);
    }
  }

  /** The reported synchronisation size sums the stats of every result that has them; other errors add nothing. */
  lemma SynchronizationSizeReported(args: MigrateArgs,
                                    listBuckets: Result<seq<string>, string>,
                                    provision: ProvisionRequest -> bool,
                                    migrate: BucketMigrationConfiguration -> MigrationResult)
    ensures var o := MigrateCommand(args, listBuckets, provision, migrate);
      o.Completed? ==> o.report.synchronizationSize == Sum(AllStats(o.report.results), StatsSynchronizationSize)
  {
    var o := MigrateCommand(args, listBuckets, provision, migrate);
    if o.Completed? {
      CompletedRun(args, listBuckets, provision, migrate);
    }
  }

  /** Every failure of result `i` is reported against bucket `i`, and every reported line is such a failure. */
  lemma ErrorsReportedPerBucket(args: MigrateArgs,
                                listBuckets: Result<seq<string>, string>,
                                provision: ProvisionRequest -> bool,
                                migrate: BucketMigrationConfiguration -> MigrationResult)
    ensures var o := MigrateCommand(args, listBuckets, provision, migrate);
      o.Completed? ==>
        && (forall i, k :: 0 <= i < |o.report.results| && 0 <= k < |Details(o.report.results[i])| ==>
              ErrorLine(o.report.buckets[i], Details(o.report.results[i])[k]) in o.report.errorLines)
        && (forall line :: line in o.report.errorLines ==>
              exists i :: 0 <= i < |o.report.results| && line.bucket == o.report.buckets[i] && line.detail in Details(o.report.results[i]))
  {
    var o := MigrateCommand(args, listBuckets, provision, migrate);
    if o.Completed? {
      CompletedRun(args, listBuckets, provision, migrate);
      ErrorLinesComplete(o.report.buckets, o.report.results);
      ErrorLinesSound(o.report.buckets, o.report.results, 0);
    }
  }

  /**
   * Per-bucket results change the exit status only through the keyless
   * object panic of a dry run with `--delete`: the status is 0 exactly when
   * the buckets are migrated and that panic does not happen, and with
   * `--execute` or without `--delete` it does not depend on the results.
   */
  lemma ExitCodeIgnoresBucketFailures(args: MigrateArgs,
                                      listBuckets: Result<seq<string>, string>,
                                      provision: ProvisionRequest -> bool,
                                      migrate: BucketMigrationConfiguration -> MigrationResult,
                                      migrate': BucketMigrationConfiguration -> MigrationResult)
    ensures ExitCode(MigrateCommand(args, listBuckets, provision, migrate)) == 0 <==>
      ReachesMigration(args, listBuckets, provision) && !DeleteListingPanics(args, listBuckets, provision, migrate)
    ensures !DeleteListingPanics(args, listBuckets, provision, migrate) && !DeleteListingPanics(args, listBuckets, provision, migrate') ==>
      ExitCode(MigrateCommand(args, listBuckets, provision, migrate)) == ExitCode(MigrateCommand(args, listBuckets, provision, migrate'))
    ensures args.executeOccurrences > 0 || args.deleteOccurrences == 0 ==>
      ExitCode(MigrateCommand(args, listBuckets, provision, migrate)) == ExitCode(MigrateCommand(args, listBuckets, provision, migrate'))
  {
    PanicsOnlyOnKeylessDelete(args, listBuckets, provision, migrate);
    PanicsOnlyOnKeylessDelete(args, listBuckets, provision, migrate');
    if ReachesMigration(args, listBuckets, provision) {
      CompletedRun(args, listBuckets, provision, migrate);
      CompletedRun(args, listBuckets, provision, migrate');
    }
  }
}
