/**
 * Per-bucket migration results and the totals the `migrate` command derives
 * from them (src/main.rs:250-382). The migration itself is not modelled: a
 * result is an input.
 */
module Aggregate {
  import opened Wrappers

  /** An object listed on the source cluster. */
  datatype ObjectContents = ObjectContents(key: string, size: nat)

  /** An object listed on the destination cluster; both key and size may be missing. */
  datatype S3Object = S3Object(key: Option<string>, size: Option<nat>)

  /** What one bucket migration synchronised (or would synchronise) and deleted. */
  datatype BucketMigrationStats = BucketMigrationStats(
    bucket: string,
    objects: seq<ObjectContents>,
    objectsToDelete: seq<S3Object>,
    synchronizationSize: nat)

  /**
   * The outcome of one bucket migration: success, a migration that ran but
   * failed for some objects (stats still available), or any other error.
   * `Ok` follows Rust's `Result::Ok`; where `Wrappers.Result` is also in
   * scope, it is written `MigrationResult.Ok`.
   */
  datatype MigrationResult =
    | Ok(stats: BucketMigrationStats)
    | BucketMigrationError(stats: BucketMigrationStats, errors: seq<string>)
    | OtherError(message: string)

  /** The stats a result carries, if any. */
  function RecoveredStats(r: MigrationResult): (s: Option<BucketMigrationStats>)
    ensures s.None? <==> r.OtherError?
    ensures s.Some? ==> s.value == r.stats
  {
    match r
    case Ok(stats) => Some(stats)
    case BucketMigrationError(stats, _) => Some(stats)
    case OtherError(_) => None
  }

  /** `fold(acc, |acc, x| acc + size(x))`: the accumulating left fold behind every total. */
  function Fold<T>(acc: nat, xs: seq<T>, size: T -> nat): (total: nat)
    ensures total == acc + Sum(xs, size)
    decreases |xs|
  {
    if xs == [] then acc else Fold(acc + size(xs[0]), xs[1..], size)
  }

  /** The reference sum of `size` over `xs`, with no accumulator. */
  function Sum<T>(xs: seq<T>, size: T -> nat): nat
    decreases |xs|
  {
    if xs == [] then 0 else size(xs[0]) + Sum(xs[1..], size)
  }

  /** Sums distribute over concatenation. */
  lemma {:induction false} SumAppend<T>(a: seq<T>, b: seq<T>, size: T -> nat)
    ensures Sum(a + b, size) == Sum(a, size) + Sum(b, size)
    decreases |a|
  {
    if a == [] {
      assert a + b == b;
    } else {
      assert (a + b)[1..] == a[1..] + b;
      SumAppend(a[1..], b, size);
    }
  }

  /** The stats of every result that has any, in result order (`filter_map`). */
  function AllStats(results: seq<MigrationResult>): (stats: seq<BucketMigrationStats>)
    ensures |stats| <= |results|
    decreases |results|
  {
    if results == [] then []
    else
      var head := match RecoveredStats(results[0]) case Some(s) => [s] case None => [];
      head + AllStats(results[1..])
  }

  /** Recovering stats commutes with concatenating results. */
  lemma {:induction false} AllStatsAppend(a: seq<MigrationResult>, b: seq<MigrationResult>)
    ensures AllStats(a + b) == AllStats(a) + AllStats(b)
    decreases |a|
  {
    if a == [] {
      assert a + b == b;
    } else {
      assert (a + b)[1..] == a[1..] + b;
      AllStatsAppend(a[1..], b);
    }
  }

  /** A stats value is recovered exactly when some result carries it. */
  lemma {:induction false} AllStatsMembership(results: seq<MigrationResult>, s: BucketMigrationStats)
    ensures s in AllStats(results) <==> exists i :: 0 <= i < |results| && RecoveredStats(results[i]) == Some(s)
    decreases |results|
  {
    if results != [] {
      AllStatsMembership(results[1..], s);
      if s in AllStats(results[1..]) {
        var i :| 0 <= i < |results[1..]| && RecoveredStats(results[1..][i]) == Some(s);
        assert RecoveredStats(results[i + 1]) == Some(s);
      }
      if exists i :: 0 <= i < |results| && RecoveredStats(results[i]) == Some(s) {
        var i :| 0 <= i < |results| && RecoveredStats(results[i]) == Some(s);
        if i > 0 {
          assert RecoveredStats(results[1..][i - 1]) == Some(s);
        }
      }
    }
  }

  /** With no other errors among the results, every result contributes its stats, in order. */
  lemma {:induction false} AllStatsWithoutOtherErrors(results: seq<MigrationResult>)
    requires forall i :: 0 <= i < |results| ==> !results[i].OtherError?
    ensures |AllStats(results)| == |results|
    ensures forall i :: 0 <= i < |results| ==> AllStats(results)[i] == results[i].stats
    decreases |results|
  {
    if results != [] {
      AllStatsWithoutOtherErrors(results[1..]);
      forall i | 0 <= i < |results|
        ensures AllStats(results)[i] == results[i].stats
      {
        if i > 0 {
          assert results[1..][i - 1] == results[i];
        }
      }
    }
  }

  /** Every listed object of every stats value, bucket after bucket (`flatten`). */
  function AllObjects(stats: seq<BucketMigrationStats>): (objs: seq<ObjectContents>)
    ensures |objs| == Sum(stats, ObjectCount)
    ensures forall i, j :: 0 <= i < |stats| && 0 <= j < |stats[i].objects| ==> stats[i].objects[j] in objs
    decreases |stats|
  {
    if stats == [] then [] else stats[0].objects + AllObjects(stats[1..])
  }

  /** Every object to delete of every stats value, bucket after bucket (`flatten`). */
  function AllObjectsToDelete(stats: seq<BucketMigrationStats>): (objs: seq<S3Object>)
    ensures |objs| == Sum(stats, DeleteCount)
    ensures forall i, j :: 0 <= i < |stats| && 0 <= j < |stats[i].objectsToDelete| ==> stats[i].objectsToDelete[j] in objs
    decreases |stats|
  {
    if stats == [] then [] else stats[0].objectsToDelete + AllObjectsToDelete(stats[1..])
  }

  function ObjectSize(o: ObjectContents): nat {
    o.size
  }

  /** A destination object's size, with a missing size read as 0 (`unwrap_or(0)`). */
  function DeleteSize(o: S3Object): (size: nat)
    ensures o.size.None? ==> size == 0
    ensures o.size.Some? ==> size == o.size.value
  {
    o.size.GetOr(0)
  }

  function StatsSynchronizationSize(s: BucketMigrationStats): nat {
    s.synchronizationSize
  }

  function ObjectCount(s: BucketMigrationStats): nat {
    |s.objects|
  }

  function DeleteCount(s: BucketMigrationStats): nat {
    |s.objectsToDelete|
  }

  function BucketSyncBytes(s: BucketMigrationStats): nat {
    Sum(s.objects, ObjectSize)
  }

  function BucketDeleteBytes(s: BucketMigrationStats): nat {
    Sum(s.objectsToDelete, DeleteSize)
  }

  /** What one result adds to the synchronisation size: its stats' size, or 0 for any other error. */
  function SyncContribution(r: MigrationResult): (size: nat)
    ensures r.OtherError? ==> size == 0
    ensures !r.OtherError? ==> size == r.stats.synchronizationSize
  {
    match RecoveredStats(r)
    case Some(stats) => stats.synchronizationSize
    case None => 0
  }

  /**
   * Total synchronisation size of a run, folded over the results as the
   * command does: the sum of `synchronizationSize` over the recovered stats.
   */
  function SynchronizationSize(results: seq<MigrationResult>): (size: nat)
    ensures size == Sum(AllStats(results), StatsSynchronizationSize)
  {
    SyncSumIsStatsSum(results);
    Fold(0, results, SyncContribution)
  }

  /**
   * Total bytes to synchronise in a dry run, folded over all recovered
   * objects: the sum, bucket by bucket, of each bucket's object sizes.
   */
  function TotalSyncBytes(stats: seq<BucketMigrationStats>): (total: nat)
    ensures total == Sum(stats, BucketSyncBytes)
  {
    FlattenedSums(stats);
    Fold(0, AllObjects(stats), ObjectSize)
  }

  /**
   * Total bytes to delete in a dry run, folded over all recovered objects to
   * delete: the sum of the sizes that are known, bucket by bucket.
   */
  function TotalDeleteBytes(stats: seq<BucketMigrationStats>): (total: nat)
    ensures total == Sum(KnownSizes(AllObjectsToDelete(stats)), Id)
    ensures total == Sum(stats, BucketDeleteBytes)
  {
    DeleteSizesAreKnownSizes(AllObjectsToDelete(stats));
    FlattenedSums(stats);
    Fold(0, AllObjectsToDelete(stats), DeleteSize)
  }

  lemma {:induction false} SyncSumIsStatsSum(results: seq<MigrationResult>)
    ensures Sum(results, SyncContribution) == Sum(AllStats(results), StatsSynchronizationSize)
    decreases |results|
  {
    if results != [] {
      SyncSumIsStatsSum(results[1..]);
      var head := match RecoveredStats(results[0]) case Some(s) => [s] case None => [];
      SumAppend(head, AllStats(results[1..]), StatsSynchronizationSize);
    }
  }

  /** The synchronisation size of two runs of results is the sum of their sizes. */
  lemma SynchronizationSizeAppend(a: seq<MigrationResult>, b: seq<MigrationResult>)
    ensures SynchronizationSize(a + b) == SynchronizationSize(a) + SynchronizationSize(b)
  {
    SumAppend(a, b, SyncContribution);
  }

  /** An error without stats adds nothing to the synchronisation size. */
  lemma SynchronizationSizeIgnoresOtherErrors(a: seq<MigrationResult>, message: string, b: seq<MigrationResult>)
    ensures SynchronizationSize(a + [OtherError(message)] + b) == SynchronizationSize(a + b)
  {
    SynchronizationSizeAppend(a + [OtherError(message)], b);
    SynchronizationSizeAppend(a, [OtherError(message)]);
    SynchronizationSizeAppend(a, b);
    var other := [OtherError(message)];
    assert SynchronizationSize(other) == 0 by {
      assert other[1..] == [];
      assert Sum(other, SyncContribution) == SyncContribution(other[0]) + Sum(other[1..], SyncContribution);
    }
  }

  /** Flattening distributes over concatenated stats. */
  lemma {:induction false} AllObjectsAppend(a: seq<BucketMigrationStats>, b: seq<BucketMigrationStats>)
    ensures AllObjects(a + b) == AllObjects(a) + AllObjects(b)
    ensures AllObjectsToDelete(a + b) == AllObjectsToDelete(a) + AllObjectsToDelete(b)
    decreases |a|
  {
    if a == [] {
      assert a + b == b;
    } else {
      assert (a + b)[1..] == a[1..] + b;
      AllObjectsAppend(a[1..], b);
    }
  }

  /** Summing over the flattened objects is summing bucket by bucket; so are the counts. */
  lemma {:induction false} FlattenedSums(stats: seq<BucketMigrationStats>)
    ensures Sum(AllObjects(stats), ObjectSize) == Sum(stats, BucketSyncBytes)
    ensures Sum(AllObjectsToDelete(stats), DeleteSize) == Sum(stats, BucketDeleteBytes)
    ensures |AllObjects(stats)| == Sum(stats, ObjectCount)
    ensures |AllObjectsToDelete(stats)| == Sum(stats, DeleteCount)
    decreases |stats|
  {
    if stats != [] {
      FlattenedSums(stats[1..]);
      SumAppend(stats[0].objects, AllObjects(stats[1..]), ObjectSize);
      SumAppend(stats[0].objectsToDelete, AllObjectsToDelete(stats[1..]), DeleteSize);
    }
  }

  /** The sizes actually known among `objs`, in order. */
  function KnownSizes(objs: seq<S3Object>): (sizes: seq<nat>)
    ensures |sizes| <= |objs|
    decreases |objs|
  {
    if objs == [] then []
    else (if objs[0].size.Some? then [objs[0].size.value] else []) + KnownSizes(objs[1..])
  }

  function Id(n: nat): nat {
    n
  }

  /** Summing with missing sizes read as 0 is summing only the known sizes. */
  lemma {:induction false} DeleteSizesAreKnownSizes(objs: seq<S3Object>)
    ensures Sum(objs, DeleteSize) == Sum(KnownSizes(objs), Id)
    decreases |objs|
  {
    if objs != [] {
      DeleteSizesAreKnownSizes(objs[1..]);
      var head := if objs[0].size.Some? then [objs[0].size.value] else [];
      SumAppend(head, KnownSizes(objs[1..]), Id);
    }
  }
}
