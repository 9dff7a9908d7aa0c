/** The `jobs` table as a whole: its unique indexes and the batch claim
    (`packages/core/jobs/queue.py`). A job's id is its position; rows are never
    deleted. */
module JobTable {
  import opened Basics
  import opened JobRows

  /** The partial unique index over running partitions. */
  predicate PartitionsExclusive(jobs: seq<Job>) {
    forall i, k :: 0 <= i < k < |jobs| && jobs[i].state == Running && jobs[k].state == Running ==>
      jobs[i].partition.None? || jobs[i].partition != jobs[k].partition
  }

  /** The partial unique index over live dedupe keys. */
  predicate DedupeUnique(jobs: seq<Job>) {
    forall i, k :: 0 <= i < k < |jobs| && Live(jobs[i]) && Live(jobs[k]) ==>
      jobs[i].dedupeKey.None? || jobs[i].dedupeKey != jobs[k].dedupeKey
  }

  predicate RowsValid(jobs: seq<Job>) {
    forall i :: 0 <= i < |jobs| ==> Valid(jobs[i])
  }

  predicate TableValid(jobs: seq<Job>) {
    RowsValid(jobs) && PartitionsExclusive(jobs) && DedupeUnique(jobs)
  }

  /** A claim may take the row: ready, due, below its ceiling, and no job of its
      partition is running. */
  predicate Eligible(jobs: seq<Job>, now: nat, i: nat) {
    && i < |jobs|
    && jobs[i].state == Ready && jobs[i].runAt <= now && jobs[i].attempts < jobs[i].maxAttempts
    && (jobs[i].partition.None? ||
        forall r :: 0 <= r < |jobs| && jobs[r].state == Running ==> jobs[r].partition != jobs[i].partition)
  }

  /** `ORDER BY priority DESC, run_at, id`. */
  predicate Before(jobs: seq<Job>, i: nat, k: nat)
    requires i < |jobs| && k < |jobs|
  {
    || jobs[i].priority > jobs[k].priority
    || (jobs[i].priority == jobs[k].priority &&
        (jobs[i].runAt < jobs[k].runAt || (jobs[i].runAt == jobs[k].runAt && i < k)))
  }

  /** The first row in order among the first `n` that a claim may take. `barred`
      holds the rows another transaction has locked or this one has taken. */
  function Best(jobs: seq<Job>, now: nat, barred: set<nat>, n: nat): (r: Option<nat>)
    requires n <= |jobs|
    ensures r.None? ==> forall i: nat :: i < n && i !in barred ==> !Eligible(jobs, now, i)
    ensures r.Some? ==>
              && r.value < n && r.value !in barred && Eligible(jobs, now, r.value)
              && forall i: nat :: i < n && i !in barred && Eligible(jobs, now, i) && i != r.value ==>
                   Before(jobs, r.value, i)
  {
    if n == 0 then None
    else
      var rest := Best(jobs, now, barred, n - 1);
      if n - 1 in barred || !Eligible(jobs, now, n - 1) then rest
      else if rest.None? || Before(jobs, n - 1, rest.value) then Some(n - 1)
      else rest
  }

  /** The `candidate` stage: the first `limit` eligible rows in order. */
  function Candidates(jobs: seq<Job>, now: nat, barred: set<nat>, limit: nat): (r: seq<nat>)
    ensures forall i :: i in r ==> i < |jobs|
    decreases limit
  {
    if limit == 0 then []
    else
      match Best(jobs, now, barred, |jobs|)
      case None => []
      case Some(i) => [i] + Candidates(jobs, now, barred + {i}, limit - 1)
  }

  /** What `ORDER BY ... LIMIT ... SKIP LOCKED` promises of its rows. */
  ghost predicate TopRows(jobs: seq<Job>, now: nat, barred: set<nat>, limit: nat, rows: seq<nat>) {
    && |rows| <= limit
    && (forall k :: 0 <= k < |rows| ==> Eligible(jobs, now, rows[k]) && rows[k] !in barred)
    && (forall k, m :: 0 <= k < m < |rows| ==> Before(jobs, rows[k], rows[m]))
    && (forall i: nat :: Eligible(jobs, now, i) && i !in barred && i !in rows ==>
          |rows| == limit && forall k :: 0 <= k < |rows| ==> Before(jobs, rows[k], i))
  }

  lemma {:induction false} CandidatesAreTopRows(jobs: seq<Job>, now: nat, barred: set<nat>, limit: nat)
    ensures TopRows(jobs, now, barred, limit, Candidates(jobs, now, barred, limit))
    decreases limit
  {
    if limit > 0 && Best(jobs, now, barred, |jobs|).Some? {
      var first := Best(jobs, now, barred, |jobs|).value;
      var rest := Candidates(jobs, now, barred + {first}, limit - 1);
      CandidatesAreTopRows(jobs, now, barred + {first}, limit - 1);
      var rows := [first] + rest;
      forall i: nat | Eligible(jobs, now, i) && i !in barred && i !in rows
        ensures |rows| == limit && forall k :: 0 <= k < |rows| ==> Before(jobs, rows[k], i)
      {
        assert i != first by { assert rows[0] == first; }
        assert rest == rows[1..];
      }
    }
  }

  /** What `ORDER BY` says of two rows, column by column. */
  predicate InOrder(jobs: seq<Job>, i: nat, k: nat) {
    && i < |jobs| && k < |jobs|
    && jobs[i].priority >= jobs[k].priority
    && (jobs[i].priority == jobs[k].priority ==> jobs[i].runAt <= jobs[k].runAt)
    && (jobs[i].priority == jobs[k].priority && jobs[i].runAt == jobs[k].runAt ==> i < k)
  }

  /** The candidates come with the higher priority first; of one priority, the one due
      earlier; of those, the older one; and so does each of them before an eligible row
      that the limit left out. */
  lemma CandidatesInOrder(jobs: seq<Job>, now: nat, barred: set<nat>, limit: nat, k: nat, i: nat)
    requires k < |Candidates(jobs, now, barred, limit)|
    ensures var rows := Candidates(jobs, now, barred, limit);
            && (k < i < |rows| ==> InOrder(jobs, rows[k], rows[i]))
            && (Eligible(jobs, now, i) && i !in barred && i !in rows ==> |rows| == limit && InOrder(jobs, rows[k], i))
  {
    CandidatesAreTopRows(jobs, now, barred, limit);
  }

  /** `DISTINCT ON (COALESCE(partition_key, 'job:' || id))`: the first row of each
      partition, and every row without one. */
  predicate LeadsPartition(jobs: seq<Job>, rows: seq<nat>, k: nat)
    requires k < |rows| && forall m :: 0 <= m < |rows| ==> rows[m] < |jobs|
  {
    jobs[rows[k]].partition.None? ||
    forall m :: 0 <= m < k ==> jobs[rows[m]].partition != jobs[rows[k]].partition
  }

  function Picked(jobs: seq<Job>, rows: seq<nat>): (r: set<nat>)
    requires forall m :: 0 <= m < |rows| ==> rows[m] < |jobs|
    ensures forall i :: i in r <==> exists k :: 0 <= k < |rows| && rows[k] == i && LeadsPartition(jobs, rows, k)
  {
    set k | 0 <= k < |rows| && LeadsPartition(jobs, rows, k) :: rows[k]
  }

  /** The rows one claim statement takes. */
  function ToClaim(jobs: seq<Job>, now: nat, locked: set<nat>, limit: nat): (r: set<nat>)
    ensures forall i :: i in r ==> Eligible(jobs, now, i)
  {
    CandidatesAreTopRows(jobs, now, locked, limit);
    Picked(jobs, Candidates(jobs, now, locked, limit))
  }

  function LeaseFor(kind: JobKind, lease: nat, sendLease: nat): nat {
    if kind == SendJob then sendLease else lease
  }

  /** The table after the claim statement. */
  function Claimed(jobs: seq<Job>, now: nat, locked: set<nat>, limit: nat, worker: nat, lease: nat, sendLease: nat): seq<Job> {
    var picked := ToClaim(jobs, now, locked, limit);
    seq(|jobs|, i requires 0 <= i < |jobs| =>
      if i in picked then ClaimRow(jobs[i], worker, now, LeaseFor(jobs[i].kind, lease, sendLease)) else jobs[i])
  }

  /** A candidate is taken, or another row of its partition is. */
  predicate Served(jobs: seq<Job>, picked: set<nat>, i: nat)
    requires i < |jobs|
  {
    i in picked || (jobs[i].partition.Some? && exists k :: k in picked && k < |jobs| && jobs[k].partition == jobs[i].partition)
  }

  /** The first row of a row's partition. */
  lemma {:induction false} Leader(jobs: seq<Job>, rows: seq<nat>, q: nat) returns (k: nat)
    requires q < |rows| && forall m :: 0 <= m < |rows| ==> rows[m] < |jobs|
    ensures k <= q && LeadsPartition(jobs, rows, k)
    ensures k == q || (jobs[rows[q]].partition.Some? && jobs[rows[k]].partition == jobs[rows[q]].partition)
  {
    if LeadsPartition(jobs, rows, q) {
      k := q;
    } else {
      var m :| 0 <= m < q && jobs[rows[m]].partition == jobs[rows[q]].partition;
      k := Leader(jobs, rows, m);
    }
  }

  lemma {:induction false} MembersFew(rows: seq<nat>, s: set<nat>)
    requires forall i :: i in s ==> i in rows
    ensures |s| <= |rows|
  {
    if rows == [] {
      assert s == {};
    } else {
      MembersFew(rows[1..], s - {rows[0]});
      assert |s| <= |s - {rows[0]}| + 1 by {
        if rows[0] in s { assert s == s - {rows[0]} + {rows[0]}; } else { assert s == s - {rows[0]}; }
      }
    }
  }

  lemma PickedFew(jobs: seq<Job>, rows: seq<nat>)
    requires forall m :: 0 <= m < |rows| ==> rows[m] < |jobs|
    ensures |Picked(jobs, rows)| <= |rows|
  {
    MembersFew(rows, Picked(jobs, rows));
  }

  /** Among all the rows the claim could see, `i` is the first of its partition. */
  predicate FirstOfPartition(jobs: seq<Job>, now: nat, locked: set<nat>, i: nat)
    requires i < |jobs|
  {
    jobs[i].partition.None? ||
    forall k: nat :: k < |jobs| && k != i && k !in locked && Eligible(jobs, now, k) && jobs[k].partition == jobs[i].partition
      ==> Before(jobs, i, k)
  }

  lemma PickedFirst(jobs: seq<Job>, now: nat, locked: set<nat>, limit: nat, i: nat)
    requires i in ToClaim(jobs, now, locked, limit)
    ensures i !in locked && Eligible(jobs, now, i) && FirstOfPartition(jobs, now, locked, i)
  {
    var rows := Candidates(jobs, now, locked, limit);
    CandidatesAreTopRows(jobs, now, locked, limit);
    var p :| 0 <= p < |rows| && rows[p] == i && LeadsPartition(jobs, rows, p);
    forall k: nat | k < |jobs| && k != i && k !in locked && Eligible(jobs, now, k)
        && jobs[i].partition.Some? && jobs[k].partition == jobs[i].partition
      ensures Before(jobs, i, k)
    {
      if k in rows {
        var q :| 0 <= q < |rows| && rows[q] == k;
        assert p < q;
      }
    }
  }

  lemma CandidateServed(jobs: seq<Job>, now: nat, locked: set<nat>, limit: nat, i: nat)
    requires i in Candidates(jobs, now, locked, limit)
    ensures i < |jobs| && Served(jobs, ToClaim(jobs, now, locked, limit), i)
  {
    var rows := Candidates(jobs, now, locked, limit);
    CandidatesAreTopRows(jobs, now, locked, limit);
    var q :| 0 <= q < |rows| && rows[q] == i;
    var k := Leader(jobs, rows, q);
    assert rows[k] in ToClaim(jobs, now, locked, limit);
  }

  /** No more rows than asked for; a claimed row is the first of its partition among all
      the rows the claim could see; each of the top rows has itself or another row of
      its partition claimed; and some row is claimed whenever one may be. */
  lemma ClaimTakesPartitionLeaders(jobs: seq<Job>, now: nat, locked: set<nat>, limit: nat)
    ensures var picked := ToClaim(jobs, now, locked, limit);
            && |picked| <= limit
            && (forall i :: i in picked ==> i !in locked && FirstOfPartition(jobs, now, locked, i))
            && (forall i :: i in Candidates(jobs, now, locked, limit) ==> Served(jobs, picked, i))
            && (forall i: nat :: limit > 0 && Eligible(jobs, now, i) && i !in locked ==> picked != {})
  {
    var rows := Candidates(jobs, now, locked, limit);
    CandidatesAreTopRows(jobs, now, locked, limit);
    var picked := ToClaim(jobs, now, locked, limit);
    PickedFew(jobs, rows);
    forall i | i in picked ensures i !in locked && FirstOfPartition(jobs, now, locked, i) {
      PickedFirst(jobs, now, locked, limit, i);
    }
    forall i | i in rows ensures Served(jobs, picked, i) {
      CandidateServed(jobs, now, locked, limit, i);
    }
    forall i: nat | limit > 0 && Eligible(jobs, now, i) && i !in locked ensures picked != {} {
      assert |rows| > 0;
      assert rows[0] in rows;
    }
  }

  /** Running under the claim: one more attempt, leased to the worker until `until`. */
  predicate LeasedTo(before: Job, after: Job, worker: nat, until: nat) {
    && Owns(after, worker) && after.leaseExpiresAt == Some(until)
    && after.attempts == before.attempts + 1 <= after.maxAttempts
  }

  lemma ClaimRowLeases(j: Job, worker: nat, now: nat, lease: nat)
    requires j.attempts < j.maxAttempts
    ensures LeasedTo(j, ClaimRow(j, worker, now, lease), worker, now + lease)
  {
  }

  /** What a claim makes of a table, in one place. */
  ghost predicate ClaimOutcome(jobs: seq<Job>, after: seq<Job>, now: nat, locked: set<nat>, limit: nat, worker: nat,
                               lease: nat, sendLease: nat, claimed: set<nat>)
  {
    && |claimed| <= limit && |after| == |jobs|
    && (forall i :: i in claimed ==> i < |jobs| && i !in locked && FirstOfPartition(jobs, now, locked, i))
    && (forall i :: i in Candidates(jobs, now, locked, limit) ==> Served(jobs, claimed, i))
    && (forall i: nat :: limit > 0 && Eligible(jobs, now, i) && i !in locked ==> claimed != {})
    && (forall i :: 0 <= i < |jobs| ==>
          if i in claimed then LeasedTo(jobs[i], after[i], worker, now + if jobs[i].kind == SendJob then sendLease else lease)
          else after[i] == jobs[i])
  }

  lemma PickedIsLeased(jobs: seq<Job>, now: nat, locked: set<nat>, limit: nat, worker: nat, lease: nat, sendLease: nat, i: nat)
    requires i in ToClaim(jobs, now, locked, limit)
    ensures i < |jobs|
    ensures LeasedTo(jobs[i], Claimed(jobs, now, locked, limit, worker, lease, sendLease)[i], worker,
                     now + if jobs[i].kind == SendJob then sendLease else lease)
  {
    assert Eligible(jobs, now, i);
    ClaimRowLeases(jobs[i], worker, now, LeaseFor(jobs[i].kind, lease, sendLease));
  }

  lemma ClaimHasOutcome(jobs: seq<Job>, now: nat, locked: set<nat>, limit: nat, worker: nat, lease: nat, sendLease: nat)
    ensures ClaimOutcome(jobs, Claimed(jobs, now, locked, limit, worker, lease, sendLease), now, locked, limit, worker,
                         lease, sendLease, ToClaim(jobs, now, locked, limit))
  {
    ClaimTakesPartitionLeaders(jobs, now, locked, limit);
    forall i | i in ToClaim(jobs, now, locked, limit)
      ensures i < |jobs| && LeasedTo(jobs[i], Claimed(jobs, now, locked, limit, worker, lease, sendLease)[i], worker,
                                     now + if jobs[i].kind == SendJob then sendLease else lease)
    {
      PickedIsLeased(jobs, now, locked, limit, worker, lease, sendLease, i);
    }
  }

  /** Two picks of one statement never share a partition, so the statement keeps
      both unique indexes and both CHECKs. */
  lemma ClaimKeepsTable(jobs: seq<Job>, now: nat, locked: set<nat>, limit: nat, worker: nat, lease: nat, sendLease: nat)
    requires TableValid(jobs)
    ensures TableValid(Claimed(jobs, now, locked, limit, worker, lease, sendLease))
    ensures forall i :: 0 <= i < |jobs| ==>
              (i in ToClaim(jobs, now, locked, limit) <==>
               Claimed(jobs, now, locked, limit, worker, lease, sendLease)[i] != jobs[i])
  {
    var picked := ToClaim(jobs, now, locked, limit);
    var after := Claimed(jobs, now, locked, limit, worker, lease, sendLease);
    ClaimTakesPartitionLeaders(jobs, now, locked, limit);
    forall i, k | 0 <= i < k < |after| && after[i].state == Running && after[k].state == Running
      ensures after[i].partition.None? || after[i].partition != after[k].partition
    {
      if i in picked && k in picked && jobs[i].partition.Some? && jobs[i].partition == jobs[k].partition {
        assert Eligible(jobs, now, k);
      }
    }
    forall i, k | 0 <= i < k < |after| && Live(after[i]) && Live(after[k])
      ensures after[i].dedupeKey.None? || after[i].dedupeKey != after[k].dedupeKey
    {
      assert Live(jobs[i]) && Live(jobs[k]);
    }
  }

  // ------------------------------------------------------------------
  // enqueue, and the latest job of a send
  // ------------------------------------------------------------------

  predicate Conflicts(jobs: seq<Job>, key: Option<DedupeKey>) {
    key.Some? && exists i :: 0 <= i < |jobs| && Live(jobs[i]) && jobs[i].dedupeKey == key
  }

  /** `INSERT ... ON CONFLICT DO NOTHING`: the table, and the new id unless a live
      duplicate exists. */
  function Enqueue(jobs: seq<Job>, job: Job): (seq<Job>, Option<nat>) {
    if Conflicts(jobs, job.dedupeKey) then (jobs, None) else (jobs + [job], Some(|jobs|))
  }

  lemma EnqueueKeepsTable(jobs: seq<Job>, job: Job)
    requires TableValid(jobs) && Valid(job) && job.state == Ready
    ensures TableValid(Enqueue(jobs, job).0)
  {
  }

  /** `ORDER BY id DESC LIMIT 1` over the jobs of one send. */
  function LatestJob(jobs: seq<Job>, ref: nat): (r: Option<nat>)
    ensures r.Some? ==> r.value < |jobs| && jobs[r.value].kind == SendJob && jobs[r.value].ref == ref
    ensures forall i :: 0 <= i < |jobs| && jobs[i].kind == SendJob && jobs[i].ref == ref ==> r.Some? && i <= r.value
  {
    if jobs == [] then None
    else if jobs[|jobs| - 1].kind == SendJob && jobs[|jobs| - 1].ref == ref then Some(|jobs| - 1)
    else LatestJob(jobs[..|jobs| - 1], ref)
  }
}
