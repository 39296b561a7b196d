/**
 * The in-memory job table of src/lib/job-state.ts: a JS `Map` from job id to
 * progress record.  A `Map` iterates in insertion order, so the table keeps
 * the ids in that order beside the map.  The clock is a parameter and the
 * periodic timer is left to the caller of `CleanupExpiredJobs`.
 */
module JobStates {
  import opened Wrappers

  /** One hour, in milliseconds. */
  const JobTtl := 3_600_000

  datatype SourceFailure = SourceFailure(sourceId: string, error: string)

  datatype JobState = JobState(jobId: string, total: int, processed: int, successes: int,
                               failures: seq<SourceFailure>, startedAt: int, updatedAt: int,
                               done: bool, canceled: bool)

  /** The fields an update may carry; None is a field the update does not mention. */
  datatype JobUpdate = JobUpdate(processed: Option<int>, successes: Option<int>,
                                 failures: Option<seq<SourceFailure>>, done: Option<bool>,
                                 canceled: Option<bool>)

  /** The state `createJobState` records. */
  function NewJob(jobId: string, total: int, now: int): JobState {
    JobState(jobId, total, 0, 0, [], now, now, false, false)
  }

  /** `Object.assign(state, updates, { updatedAt: now })` */
  function Apply(s: JobState, u: JobUpdate, now: int): JobState {
    s.(processed := u.processed.GetOr(s.processed), successes := u.successes.GetOr(s.successes),
       failures := u.failures.GetOr(s.failures), done := u.done.GetOr(s.done),
       canceled := u.canceled.GetOr(s.canceled), updatedAt := now)
  }

  predicate Active(s: JobState) { !s.done && !s.canceled }

  predicate Expired(s: JobState, now: int) { now - s.updatedAt > JobTtl }

  predicate Distinct(xs: seq<string>) {
    forall i, j :: 0 <= i < j < |xs| ==> xs[i] != xs[j]
  }

  /** `xs` without `x`. */
  function Remove(xs: seq<string>, x: string): seq<string> {
    if xs == [] then []
    else if xs[0] == x then Remove(xs[1..], x)
    else [xs[0]] + Remove(xs[1..], x)
  }

  lemma {:induction false} RemoveMembers(xs: seq<string>, x: string)
    ensures forall y :: y in Remove(xs, x) <==> y in xs && y != x
    ensures Distinct(xs) ==> Distinct(Remove(xs, x))
  {
    if xs != [] {
      RemoveMembers(xs[1..], x);
      if Distinct(xs) {
        assert Distinct(xs[1..]) by {
          forall i, j | 0 <= i < j < |xs[1..]| ensures xs[1..][i] != xs[1..][j] {
            assert xs[1..][i] == xs[i + 1] && xs[1..][j] == xs[j + 1];
          }
        }
        if xs[0] != x {
          var rest := Remove(xs[1..], x);
          forall j | 0 <= j < |xs[1..]| ensures xs[0] != xs[1..][j] {
            assert xs[1..][j] == xs[j + 1];
          }
          assert xs[0] !in rest;
          forall i, j | 0 <= i < j < |[xs[0]] + rest| ensures ([xs[0]] + rest)[i] != ([xs[0]] + rest)[j] {
            if i > 0 {
              assert ([xs[0]] + rest)[i] == rest[i - 1] && ([xs[0]] + rest)[j] == rest[j - 1];
            } else {
              assert ([xs[0]] + rest)[j] == rest[j - 1];
            }
          }
        }
      }
    }
  }

  lemma {:induction false} RemoveAbsent(xs: seq<string>, x: string)
    requires x !in xs
    ensures Remove(xs, x) == xs
  {
    if xs != [] {
      RemoveAbsent(xs[1..], x);
    }
  }

  lemma {:induction false} RemoveMiddle(a: seq<string>, x: string, b: seq<string>)
    requires x !in a && x !in b
    ensures Remove(a + [x] + b, x) == a + b
  {
    if a == [] {
      assert (a + [x] + b)[1..] == b;
      RemoveAbsent(b, x);
    } else {
      assert (a + [x] + b)[1..] == a[1..] + [x] + b;
      RemoveMiddle(a[1..], x, b);
    }
  }

  /** The ids of `order` whose jobs survive a sweep at `now`. */
  function Survivors(order: seq<string>, states: map<string, JobState>, now: int): seq<string> {
    if order == [] then []
    else
      var init := Survivors(order[..|order| - 1], states, now);
      var k := order[|order| - 1];
      if k in states && Expired(states[k], now) then init else init + [k]
  }

  lemma {:induction false} SurvivorsMembers(order: seq<string>, states: map<string, JobState>, now: int)
    ensures forall k :: k in Survivors(order, states, now) <==> k in order && !(k in states && Expired(states[k], now))
    ensures Distinct(order) ==> Distinct(Survivors(order, states, now))
  {
    if order != [] {
      var init := order[..|order| - 1];
      SurvivorsMembers(init, states, now);
      assert order == init + [order[|order| - 1]];
      assert forall y :: y in order <==> y in init || y == order[|order| - 1];
    }
  }

  class JobStore {
    var states: map<string, JobState>
    /** The ids of `states`, in insertion order. */
    var order: seq<string>

    ghost predicate Valid()
      reads this
    {
      Distinct(order) && forall k :: k in states <==> k in order
    }

    constructor()
      ensures Valid() && states == map[] && order == []
    {
      states, order := map[], [];
    }

    /**
     * `createJobState`: a fresh record with no progress, stamped `now`; an
     * existing id is overwritten and keeps its place in the order.
     */
    method CreateJobState(jobId: string, total: int, now: int) returns (s: JobState)
      requires Valid()
      modifies this
      ensures Valid()
      ensures s.jobId == jobId && s.total == total && s.processed == 0 && s.successes == 0
      ensures s.failures == [] && s.startedAt == now && s.updatedAt == now && !s.done && !s.canceled
      ensures states == old(states)[jobId := s]
      ensures order == if jobId in old(states) then old(order) else old(order) + [jobId]
    {
      s := NewJob(jobId, total, now);
      if jobId !in states {
        order := order + [jobId];
      }
      states := states[jobId := s];
    }

    /** `getJobState`: the stored record, or null. */
    method GetJobState(jobId: string) returns (s: Option<JobState>)
      ensures s.Some? <==> jobId in states
      ensures s.Some? ==> s.value == states[jobId]
    {
      if jobId in states {
        s := Some(states[jobId]);
      } else {
        s := None;
      }
    }

    /**
     * `updateJobState`: on a stored job, set the fields the update carries and
     * stamp `updatedAt`; an unknown id changes nothing.
     */
    method UpdateJobState(jobId: string, u: JobUpdate, now: int)
      requires Valid()
      modifies this
      ensures Valid() && order == old(order)
      ensures jobId !in old(states) ==> states == old(states)
      ensures jobId in old(states) ==> states == old(states)[jobId := Apply(old(states)[jobId], u, now)]
      ensures jobId in old(states) ==>
                var s, t := old(states)[jobId], states[jobId];
                && t.jobId == s.jobId && t.total == s.total && t.startedAt == s.startedAt && t.updatedAt == now
                && (u.processed.None? ==> t.processed == s.processed)
                && (u.successes.None? ==> t.successes == s.successes)
                && (u.failures.None? ==> t.failures == s.failures)
                && (u.done.None? ==> t.done == s.done)
                && (u.canceled.None? ==> t.canceled == s.canceled)
    {
      if jobId !in states {
        return;
      }
      states := states[jobId := Apply(states[jobId], u, now)];
    }

    /** `getActiveJobId`: the first id, in insertion order, of a job neither done nor canceled. */
    method GetActiveJobId() returns (id: Option<string>)
      requires Valid()
      ensures id.None? <==> forall k :: k in states ==> !Active(states[k])
      ensures id.Some? ==> exists i :: 0 <= i < |order| && order[i] == id.value && Active(states[order[i]])
                                       && forall j :: 0 <= j < i ==> !Active(states[order[j]])
    {
      for i := 0 to |order|
        invariant forall j :: 0 <= j < i ==> !Active(states[order[j]])
      {
        if Active(states[order[i]]) {
          return Some(order[i]);
        }
      }
      return None;
    }

    /** `cleanupExpiredJobs`: delete every job last updated more than an hour before `now`. */
    method CleanupExpiredJobs(now: int)
      requires Valid()
      modifies this
      ensures Valid()
      ensures states == SweptAfter(old(states), old(order), now)
      ensures order == Survivors(old(order), old(states), now)
    {
      var snapshot, table := order, states;
      var live, kept := Sweep(snapshot, table, now);
      SweptTableValid(snapshot, table, now);
      states, order := live, kept;
    }

    /** `deleteJobState`: true iff the id was present; it is absent afterwards. */
    method DeleteJobState(jobId: string) returns (existed: bool)
      requires Valid()
      modifies this
      ensures Valid()
      ensures existed <==> jobId in old(states)
      ensures states == old(states) - {jobId} && order == Remove(old(order), jobId)
    {
      existed := jobId in states;
      RemoveMembers(order, jobId);
      states := states - {jobId};
      order := Remove(order, jobId);
    }

    /** `getAllJobStates`: the stored records, in insertion order. */
    method GetAllJobStates() returns (all: seq<JobState>)
      requires Valid()
      ensures |all| == |states| == |order|
      ensures forall i :: 0 <= i < |all| ==> all[i] == states[order[i]]
      ensures forall s :: s in all <==> exists k :: k in states && states[k] == s
    {
      all := [];
      for i := 0 to |order|
        invariant |all| == i
        invariant forall j :: 0 <= j < i ==> all[j] == states[order[j]]
      {
        all := all + [states[order[i]]];
      }
      forall s | s in all ensures exists k :: k in states && states[k] == s {
        var j :| 0 <= j < |all| && all[j] == s;
        assert order[j] in states;
      }
      forall s | exists k :: k in states && states[k] == s ensures s in all {
        var k :| k in states && states[k] == s;
        var j :| 0 <= j < |order| && order[j] == k;
        assert all[j] == s;
      }
      DistinctCount(order, states);
    }

    /** Cancel-free helper facts of the table invariant. */
    lemma DistinctCount(order: seq<string>, states: map<string, JobState>)
      requires Distinct(order) && forall k :: k in states <==> k in order
      ensures |states| == |order|
    {
      SizeOfDistinct(order);
      assert states.Keys == set k | k in order;
    }
  }

  /**
   * The loop of `cleanupExpiredJobs` over a snapshot of the ids in insertion
   * order: each expired job leaves the table and the order.
   */
  method Sweep(snapshot: seq<string>, table: map<string, JobState>, now: int)
    returns (live: map<string, JobState>, kept: seq<string>)
    requires Distinct(snapshot) && forall k :: k in snapshot ==> k in table
    ensures live == SweptAfter(table, snapshot, now)
    ensures kept == Survivors(snapshot, table, now)
  {
    live, kept := table, snapshot;
    for i := 0 to |snapshot|
      invariant live == SweptAfter(table, snapshot[..i], now)
      invariant kept == Survivors(snapshot[..i], table, now) + snapshot[i..]
    {
      var jobId := snapshot[i];
      SweepStatesStep(snapshot, table, now, i);
      SweepOrderStep(snapshot, table, now, i);
      if Expired(table[jobId], now) {
        live := live - {jobId};
        kept := Remove(kept, jobId);
      }
    }
    assert snapshot[..|snapshot|] == snapshot;
  }

  /** The jobs left after deleting those of `visited` that expired by `now`. */
  function SweptAfter(states: map<string, JobState>, visited: seq<string>, now: int): (r: map<string, JobState>)
    ensures forall k :: k in r <==> k in states && !(k in visited && Expired(states[k], now))
    ensures forall k :: k in r ==> r[k] == states[k]
  {
    map k | k in states && !(k in visited && Expired(states[k], now)) :: states[k]
  }

  /** Where the i-th id of a snapshot without repeats sits. */
  lemma SnapshotAt(snapshot: seq<string>, i: nat)
    requires Distinct(snapshot) && i < |snapshot|
    ensures snapshot[i] !in snapshot[..i] && snapshot[i] !in snapshot[i + 1..]
    ensures snapshot[i..] == [snapshot[i]] + snapshot[i + 1..]
    ensures snapshot[..i + 1] == snapshot[..i] + [snapshot[i]]
  {
    assert forall j :: 0 <= j < |snapshot[..i]| ==> snapshot[..i][j] == snapshot[j];
    assert forall j :: i + 1 <= j < |snapshot| ==> snapshot[i + 1..][j - i - 1] == snapshot[j];
  }

  /** The job map after one more step of the sweep. */
  lemma SweepStatesStep(snapshot: seq<string>, before: map<string, JobState>, now: int, i: nat)
    requires Distinct(snapshot) && i < |snapshot| && snapshot[i] in before
    ensures var k := snapshot[i];
            var states := SweptAfter(before, snapshot[..i], now);
            && k in states && states[k] == before[k]
            && SweptAfter(before, snapshot[..i + 1], now)
               == if Expired(before[k], now) then states - {k} else states
  {
    SnapshotAt(snapshot, i);
  }

  /** The order after one more step of the sweep. */
  lemma SweepOrderStep(snapshot: seq<string>, before: map<string, JobState>, now: int, i: nat)
    requires Distinct(snapshot) && i < |snapshot| && snapshot[i] in before
    ensures var k := snapshot[i];
            var order := Survivors(snapshot[..i], before, now) + snapshot[i..];
            Survivors(snapshot[..i + 1], before, now) + snapshot[i + 1..]
              == if Expired(before[k], now) then Remove(order, k) else order
  {
    var k := snapshot[i];
    var kept := Survivors(snapshot[..i], before, now);
    SnapshotAt(snapshot, i);
    assert snapshot[..i + 1][..i] == snapshot[..i];
    SurvivorsMembers(snapshot[..i], before, now);
    assert kept + snapshot[i..] == kept + [k] + snapshot[i + 1..];
    if Expired(before[k], now) {
      RemoveMiddle(kept, k, snapshot[i + 1..]);
    }
  }

  /** The table after a sweep satisfies the table invariant. */
  lemma SweptTableValid(snapshot: seq<string>, before: map<string, JobState>, now: int)
    requires Distinct(snapshot) && forall k :: k in before <==> k in snapshot
    ensures var order := Survivors(snapshot, before, now);
            Distinct(order) && forall k :: k in SweptAfter(before, snapshot, now) <==> k in order
  {
    SurvivorsMembers(snapshot, before, now);
  }

  lemma {:induction false} SizeOfDistinct(xs: seq<string>)
    requires Distinct(xs)
    ensures |set k | k in xs| == |xs|
  {
    if xs != [] {
      var init := xs[..|xs| - 1];
      SizeOfDistinct(init);
      assert (set k | k in xs) == (set k | k in init) + {xs[|xs| - 1]};
    }
  }
}
