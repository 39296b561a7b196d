/**
 * The job-tracked batch run of src/lib/ingest-runner.ts: choose the sources,
 * open a job in the job table, fold each source's completion into the job's
 * counters, and cancel.  Completions arrive as a sequence: each one's
 * try/catch/finally runs to its end before the next begins.
 */
module IngestRunner {
  import opened Wrappers
  import opened Text
  import opened JobStates
  import opened Ingest

  datatype IngestAllOptions = IngestAllOptions(strategy: Option<SourceType>, categorySlug: Option<string>)

  /** The `where` of the source query: enabled, plus an optional type and category slug. */
  datatype SourceFilter = SourceFilter(kind: Option<SourceType>, categorySlug: Option<string>)

  datatype RunnerError = NoSourcesFound

  /** How one source's `ingestOne` ended: normally, or by throwing an error with an optional message. */
  datatype Outcome = Succeeded | Failed(message: Option<string>)

  /** A completion: the source, its outcome, and the time of the update that follows it. */
  datatype Completion = Completion(sourceId: string, outcome: Outcome, at: int)

  /** The counters one completion publishes. */
  datatype Progress = Progress(processed: nat, successes: nat, failures: seq<SourceFailure>)

  /** The source filter: the type only for an RSS or HTML strategy, the category only for a non-empty slug. */
  function BuildFilter(options: IngestAllOptions): (f: SourceFilter)
    ensures f.kind.Some? <==> options.strategy.Some? && options.strategy.value != AUTO
    ensures f.kind.Some? ==> f.kind == options.strategy
    ensures f.categorySlug.Some? <==> Truthy(options.categorySlug)
    ensures f.categorySlug.Some? ==> f.categorySlug == options.categorySlug
  {
    SourceFilter(if options.strategy.Some? && options.strategy.value != AUTO then options.strategy else None,
                 if Truthy(options.categorySlug) then options.categorySlug else None)
  }

  predicate Matches(f: SourceFilter, s: Source) {
    s.enabled && (f.kind.None? || s.kind == f.kind.value)
    && (f.categorySlug.None? || f.categorySlug.value in s.categories)
  }

  /** The sources the query returns, in table order. */
  function Select(f: SourceFilter, all: seq<Source>): (r: seq<Source>)
    ensures |r| <= |all|
    ensures forall s :: s in r <==> s in all && Matches(f, s)
  {
    if all == [] then []
    else
      var init := Select(f, all[..|all| - 1]);
      assert forall s :: s in all <==> s in all[..|all| - 1] || s == all[|all| - 1];
      if Matches(f, all[|all| - 1]) then init + [all[|all| - 1]] else init
  }

  /**
   * Which sources a run picks: enabled ones only; of the strategy's type
   * unless the strategy is absent or AUTO; in the category only when a
   * non-empty slug is given.
   */
  lemma SelectedSources(options: IngestAllOptions, all: seq<Source>, s: Source)
    ensures s in Select(BuildFilter(options), all) <==>
              && s in all && s.enabled
              && (options.strategy.None? || options.strategy == Some(AUTO) || s.kind == options.strategy.value)
              && (!Truthy(options.categorySlug) || options.categorySlug.value in s.categories)
  {
  }

  /** `error.message || 'Unknown error'` */
  function FailureMessage(m: Option<string>): (r: string)
    ensures r != ""
    ensures Truthy(m) ==> r == m.value
  {
    if Truthy(m) then m.value else "Unknown error"
  }

  /** How many of the completions succeeded. */
  function Successes(cs: seq<Completion>): (n: nat)
    ensures n <= |cs|
  {
    if cs == [] then 0
    else Successes(cs[..|cs| - 1]) + (if cs[|cs| - 1].outcome.Succeeded? then 1 else 0)
  }

  /** The failure list after the completions, in completion order. */
  function Failures(cs: seq<Completion>): seq<SourceFailure> {
    if cs == [] then []
    else
      var c := cs[|cs| - 1];
      Failures(cs[..|cs| - 1])
      + (if c.outcome.Failed? then [SourceFailure(c.sourceId, FailureMessage(c.outcome.message))] else [])
  }

  /** Every completion is counted exactly once: as a success or as a failure. */
  lemma {:induction false} EveryCompletionCounted(cs: seq<Completion>)
    ensures Successes(cs) + |Failures(cs)| == |cs|
  {
    if cs != [] {
      EveryCompletionCounted(cs[..|cs| - 1]);
    }
  }

  /** Failures are only ever appended: an earlier list is a prefix of every later one. */
  lemma {:induction false} FailuresOnlyGrow(cs: seq<Completion>, i: nat)
    requires i <= |cs|
    ensures Failures(cs[..i]) <= Failures(cs)
    decreases |cs|
  {
    if i < |cs| {
      assert cs[..|cs| - 1][..i] == cs[..i];
      FailuresOnlyGrow(cs[..|cs| - 1], i);
    } else {
      assert cs[..i] == cs;
    }
  }

  /** The record after the updates that follow the completions. */
  function Progressed(s: JobState, cs: seq<Completion>): JobState {
    if cs == [] then s
    else s.(processed := |cs|, successes := Successes(cs), failures := Failures(cs), updatedAt := cs[|cs| - 1].at)
  }

  /** One more completion: the counters move by exactly that completion. */
  lemma CountersStep(cs: seq<Completion>, i: nat)
    requires i < |cs|
    ensures Successes(cs[..i + 1]) == Successes(cs[..i]) + (if cs[i].outcome.Succeeded? then 1 else 0)
    ensures Failures(cs[..i + 1]) == Failures(cs[..i])
              + (if cs[i].outcome.Failed? then [SourceFailure(cs[i].sourceId, FailureMessage(cs[i].outcome.message))] else [])
  {
    assert cs[..i + 1][..i] == cs[..i];
  }

  /** The update published after completion `i` takes the record one completion further. */
  lemma ProgressedStep(s: JobState, cs: seq<Completion>, i: nat)
    requires i < |cs|
    ensures Apply(Progressed(s, cs[..i]),
                  JobUpdate(Some(i + 1), Some(Successes(cs[..i + 1])), Some(Failures(cs[..i + 1])), None, None),
                  cs[i].at)
            == Progressed(s, cs[..i + 1])
  {
    assert cs[..i + 1][..i] == cs[..i];
  }

  /** The record after the completions and the final `done` update. */
  function Finished(s: JobState, cs: seq<Completion>, doneAt: int): JobState {
    Progressed(s, cs).(done := true, updatedAt := doneAt)
  }

  /** The counters published after each completion. */
  function Snapshots(cs: seq<Completion>): seq<Progress> {
    seq(|cs|, k requires 0 <= k < |cs| => Progress(k + 1, Successes(cs[..k + 1]), Failures(cs[..k + 1])))
  }

  lemma SnapshotsStep(cs: seq<Completion>, i: nat)
    requires i < |cs|
    ensures Snapshots(cs[..i + 1]) == Snapshots(cs[..i]) + [Progress(i + 1, Successes(cs[..i + 1]), Failures(cs[..i + 1]))]
  {
    var longer := cs[..i + 1];
    forall k | 0 <= k <= i ensures Snapshots(longer)[k] == Progress(k + 1, Successes(cs[..k + 1]), Failures(cs[..k + 1])) {
      assert longer[..k + 1] == cs[..k + 1];
    }
    forall k | 0 <= k < i ensures Snapshots(cs[..i])[k] == Progress(k + 1, Successes(cs[..k + 1]), Failures(cs[..k + 1])) {
      assert cs[..i][..k + 1] == cs[..k + 1];
    }
  }

  /**
   * Every published snapshot satisfies processed = successes + failures,
   * and an earlier snapshot's failure list is a prefix of every later one's:
   * each publish hands out a copy that later appends do not touch.
   */
  lemma SnapshotsConsistent(cs: seq<Completion>)
    ensures |Snapshots(cs)| == |cs|
    ensures forall k :: 0 <= k < |cs| ==>
              var p := Snapshots(cs)[k]; p.processed == k + 1 && p.processed == p.successes + |p.failures|
    ensures forall k, l :: 0 <= k <= l < |cs| ==> Snapshots(cs)[k].failures <= Snapshots(cs)[l].failures
  {
    forall k | 0 <= k < |cs| ensures Snapshots(cs)[k].processed == Snapshots(cs)[k].successes + |Snapshots(cs)[k].failures| {
      EveryCompletionCounted(cs[..k + 1]);
    }
    forall k, l | 0 <= k <= l < |cs| ensures Snapshots(cs)[k].failures <= Snapshots(cs)[l].failures {
      assert cs[..l + 1][..k + 1] == cs[..k + 1];
      FailuresOnlyGrow(cs[..l + 1], k + 1);
    }
  }

  function SourceIds(sources: seq<Source>): (ids: seq<string>)
    ensures |ids| == |sources| && forall i :: 0 <= i < |sources| ==> ids[i] == sources[i].id
  {
    seq(|sources|, i requires 0 <= i < |sources| => sources[i].id)
  }

  function CompletedIds(cs: seq<Completion>): (ids: seq<string>)
    ensures |ids| == |cs| && forall i :: 0 <= i < |cs| ==> ids[i] == cs[i].sourceId
  {
    seq(|cs|, i requires 0 <= i < |cs| => cs[i].sourceId)
  }

  /**
   * The completions are those of the job's sources, one per source: every
   * task of `sources.map` settles exactly once before `Promise.all` resolves.
   */
  predicate CompletesEach(sources: seq<Source>, cs: seq<Completion>) {
    multiset(CompletedIds(cs)) == multiset(SourceIds(sources))
  }

  /**
   * After the run the job is done and has processed every one of its
   * sources, each counted as a success or a failure; a job opened for those
   * sources ends with processed equal to total.
   */
  lemma FinishedJob(s: JobState, sources: seq<Source>, cs: seq<Completion>, doneAt: int)
    requires CompletesEach(sources, cs)
    ensures var t := Finished(s, cs, doneAt);
            && t.done && t.canceled == s.canceled && t.jobId == s.jobId && t.total == s.total && t.startedAt == s.startedAt
            && (sources != [] ==> t.processed == |sources| && t.processed == t.successes + |t.failures|)
            && (sources == [] ==> t == s.(done := true, updatedAt := doneAt))
            && (s == NewJob(s.jobId, |sources|, s.startedAt) ==> t.processed == t.total)
  {
    assert |multiset(CompletedIds(cs))| == |multiset(SourceIds(sources))|;
    EveryCompletionCounted(cs);
  }

  /**
   * `startIngestAll`: select the sources; none is an error and opens no
   * job; otherwise open job `jobId` with one unit of work per source.
   * `jobId` is the caller's (the source derives it from the clock and a
   * random number).
   */
  method StartIngestAll(store: JobStore, options: IngestAllOptions, all: seq<Source>, jobId: string, now: int)
    returns (r: Result<string, RunnerError>, selected: seq<Source>)
    requires store.Valid()
    modifies store
    ensures store.Valid()
    ensures selected == Select(BuildFilter(options), all)
    ensures selected == [] ==>
              r == Failure(NoSourcesFound) && store.states == old(store.states) && store.order == old(store.order)
    ensures selected != [] ==>
              r == Success(jobId) && store.states == old(store.states)[jobId := NewJob(jobId, |selected|, now)]
              && store.order == if jobId in old(store.states) then old(store.order) else old(store.order) + [jobId]
  {
    selected := Select(BuildFilter(options), all);
    if |selected| == 0 {
      return Failure(NoSourcesFound), selected;
    }
    var state := store.CreateJobState(jobId, |selected|, now);
    r := Success(jobId);
  }

  /** Writes the counters after completion `i` to the job, taking its record one completion further. */
  method PublishProgress(store: JobStore, jobId: string, cs: seq<Completion>, i: nat,
                         processed: nat, successes: nat, failures: seq<SourceFailure>,
                         ghost start: map<string, JobState>)
    requires i < |cs| && store.Valid()
    requires processed == i + 1 && successes == Successes(cs[..i + 1]) && failures == Failures(cs[..i + 1])
    requires jobId !in start ==> store.states == start
    requires jobId in start ==> store.states == start[jobId := Progressed(start[jobId], cs[..i])]
    modifies store
    ensures store.Valid() && store.order == old(store.order)
    ensures jobId !in start ==> store.states == start
    ensures jobId in start ==> store.states == start[jobId := Progressed(start[jobId], cs[..i + 1])]
  {
    if jobId in start {
      ProgressedStep(start[jobId], cs, i);
    }
    store.UpdateJobState(jobId, JobUpdate(Some(processed), Some(successes), Some(failures), None, None), cs[i].at);
  }

  /**
   * `processIngestJob`: each completion counts one more processed source and
   * either one more success or one more failure, and publishes a copy of the
   * counters to the job; the run ends by marking the job done.  Cancelling
   * does not stop the counting.  `cs` are the completions of the tasks that
   * `sources.map` starts, in the order they finish.
   */
  method ProcessIngestJob(store: JobStore, jobId: string, sources: seq<Source>, cs: seq<Completion>, doneAt: int)
    returns (published: seq<Progress>)
    requires store.Valid() && CompletesEach(sources, cs)
    modifies store
    ensures store.Valid() && store.order == old(store.order)
    ensures jobId !in old(store.states) ==> store.states == old(store.states)
    ensures jobId in old(store.states) ==>
              store.states == old(store.states)[jobId := Finished(old(store.states)[jobId], cs, doneAt)]
    ensures jobId in old(store.states) && sources != [] ==>
              store.states[jobId].done && store.states[jobId].processed == |sources|
    ensures published == Snapshots(cs)
  {
    assert |multiset(CompletedIds(cs))| == |multiset(SourceIds(sources))|;
    var processed, successes, failures := 0, 0, [];
    published := [];
    ghost var start := store.states;
    for i := 0 to |cs|
      invariant store.Valid() && store.order == old(store.order)
      invariant processed == i && successes == Successes(cs[..i]) && failures == Failures(cs[..i])
      invariant published == Snapshots(cs[..i])
      invariant jobId !in start ==> store.states == start
      invariant jobId in start ==> store.states == start[jobId := Progressed(start[jobId], cs[..i])]
    {
      var c := cs[i];
      CountersStep(cs, i);
      if c.outcome.Succeeded? {
        successes := successes + 1;
      } else {
        failures := failures + [SourceFailure(c.sourceId, FailureMessage(c.outcome.message))];
      }
      processed := processed + 1;
      SnapshotsStep(cs, i);
      PublishProgress(store, jobId, cs, i, processed, successes, failures, start);
      published := published + [Progress(processed, successes, failures)];
    }
    assert cs[..|cs|] == cs;
    store.UpdateJobState(jobId, JobUpdate(None, None, None, Some(true), None), doneAt);
    if jobId in start {
      FinishedJob(start[jobId], sources, cs, doneAt);
    }
  }

  /** The handler of a crashed background run: mark the job done with the single failure `system`. */
  method CrashIngestJob(store: JobStore, jobId: string, message: string, now: int)
    requires store.Valid()
    modifies store
    ensures store.Valid() && store.order == old(store.order)
    ensures jobId !in old(store.states) ==> store.states == old(store.states)
    ensures jobId in old(store.states) ==>
              store.states == old(store.states)[jobId := old(store.states)[jobId].(
                done := true, failures := [SourceFailure("system", message)], updatedAt := now)]
  {
    store.UpdateJobState(jobId, JobUpdate(None, None, Some([SourceFailure("system", message)]), Some(true), None), now);
  }

  /** `cancelIngestJob`: an unknown or finished job is left alone; otherwise it is marked canceled and done. */
  method CancelIngestJob(store: JobStore, jobId: string, now: int) returns (canceled: bool)
    requires store.Valid()
    modifies store
    ensures store.Valid() && store.order == old(store.order)
    ensures canceled <==> jobId in old(store.states) && !old(store.states)[jobId].done
    ensures !canceled ==> store.states == old(store.states)
    ensures canceled ==>
              store.states == old(store.states)[jobId := old(store.states)[jobId].(
                canceled := true, done := true, updatedAt := now)]
  {
    var state := store.GetJobState(jobId);
    if state.None? || state.value.done {
      return false;
    }
    store.UpdateJobState(jobId, JobUpdate(None, None, None, Some(true), Some(true)), now);
    return true;
  }
}
