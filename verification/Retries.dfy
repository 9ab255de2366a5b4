/** The completion loop of one pass and the retry rounds after the main pass. */
module Retries {
  import opened Plans
  import opened Grouping
  import opened Scheduling
  import opened SchedulingRuns
  import opened Launcher
  import opened PlanOrders

  datatype Status = Status(returncode: int, errorKind: string) {
    /** The launcher's own test for a trial that went through. */
    predicate Ok() { returncode == 0 && errorKind == "" }
  }

  const SKIPPED := "skipped"

  datatype Outcome = Outcome(trial: Trial, status: Status)

  predicate DistinctIds(rs: seq<Trial>) {
    forall i, j :: 0 <= i < j < |rs| ==> rs[i].id != rs[j].id
  }

  /** `results[trial_id] = status`, completion after completion. */
  function Results(outcomes: seq<Outcome>): map<string, Status> {
    if outcomes == [] then map[]
    else
      var last := outcomes[|outcomes| - 1];
      Results(outcomes[..|outcomes| - 1])[last.trial.id := last.status]
  }

  // ---- one pass ---------------------------------------------------------------------------

  /** Futures `futures` have finished, in that order, and were not active any more. */
  ghost predicate Finished(log: seq<Trial>, active: map<nat, Trial>, futures: seq<nat>, outcomes: seq<Outcome>) {
    && |futures| == |outcomes|
    && NoDuplicates(futures)
    && (forall i :: 0 <= i < |futures| ==>
          futures[i] < |log| && futures[i] !in active && outcomes[i].trial == log[futures[i]])
    && (forall f :: 0 <= f < |log| ==> f in active || f in futures)
  }

  /** The body of `for future in done`. */
  method Collect(pass: SchedulingPass, done: set<nat>, ghost futures: seq<nat>, outcomes: seq<Outcome>)
    returns (ghost futures': seq<nat>, outcomes': seq<Outcome>)
    requires pass.Valid() && Finished(pass.log, pass.active, futures, outcomes)
    requires forall f :: f in done ==> f in pass.active
    modifies pass`active, pass`activeByBench, pass`activeByTask
    ensures pass.Valid() && pass.Model() == Complete(old(pass.Model()), done)
    ensures Finished(pass.log, pass.active, futures', outcomes')
  {
    futures', outcomes' := futures, outcomes;
    var left := done;
    while left != {}
      invariant pass.Valid() && left <= done
      invariant pass.active == old(pass.active) - (done - left)
      invariant Finished(pass.log, pass.active, futures', outcomes')
    {
      var f :| f in left;
      var status: Status := *;
      outcomes' := outcomes' + [Outcome(pass.active[f], status)];
      futures' := futures' + [f];
      pass.Retire(f);
      left := left - {f};
    }
    assert done - left == done;
  }

  /** One turn of `while active`: some futures complete, then submit_ready. */
  method OneTurn(pass: SchedulingPass, ghost cfg: Config, ghost records: seq<Trial>, ghost flag: bool,
                 ghost events: seq<Event>, stopped: bool, ghost futures: seq<nat>, outcomes: seq<Outcome>)
    returns (stopped': bool, ghost events': seq<Event>, ghost futures': seq<nat>, outcomes': seq<Outcome>)
    requires cfg.Valid() && pass.Valid() && pass.cfg == cfg && pass.active != map[]
    requires pass.Model() == After(cfg, records, flag, events) && Possible(cfg, records, flag, events)
    requires stopped <==> !NeverStopped(flag, events)
    requires Finished(pass.log, pass.active, futures, outcomes)
    modifies pass
    ensures pass.Valid() && pass.cfg == cfg
    ensures |events'| == |events| + 1 && |events'| <= |records|
    ensures pass.Model() == After(cfg, records, flag, events') && Possible(cfg, records, flag, events')
    ensures stopped' <==> !NeverStopped(flag, events')
    ensures stopped ==> stopped'
    ensures Finished(pass.log, pass.active, futures', outcomes')
  {
    var done: set<nat> :| done != {} && done <= pass.active.Keys;
    futures', outcomes' := Collect(pass, done, futures, outcomes);
    var raised: bool := *;
    stopped' := stopped || raised;
    ghost var e := Event(done, stopped');
    OneMoreTurn(cfg, records, flag, events, e, futures', outcomes');
    pass.SubmitReady(stopped');
    events' := events + [e];
    NothingSubmittedTwice(cfg, records, flag, events');
  }

  /** A pass over `records`: the flag its first submit_ready saw, and its turns. */
  datatype Run = Run(cfg: Config, records: seq<Trial>, flag: bool, events: seq<Event>)

  /** The turns are possible ones, the last leaves no future active, and `log` was launched. */
  ghost predicate Ran(run: Run, log: seq<Trial>) {
    && Possible(run.cfg, run.records, run.flag, run.events)
    && After(run.cfg, run.records, run.flag, run.events).log == log
    && After(run.cfg, run.records, run.flag, run.events).active == map[]
  }

  /** execute_pass: submit, wait for any completions, submit again, until no
      future is active. Which futures finish together, what they return and when
      the stop flag is raised are arbitrary. */
  method ExecutePass(cfg: Config, records: seq<Trial>, stop0: bool)
    returns (log: seq<Trial>, ghost futures: seq<nat>, outcomes: seq<Outcome>, stopped: bool, ghost run: Run)
    requires cfg.Valid()
    ensures stop0 ==> stopped
    ensures run.cfg == cfg && run.records == records && Ran(run, log)
    ensures multiset(log) <= multiset(records)
    ensures !stopped ==> multiset(log) == multiset(records)
    ensures Finished(log, map[], futures, outcomes)
  {
    var pass := new SchedulingPass(cfg, records);
    var raised: bool := *;
    stopped := stop0 || raised;
    ghost var flag := stopped;
    ghost var events: seq<Event> := [];
    futures, outcomes := [], [];
    pass.SubmitReady(stopped);
    FirstSubmission(cfg, records, flag);
    while pass.active != map[]
      invariant fresh(pass) && pass.Valid() && pass.cfg == cfg
      invariant pass.Model() == After(cfg, records, flag, events)
      invariant Possible(cfg, records, flag, events)
      invariant stopped <==> !NeverStopped(flag, events)
      invariant stop0 ==> stopped
      invariant Finished(pass.log, pass.active, futures, outcomes)
      decreases |records| - |events|
    {
      stopped, events, futures, outcomes := OneTurn(pass, cfg, records, flag, events, stopped, futures, outcomes);
    }
    log := pass.log;
    run := Run(cfg, records, flag, events);
    NothingSubmittedTwice(cfg, records, flag, events);
    if !stopped {
      EveryTrialOnce(cfg, records, flag, events);
    }
  }

  lemma FirstSubmission(cfg: Config, records: seq<Trial>, flag: bool)
    requires cfg.Valid()
    ensures var s := After(cfg, records, flag, []);
            Finished(s.log, s.active, [], [])
  {
    InitKept(cfg, records);
    SubmitKept(cfg, records, false, Init(cfg, records), flag);
  }

  lemma OneMoreTurn(cfg: Config, records: seq<Trial>, flag: bool, events: seq<Event>, e: Event,
                    futures: seq<nat>, outcomes: seq<Outcome>)
    requires cfg.Valid() && Possible(cfg, records, flag, events)
    requires CanHappen(After(cfg, records, flag, events), e)
    requires var s := Complete(After(cfg, records, flag, events), e.done);
             Finished(s.log, s.active, futures, outcomes)
    ensures var s := After(cfg, records, flag, events + [e]);
            && s == Scheduling.SubmitReady(cfg, Complete(After(cfg, records, flag, events), e.done), e.stop)
            && Finished(s.log, s.active, futures, outcomes)
    ensures Possible(cfg, records, flag, events + [e])
    ensures NeverStopped(flag, events + [e]) <==> NeverStopped(flag, events) && !e.stop
  {
    var before, more := After(cfg, records, flag, events), events + [e];
    DropLast(events, e);
    LastStop(flag, more);
    RunKept(cfg, records, flag, events);
    CompleteKept(cfg, records, !NeverStopped(flag, events), before, e.done);
    SubmitKept(cfg, records, !NeverStopped(flag, events), Complete(before, e.done), e.stop);
    StillFinished(Complete(before, e.done), After(cfg, records, flag, more), futures, outcomes);
  }

  lemma DropLast<T>(s: seq<T>, x: T)
    ensures (s + [x])[..|s + [x]| - 1] == s
  {
  }

  lemma StillFinished(s: State, s': State, futures: seq<nat>, outcomes: seq<Outcome>)
    requires Finished(s.log, s.active, futures, outcomes) && Grew(s, s')
    ensures Finished(s'.log, s'.active, futures, outcomes)
  {
  }

  // ---- retry rounds -----------------------------------------------------------------------

  /** One launch of a trial; `hadRow` says that its final result row already existed
      when its round selected it. */
  datatype Attempt = Attempt(trial: Trial, status: Status, round: nat, hadRow: bool)

  function OutcomeOf(a: Attempt): Outcome { Outcome(a.trial, a.status) }

  function Outcomes(history: seq<Attempt>): (r: seq<Outcome>)
    ensures |r| == |history|
  {
    seq(|history|, i requires 0 <= i < |history| => OutcomeOf(history[i]))
  }

  function Attempts(outcomes: seq<Outcome>, round: nat, rows: set<string>): (r: seq<Attempt>)
    ensures |r| == |outcomes|
  {
    seq(|outcomes|, i requires 0 <= i < |outcomes| =>
      Attempt(outcomes[i].trial, outcomes[i].status, round, outcomes[i].trial.id in rows))
  }

  /** retryable_records' test: failed, not skipped by an interrupt, and no final row. */
  predicate IsRetryable(t: Trial, statuses: map<string, Status>, rows: set<string>) {
    && t.id in statuses
    && !statuses[t.id].Ok()
    && statuses[t.id].errorKind != SKIPPED
    && t.id !in rows
  }

  function Retryable(selected: seq<Trial>, statuses: map<string, Status>, rows: set<string>): (r: seq<Trial>)
    ensures multiset(r) <= multiset(selected)
    ensures forall t :: t in r <==> t in selected && IsRetryable(t, statuses, rows)
  {
    if selected == [] then []
    else
      var init, last := selected[..|selected| - 1], selected[|selected| - 1];
      assert selected == init + [last];
      var r := Retryable(init, statuses, rows);
      if IsRetryable(last, statuses, rows) then r + [last] else r
  }

  /** The trial has a status, which is a failure but not a skip, and no final row. */
  predicate ShouldRetry(t: Trial, statuses: map<string, Status>, rows: set<string>) {
    && t.id in statuses && t.id !in rows
    && (statuses[t.id].returncode != 0 || statuses[t.id].errorKind != "")
    && statuses[t.id].errorKind != "skipped"
  }

  /** Exactly those of the selected records, in their order. */
  ghost predicate ToRetry(selected: seq<Trial>, statuses: map<string, Status>, rows: set<string>, retry: seq<Trial>) {
    exists at: seq<nat> :: FoundAt(retry, selected, at) && RetriedAt(selected, statuses, rows, at)
  }

  ghost predicate RetriedAt(selected: seq<Trial>, statuses: map<string, Status>, rows: set<string>, at: seq<nat>) {
    forall p: nat :: p in at <==> p < |selected| && ShouldRetry(selected[p], statuses, rows)
  }

  lemma {:induction false} RetryableAt(selected: seq<Trial>, statuses: map<string, Status>, rows: set<string>)
    returns (at: seq<nat>)
    ensures FoundAt(Retryable(selected, statuses, rows), selected, at) && RetriedAt(selected, statuses, rows, at)
  {
    if selected == [] {
      at := [];
    } else {
      var n := |selected| - 1;
      at := RetryableAt(selected[..n], statuses, rows);
      FoundNext(Retryable(selected[..n], statuses, rows), selected, at);
      if ShouldRetry(selected[n], statuses, rows) {
        RetriedNext(selected, statuses, rows, at);
        at := at + [n];
      } else {
        NotRetriedNext(selected, statuses, rows, at);
      }
    }
  }

  lemma RetriedNext(selected: seq<Trial>, statuses: map<string, Status>, rows: set<string>, at: seq<nat>)
    requires selected != [] && RetriedAt(selected[..|selected| - 1], statuses, rows, at)
    requires ShouldRetry(selected[|selected| - 1], statuses, rows)
    ensures RetriedAt(selected, statuses, rows, at + [|selected| - 1])
  {
  }

  lemma NotRetriedNext(selected: seq<Trial>, statuses: map<string, Status>, rows: set<string>, at: seq<nat>)
    requires selected != [] && RetriedAt(selected[..|selected| - 1], statuses, rows, at)
    requires !ShouldRetry(selected[|selected| - 1], statuses, rows)
    ensures RetriedAt(selected, statuses, rows, at)
  {
  }

  method RetryableRecords(selected: seq<Trial>, statuses: map<string, Status>, rows: set<string>)
    returns (retry: seq<Trial>)
    ensures retry == Retryable(selected, statuses, rows)
    ensures ToRetry(selected, statuses, rows, retry)
  {
    retry := [];
    for n := 0 to |selected|
      invariant retry == Retryable(selected[..n], statuses, rows)
    {
      var record := selected[n];
      assert selected[..n + 1][..n] == selected[..n];
      if record.id !in statuses {
        continue;
      }
      var status := statuses[record.id];
      if status.Ok() || status.errorKind == SKIPPED || record.id in rows {
        continue;
      }
      retry := retry + [record];
    }
    assert selected[..|selected|] == selected;
    ghost var at := RetryableAt(selected, statuses, rows);
  }

  /** A later attempt of a trial belongs to a later round; the earlier one failed,
      was not skipped, and had left no final row when the later one was selected. */
  ghost predicate RetryDiscipline(history: seq<Attempt>) {
    forall i, j :: 0 <= i < j < |history| && history[i].trial.id == history[j].trial.id ==>
                     && history[i].round < history[j].round
                     && (history[i].status.returncode != 0 || history[i].status.errorKind != "")
                     && history[i].status.errorKind != "skipped"
                     && !history[j].hadRow
  }

  predicate DistinctOutcomes(outcomes: seq<Outcome>) {
    forall i, j :: 0 <= i < j < |outcomes| ==> outcomes[i].trial.id != outcomes[j].trial.id
  }

  /** A result is the status of the last completion of its trial. */
  lemma {:induction false} ResultIsLast(outcomes: seq<Outcome>, id: string) returns (k: nat)
    requires id in Results(outcomes)
    ensures k < |outcomes| && outcomes[k].trial.id == id && Results(outcomes)[id] == outcomes[k].status
    ensures forall j :: k < j < |outcomes| ==> outcomes[j].trial.id != id
  {
    k := |outcomes| - 1;
    if outcomes[k].trial.id != id {
      var init := outcomes[..k];
      k := ResultIsLast(init, id);
      forall j | k < j < |outcomes| ensures outcomes[j].trial.id != id {
        if j < |init| {
          assert init[j] == outcomes[j];
        }
      }
    }
  }

  lemma {:induction false} ResultsKeys(outcomes: seq<Outcome>, i: nat)
    requires i < |outcomes|
    ensures outcomes[i].trial.id in Results(outcomes)
  {
    var n := |outcomes| - 1;
    if i < n {
      ResultsKeys(outcomes[..n], i);
    }
  }

  lemma {:induction false} ResultsConcat(a: seq<Outcome>, b: seq<Outcome>)
    ensures Results(a + b) == Results(a) + Results(b)
  {
    if b == [] {
      assert a + b == a;
    } else {
      var init, last := b[..|b| - 1], b[|b| - 1];
      ResultsConcat(a, init);
      assert (a + b)[..|a + b| - 1] == a + init;
    }
  }

  /** If the last status of a trial is a failure then so are all the earlier ones. */
  lemma EarlierFailed(history: seq<Attempt>, t: Trial, rows: set<string>, i: nat)
    requires RetryDiscipline(history) && IsRetryable(t, Results(Outcomes(history)), rows)
    requires i < |history| && history[i].trial.id == t.id
    ensures !history[i].status.Ok() && history[i].status.errorKind != SKIPPED
  {
    var outcomes := Outcomes(history);
    var k := ResultIsLast(outcomes, t.id);
    assert outcomes[i].trial.id == t.id;
  }

  lemma AppendedDiffer(history: seq<Attempt>, outcomes: seq<Outcome>, round: nat, rows: set<string>, i: nat, j: nat)
    requires DistinctOutcomes(outcomes) && |history| <= i < j < |history| + |outcomes|
    ensures var all := history + Attempts(outcomes, round, rows); all[i].trial.id != all[j].trial.id
  {
  }

  /** Appending a retry round keeps the discipline. */
  lemma RoundKeepsDiscipline(history: seq<Attempt>, outcomes: seq<Outcome>, round: nat, rows: set<string>)
    requires RetryDiscipline(history) && DistinctOutcomes(outcomes)
    requires forall i :: 0 <= i < |history| ==> history[i].round < round
    requires forall i :: 0 <= i < |outcomes| ==>
                           IsRetryable(outcomes[i].trial, Results(Outcomes(history)), rows) || history == []
    ensures RetryDiscipline(history + Attempts(outcomes, round, rows))
  {
    var all := history + Attempts(outcomes, round, rows);
    var h := |history|;
    forall i, j | 0 <= i < j < |all| && all[i].trial.id == all[j].trial.id
      ensures all[i].round < all[j].round && !all[i].status.Ok() && all[i].status.errorKind != SKIPPED && !all[j].hadRow
    {
      if j < h {
        assert all[i] == history[i] && all[j] == history[j];
      } else if i < h {
        assert all[i] == history[i];
        EarlierFailed(history, outcomes[j - h].trial, rows, i);
      } else {
        AppendedDiffer(history, outcomes, round, rows, i, j);
        assert false;
      }
    }
  }

  lemma SubplanDistinct(a: seq<Trial>, b: seq<Trial>)
    requires multiset(a) <= multiset(b) && DistinctIds(b)
    ensures DistinctIds(a)
  {
    forall i, j | 0 <= i < j < |a| ensures a[i].id != a[j].id {
      if a[i].id == a[j].id {
        assert a[i] in multiset(a) && a[j] in multiset(a);
        assert a[i] in b && a[j] in b;
        SameIdSameTrial(b, a[i], a[j]);
        RepeatCountsTwice(a, i, j);
        DistinctCountsOnce(b, a[i]);
        assert false;
      }
    }
  }

  lemma SameIdSameTrial(b: seq<Trial>, x: Trial, y: Trial)
    requires DistinctIds(b) && x in b && y in b && x.id == y.id
    ensures x == y
  {
    var i :| 0 <= i < |b| && b[i] == x;
    var j :| 0 <= j < |b| && b[j] == y;
  }

  /** The completions of a pass over distinct trials are of distinct trials. */
  lemma OutcomesDistinct(records: seq<Trial>, log: seq<Trial>, futures: seq<nat>, outcomes: seq<Outcome>)
    requires DistinctIds(records) && multiset(log) <= multiset(records)
    requires Finished(log, map[], futures, outcomes)
    ensures DistinctOutcomes(outcomes)
    ensures forall i :: 0 <= i < |outcomes| ==> outcomes[i].trial in records
  {
    SubplanDistinct(log, records);
    forall i, j | 0 <= i < j < |outcomes| ensures outcomes[i].trial.id != outcomes[j].trial.id {
      assert outcomes[i].trial == log[futures[i]] && outcomes[j].trial == log[futures[j]];
    }
    forall i | 0 <= i < |outcomes| ensures outcomes[i].trial in records {
      assert outcomes[i].trial == log[futures[i]];
      assert outcomes[i].trial in multiset(log);
    }
  }

  /** A pass that was not stopped leaves a result for every record. */
  lemma EveryRecordHasResult(records: seq<Trial>, log: seq<Trial>, futures: seq<nat>, outcomes: seq<Outcome>)
    requires multiset(log) == multiset(records)
    requires Finished(log, map[], futures, outcomes)
    ensures forall t :: t in records ==> t.id in Results(outcomes)
  {
    forall t | t in records ensures t.id in Results(outcomes) {
      assert t in multiset(records);
      assert t in log;
      var f :| 0 <= f < |log| && log[f] == t;
      assert f in futures;
      var i :| 0 <= i < |futures| && futures[i] == f;
      ResultsKeys(outcomes, i);
    }
  }

  function RetryConfig(cfg: Config, retryWorkers: int): Config {
    var fallback := if cfg.passWorkers < 8 then cfg.passWorkers else 8;
    Config(if retryWorkers > 0 then retryWorkers else if fallback < 1 then 1 else fallback,
           cfg.caps, 0, cfg.concurrentTrials)
  }

  /** What holds of the attempts made so far and of the statuses kept of them. */
  ghost predicate Accounted(selected: seq<Trial>, history: seq<Attempt>, statuses: map<string, Status>, rounds: nat) {
    && RetryDiscipline(history)
    && statuses == Results(Outcomes(history))
    && (forall i :: 0 <= i < |history| ==> history[i].round <= rounds && history[i].trial in selected)
  }

  lemma RoundAccounted(selected: seq<Trial>, history: seq<Attempt>, statuses: map<string, Status>, rounds: nat,
                       rows: set<string>, log: seq<Trial>, futures: seq<nat>, outcomes: seq<Outcome>)
    requires DistinctIds(selected) && Accounted(selected, history, statuses, rounds)
    requires multiset(log) <= multiset(Retryable(selected, statuses, rows))
    requires Finished(log, map[], futures, outcomes)
    ensures Accounted(selected, history + Attempts(outcomes, rounds + 1, rows), statuses + Results(outcomes), rounds + 1)
  {
    var chosen := Retryable(selected, statuses, rows);
    SubplanDistinct(chosen, selected);
    OutcomesDistinct(chosen, log, futures, outcomes);
    RoundKeepsDiscipline(history, outcomes, rounds + 1, rows);
    AttemptsAreOutcomes(history, outcomes, rounds + 1, rows);
    AttemptsBelong(selected, history, outcomes, rounds, rows);
  }

  lemma AttemptsBelong(selected: seq<Trial>, history: seq<Attempt>, outcomes: seq<Outcome>, rounds: nat, rows: set<string>)
    requires forall i :: 0 <= i < |history| ==> history[i].round <= rounds && history[i].trial in selected
    requires forall i :: 0 <= i < |outcomes| ==> outcomes[i].trial in selected
    ensures var all := history + Attempts(outcomes, rounds + 1, rows);
            forall i :: 0 <= i < |all| ==> all[i].round <= rounds + 1 && all[i].trial in selected
  {
  }

  lemma AttemptsAreOutcomes(history: seq<Attempt>, outcomes: seq<Outcome>, round: nat, rows: set<string>)
    ensures Results(Outcomes(history + Attempts(outcomes, round, rows)))
            == Results(Outcomes(history)) + Results(outcomes)
  {
    assert Outcomes(history + Attempts(outcomes, round, rows)) == Outcomes(history) + outcomes;
    ResultsConcat(Outcomes(history), outcomes);
  }

  const ById: Attempt -> string := (a: Attempt) => a.trial.id

  /** Launches of a trial. */
  function Launches(history: seq<Attempt>, id: string): nat {
    |Pick(history, ById, id)|
  }

  /** Launches counts the attempts of a trial. */
  lemma LaunchesAre(history: seq<Attempt>, id: string) returns (at: seq<nat>)
    ensures |at| == Launches(history, id) && Increasing(at)
    ensures forall p: nat :: p in at <==> p < |history| && history[p].trial.id == id
  {
    at := PickedAt(history, ById, id);
  }

  lemma {:induction false} AtMostOneOutcome(attempts: seq<Attempt>, id: string)
    requires forall i, j :: 0 <= i < j < |attempts| ==> attempts[i].trial.id != attempts[j].trial.id
    ensures Launches(attempts, id) <= 1
  {
    if attempts != [] {
      var rest := attempts[1..];
      assert forall i :: 0 <= i < |rest| ==> rest[i] == attempts[i + 1];
      AtMostOneOutcome(rest, id);
      if attempts[0].trial.id == id {
        PickNone(rest, ById, id);
      }
    }
  }

  /** A pass that was not stopped launches each of its records once. */
  lemma LaunchedOnce(records: seq<Trial>, log: seq<Trial>, futures: seq<nat>, outcomes: seq<Outcome>,
                     round: nat, rows: set<string>, t: Trial)
    requires DistinctIds(records) && multiset(log) == multiset(records) && t in records
    requires Finished(log, map[], futures, outcomes)
    ensures Launches(Attempts(outcomes, round, rows), t.id) == 1
  {
    var attempts := Attempts(outcomes, round, rows);
    OutcomesDistinct(records, log, futures, outcomes);
    EveryRecordHasResult(records, log, futures, outcomes);
    AtMostOneOutcome(attempts, t.id);
    var k := ResultIsLast(outcomes, t.id);
    PickMembers(attempts, ById, t.id);
    assert attempts[k] in Pick(attempts, ById, t.id);
  }

  /** Whoever could still be retried has been launched in the main pass and every round. */
  ghost predicate Exhausted(selected: seq<Trial>, history: seq<Attempt>, statuses: map<string, Status>, rounds: nat,
                            rows: set<string>)
  {
    forall t :: t in selected && ShouldRetry(t, statuses, rows) ==> Launches(history, t.id) == 1 + rounds
  }

  lemma RoundExhausts(selected: seq<Trial>, history: seq<Attempt>, statuses: map<string, Status>, rounds: nat,
                      before: set<string>, rows: set<string>, retry: seq<Trial>, log: seq<Trial>, futures: seq<nat>,
                      outcomes: seq<Outcome>)
    requires DistinctIds(selected) && before <= rows && Exhausted(selected, history, statuses, rounds, before)
    requires multiset(retry) == multiset(Retryable(selected, statuses, rows)) && multiset(log) == multiset(retry)
    requires Finished(log, map[], futures, outcomes)
    ensures Exhausted(selected, history + Attempts(outcomes, rounds + 1, rows), statuses + Results(outcomes), rounds + 1, rows)
  {
    var chosen := Retryable(selected, statuses, rows);
    var attempts := Attempts(outcomes, rounds + 1, rows);
    SubplanDistinct(chosen, selected);
    forall t | t in selected && ShouldRetry(t, statuses + Results(outcomes), rows)
      ensures Launches(history + attempts, t.id) == 2 + rounds
    {
      PickConcat(history, attempts, ById, t.id);
      if t !in chosen {
        NotChosenNoResult(selected, chosen, log, futures, outcomes, t);
      }
      LaunchedOnce(chosen, log, futures, outcomes, rounds + 1, rows, t);
    }
  }

  /** A pass gives no result for a trial it was not handed. */
  lemma NotChosenNoResult(selected: seq<Trial>, chosen: seq<Trial>, log: seq<Trial>, futures: seq<nat>,
                          outcomes: seq<Outcome>, t: Trial)
    requires DistinctIds(selected) && multiset(chosen) <= multiset(selected) && t in selected && t !in chosen
    requires multiset(log) == multiset(chosen) && Finished(log, map[], futures, outcomes)
    ensures t.id !in Results(outcomes)
  {
    if t.id in Results(outcomes) {
      var other := ResultOfChosen(selected, chosen, log, futures, outcomes, t.id);
      SameIdSameTrial(selected, t, other);
    }
  }

  lemma ResultOfChosen(selected: seq<Trial>, chosen: seq<Trial>, log: seq<Trial>, futures: seq<nat>,
                       outcomes: seq<Outcome>, id: string) returns (other: Trial)
    requires DistinctIds(selected) && multiset(chosen) <= multiset(selected)
    requires multiset(log) == multiset(chosen) && Finished(log, map[], futures, outcomes)
    requires id in Results(outcomes)
    ensures other in chosen && other in selected && other.id == id
  {
    SubplanDistinct(chosen, selected);
    OutcomesDistinct(chosen, log, futures, outcomes);
    var k := ResultIsLast(outcomes, id);
    other := outcomes[k].trial;
    assert other in multiset(chosen);
    assert other in multiset(selected);
  }

  /** One pass of the whole run: its turns, what it launched, the order in which its futures
      finished, and the attempts that makes. */
  datatype Round = Round(run: Run, log: seq<Trial>, futures: seq<nat>, attempts: seq<Attempt>)

  ghost predicate RoundRan(round: Round, number: nat) {
    && Ran(round.run, round.log)
    && Finished(round.log, map[], round.futures, Outcomes(round.attempts))
    && forall i :: 0 <= i < |round.attempts| ==> round.attempts[i].round == number
  }

  /** The attempts of all rounds, one after the other. */
  function AllAttempts(rounds: seq<Round>): seq<Attempt> {
    if rounds == [] then [] else AllAttempts(rounds[..|rounds| - 1]) + rounds[|rounds| - 1].attempts
  }

  /** A retry runs the same caps without a window, on the workers asked for, or else on those of the
      main pass kept between one and eight. */
  predicate RetrySettings(main: Config, retryWorkers: int, cfg: Config) {
    && cfg.caps == main.caps && cfg.concurrentTrials == main.concurrentTrials && cfg.taskWindow <= 0
    && (retryWorkers > 0 ==> cfg.passWorkers == retryWorkers)
    && (retryWorkers <= 0 ==> 1 <= cfg.passWorkers <= 8 && (1 <= main.passWorkers <= 8 ==> cfg.passWorkers == main.passWorkers)
                              && (main.passWorkers > 8 ==> cfg.passWorkers == 8))
  }

  /** Retry round `number`: a pass with these settings over the interleaving of the records that
      should be retried after the attempts so far, when `rows` had final rows. */
  ghost predicate RetryRan(main: Config, selected: seq<Trial>, retryWorkers: int, sofar: seq<Attempt>, rows: set<string>,
                           round: Round, number: nat)
  {
    && RoundRan(round, number)
    && RetrySettings(main, retryWorkers, round.run.cfg)
    && exists retry :: retry != [] && ToRetry(selected, Results(Outcomes(sofar)), rows, retry)
                       && round.run.records == Interleaved(retry)
  }

  lemma AttemptsRan(run: Run, log: seq<Trial>, futures: seq<nat>, outcomes: seq<Outcome>, number: nat, rows: set<string>)
    requires Ran(run, log) && Finished(log, map[], futures, outcomes)
    ensures RoundRan(Round(run, log, futures, Attempts(outcomes, number, rows)), number)
  {
    assert Outcomes(Attempts(outcomes, number, rows)) == outcomes;
  }

  lemma RetryPassRan(main: Config, selected: seq<Trial>, retryWorkers: int, history: seq<Attempt>, rows: set<string>,
                     chosen: seq<Trial>, outcomes: seq<Outcome>, ran: Round, number: nat)
    requires Ran(ran.run, ran.log) && Finished(ran.log, map[], ran.futures, outcomes)
    requires ran.run.cfg == RetryConfig(main, retryWorkers) && ran.run.records == Interleaved(chosen)
    requires ran.attempts == Attempts(outcomes, number, rows)
    requires chosen != [] && ToRetry(selected, Results(Outcomes(history)), rows, chosen)
    ensures RetryRan(main, selected, retryWorkers, history, rows, ran, number)
  {
    AttemptsRan(ran.run, ran.log, ran.futures, outcomes, number, rows);
  }

  ghost predicate RetryRanAt(main: Config, selected: seq<Trial>, retryWorkers: int, rounds: seq<Round>, seen: seq<set<string>>,
                             n: nat)
    requires n < |rounds| == |seen|
  {
    RetryRan(main, selected, retryWorkers, AllAttempts(rounds[..n]), seen[n], rounds[n], n)
  }

  /** The main pass and the retry rounds so far, each with the final rows seen when it was chosen. */
  ghost predicate RoundsRan(main: Config, selected: seq<Trial>, retryWorkers: int, rounds: seq<Round>, seen: seq<set<string>>) {
    |rounds| == |seen| > 0 && MainRan(main, selected, rounds[0]) && RetriesRan(main, selected, retryWorkers, rounds, seen)
  }

  ghost predicate MainRan(main: Config, selected: seq<Trial>, round: Round) {
    round.run.cfg == main && round.run.records == selected && RoundRan(round, 0)
  }

  ghost predicate RetriesRan(main: Config, selected: seq<Trial>, retryWorkers: int, rounds: seq<Round>, seen: seq<set<string>>)
    requires |rounds| == |seen|
  {
    forall n :: 0 < n < |rounds| ==> RetryRanAt(main, selected, retryWorkers, rounds, seen, n)
  }

  lemma RetryStays(main: Config, selected: seq<Trial>, retryWorkers: int, rounds: seq<Round>, seen: seq<set<string>>,
                   round: Round, rows: set<string>, n: nat)
    requires n < |rounds| == |seen| && RetryRanAt(main, selected, retryWorkers, rounds, seen, n)
    ensures RetryRanAt(main, selected, retryWorkers, rounds + [round], seen + [rows], n)
  {
    assert (rounds + [round])[..n] == rounds[..n];
  }

  lemma RetryAdded(main: Config, selected: seq<Trial>, retryWorkers: int, rounds: seq<Round>, seen: seq<set<string>>,
                   round: Round, rows: set<string>)
    requires |rounds| == |seen|
    requires RetryRan(main, selected, retryWorkers, AllAttempts(rounds), rows, round, |rounds|)
    ensures RetryRanAt(main, selected, retryWorkers, rounds + [round], seen + [rows], |rounds|)
    ensures AllAttempts(rounds + [round]) == AllAttempts(rounds) + round.attempts
  {
    assert (rounds + [round])[..|rounds|] == rounds;
  }

  lemma OneMoreRound(main: Config, selected: seq<Trial>, retryWorkers: int, rounds: seq<Round>, seen: seq<set<string>>,
                     round: Round, rows: set<string>)
    requires RoundsRan(main, selected, retryWorkers, rounds, seen)
    requires RetryRan(main, selected, retryWorkers, AllAttempts(rounds), rows, round, |rounds|)
    ensures RoundsRan(main, selected, retryWorkers, rounds + [round], seen + [rows])
    ensures AllAttempts(rounds + [round]) == AllAttempts(rounds) + round.attempts
  {
    RetryAdded(main, selected, retryWorkers, rounds, seen, round, rows);
    RetriesStay(main, selected, retryWorkers, rounds, seen, round, rows);
  }

  lemma RetriesStay(main: Config, selected: seq<Trial>, retryWorkers: int, rounds: seq<Round>, seen: seq<set<string>>,
                    round: Round, rows: set<string>)
    requires |rounds| == |seen| && RetriesRan(main, selected, retryWorkers, rounds, seen)
    requires RetryRanAt(main, selected, retryWorkers, rounds + [round], seen + [rows], |rounds|)
    ensures RetriesRan(main, selected, retryWorkers, rounds + [round], seen + [rows])
  {
    forall n | 0 < n < |rounds + [round]|
      ensures RetryRanAt(main, selected, retryWorkers, rounds + [round], seen + [rows], n)
    {
      if n < |rounds| {
        RetryStays(main, selected, retryWorkers, rounds, seen, round, rows, n);
      }
    }
  }

  /** One retry round: select, interleave, run at lower concurrency; `again` is false when
      there was nothing to retry. */
  method RetryRound(cfg: Config, selected: seq<Trial>, retryWorkers: int, round: nat, ghost before: set<string>,
                    rows: set<string>, history: seq<Attempt>, statuses: map<string, Status>, stopped: bool)
    returns (again: bool, history': seq<Attempt>, statuses': map<string, Status>, stopped': bool, ghost ran: Round)
    requires cfg.Valid() && DistinctIds(selected) && before <= rows && !stopped
    requires Accounted(selected, history, statuses, round)
    requires Exhausted(selected, history, statuses, round, before)
    ensures !again ==> !stopped' && forall t :: t in selected ==> !ShouldRetry(t, statuses, rows)
    ensures again ==> Accounted(selected, history', statuses', round + 1)
    ensures again && !stopped' ==> Exhausted(selected, history', statuses', round + 1, rows)
    ensures again ==> forall id :: id in statuses ==> id in statuses'
    ensures again ==> history' == history + ran.attempts
                      && RetryRan(cfg, selected, retryWorkers, history, rows, ran, round + 1)
  {
    var chosen := RetryableRecords(selected, statuses, rows);
    if chosen == [] {
      assert forall t :: t in selected ==> t !in chosen;
      return false, history, statuses, stopped, Round(Run(cfg, [], false, []), [], [], []);
    }
    InterleavingKeepsTasks(chosen);
    var retry := InterleaveByTask(chosen);
    var log, outcomes;
    ghost var futures, run;
    log, futures, outcomes, stopped', run := ExecutePass(RetryConfig(cfg, retryWorkers), retry, stopped);
    RoundAccounted(selected, history, statuses, round, rows, log, futures, outcomes);
    if !stopped' {
      RoundExhausts(selected, history, statuses, round, before, rows, retry, log, futures, outcomes);
    }
    ran := Round(run, log, futures, Attempts(outcomes, round + 1, rows));
    RetryPassRan(cfg, selected, retryWorkers, history, rows, chosen, outcomes, ran, round + 1);
    return true, history + Attempts(outcomes, round + 1, rows), statuses + Results(outcomes), stopped', ran;
  }

  /** `rows` plays no part in the main pass: nothing is selected by it. */
  method MainPass(cfg: Config, selected: seq<Trial>, rows: set<string>)
    returns (history: seq<Attempt>, statuses: map<string, Status>, stopped: bool, ghost ran: Round)
    requires cfg.Valid() && DistinctIds(selected)
    ensures MainRan(cfg, selected, ran) && history == ran.attempts
    ensures Accounted(selected, history, statuses, 0)
    ensures !stopped ==> Exhausted(selected, history, statuses, 0, rows)
    ensures !stopped ==> forall t :: t in selected ==> t.id in statuses
  {
    var log, outcomes;
    ghost var futures, run;
    log, futures, outcomes, stopped, run := ExecutePass(cfg, selected, false);
    statuses, history := Results(outcomes), Attempts(outcomes, 0, rows);
    AttemptsRan(run, log, futures, outcomes, 0, rows);
    ran := Round(run, log, futures, history);
    MainPassAccounted(selected, rows, log, futures, outcomes);
    if !stopped {
      EveryRecordHasResult(selected, log, futures, outcomes);
      forall t | t in selected ensures Launches(history, t.id) == 1 {
        LaunchedOnce(selected, log, futures, outcomes, 0, rows, t);
      }
    }
  }

  lemma MainPassAccounted(selected: seq<Trial>, rows: set<string>, log: seq<Trial>, futures: seq<nat>, outcomes: seq<Outcome>)
    requires DistinctIds(selected) && multiset(log) <= multiset(selected) && Finished(log, map[], futures, outcomes)
    ensures Accounted(selected, Attempts(outcomes, 0, rows), Results(outcomes), 0)
  {
    OutcomesDistinct(selected, log, futures, outcomes);
    FirstRoundDiscipline(outcomes, rows);
    FirstResults(outcomes, rows);
    FirstAttemptsBelong(selected, outcomes, rows);
  }

  lemma FirstResults(outcomes: seq<Outcome>, rows: set<string>)
    ensures Results(Outcomes(Attempts(outcomes, 0, rows))) == Results(outcomes)
  {
    assert Outcomes(Attempts(outcomes, 0, rows)) == outcomes;
  }

  lemma FirstAttemptsBelong(selected: seq<Trial>, outcomes: seq<Outcome>, rows: set<string>)
    requires forall i :: 0 <= i < |outcomes| ==> outcomes[i].trial in selected
    ensures var history := Attempts(outcomes, 0, rows);
            forall i :: 0 <= i < |history| ==> history[i].round <= 0 && history[i].trial in selected
  {
  }

  /** Distinct outcomes give attempts of distinct trials. */
  lemma FirstRoundDiscipline(outcomes: seq<Outcome>, rows: set<string>)
    requires DistinctOutcomes(outcomes)
    ensures RetryDiscipline(Attempts(outcomes, 0, rows))
  {
    var history := Attempts(outcomes, 0, rows);
    assert forall i :: 0 <= i < |history| ==> history[i].trial == outcomes[i].trial;
  }

  /** The attempts are those of these rounds, and no final row that was seen is missing. */
  ghost predicate MadeBy(main: Config, selected: seq<Trial>, retryWorkers: int, rounds: seq<Round>, seen: seq<set<string>>,
                         history: seq<Attempt>, rows: set<string>)
  {
    RoundsRan(main, selected, retryWorkers, rounds, seen) && history == AllAttempts(rounds) && seen[|seen| - 1] <= rows
  }

  lemma MadeByMain(main: Config, selected: seq<Trial>, retryWorkers: int, ran: Round, rows: set<string>)
    requires MainRan(main, selected, ran)
    ensures MadeBy(main, selected, retryWorkers, [ran], [rows], ran.attempts, rows)
  {
    assert [ran][..0] == [];
    assert AllAttempts([ran]) == [] + ran.attempts;
  }

  lemma MoreRows(main: Config, selected: seq<Trial>, retryWorkers: int, rounds: seq<Round>, seen: seq<set<string>>,
                 history: seq<Attempt>, rows: set<string>, newRows: set<string>)
    requires MadeBy(main, selected, retryWorkers, rounds, seen, history, rows)
    ensures MadeBy(main, selected, retryWorkers, rounds, seen, history, rows + newRows)
  {
  }

  lemma MadeByOneMore(main: Config, selected: seq<Trial>, retryWorkers: int, rounds: seq<Round>, seen: seq<set<string>>,
                      history: seq<Attempt>, ran: Round, rows: set<string>)
    requires MadeBy(main, selected, retryWorkers, rounds, seen, history, rows)
    requires RetryRan(main, selected, retryWorkers, history, rows, ran, |rounds|)
    ensures MadeBy(main, selected, retryWorkers, rounds + [ran], seen + [rows], history + ran.attempts, rows)
  {
    OneMoreRound(main, selected, retryWorkers, rounds, seen, ran, rows);
  }

  /** The main pass and the retry rounds. */
  method LaunchAll(cfg: Config, selected: seq<Trial>, retryRounds: int, retryWorkers: int)
    returns (statuses: map<string, Status>, history: seq<Attempt>, rows: set<string>, failed: set<string>, stopped: bool,
             ghost rounds: seq<Round>, ghost seen: seq<set<string>>)
    requires cfg.Valid() && DistinctIds(selected)
    ensures |rounds| <= 1 + (if retryRounds > 0 then retryRounds else 0)
    ensures MadeBy(cfg, selected, retryWorkers, rounds, seen, history, rows)
    ensures Accounted(selected, history, statuses, if retryRounds > 0 then retryRounds else 0)
    ensures !stopped ==> Exhausted(selected, history, statuses, if retryRounds > 0 then retryRounds else 0, rows)
    ensures !stopped ==> forall t :: t in selected ==> t.id in statuses
    ensures forall id :: id in failed <==> id in statuses && (statuses[id].returncode != 0 || statuses[id].errorKind != "")
  {
    rows := *;
    ghost var ran;
    history, statuses, stopped, ran := MainPass(cfg, selected, rows);
    rounds, seen := [ran], [rows];
    MadeByMain(cfg, selected, retryWorkers, ran, rows);
    var round := 0;
    while round < retryRounds && !stopped
      invariant 0 <= round <= if retryRounds > 0 then retryRounds else 0
      invariant Accounted(selected, history, statuses, round)
      invariant !stopped ==> forall t :: t in selected ==> t.id in statuses
      invariant !stopped ==> Exhausted(selected, history, statuses, round, rows)
      invariant |rounds| == round + 1 && MadeBy(cfg, selected, retryWorkers, rounds, seen, history, rows)
    {
      var newRows: set<string> := *;
      var again, history', statuses';
      again, history', statuses', stopped, ran :=
        RetryRound(cfg, selected, retryWorkers, round, rows, rows + newRows, history, statuses, stopped);
      MoreRows(cfg, selected, retryWorkers, rounds, seen, history, rows, newRows);
      rows := rows + newRows;
      if !again {
        break;
      }
      MadeByOneMore(cfg, selected, retryWorkers, rounds, seen, history, ran, rows);
      rounds, seen := rounds + [ran], seen + [rows];
      history, statuses, round := history', statuses', round + 1;
    }
    failed := set id | id in statuses && !statuses[id].Ok();
  }

  /** A trial is launched at most once per round: at most 1 + `rounds` times. */
  lemma {:induction false} LaunchesBounded(history: seq<Attempt>, id: string, rounds: nat)
    requires RetryDiscipline(history)
    requires forall i :: 0 <= i < |history| && history[i].trial.id == id ==> history[i].round < rounds
    ensures Launches(history, id) <= rounds
  {
    if history != [] {
      var init, last := history[..|history| - 1], history[|history| - 1];
      assert history == init + [last];
      PickSnoc(init, last, ById, id);
      assert RetryDiscipline(init);
      if last.trial.id == id {
        assert forall i :: 0 <= i < |init| && init[i].trial.id == id ==> history[i].round < last.round;
        LaunchesBounded(init, id, last.round);
      } else {
        LaunchesBounded(init, id, rounds);
      }
    }
  }

  /** Consequences for one trial of a finished run: it was launched at most
      1 + retry rounds times; if any attempt succeeded or was skipped it is its
      last one, so the success stands in the final statuses. */
  lemma RetryAccounting(selected: seq<Trial>, history: seq<Attempt>, statuses: map<string, Status>, rounds: nat, i: nat)
    requires Accounted(selected, history, statuses, rounds) && i < |history|
    ensures Launches(history, history[i].trial.id) <= 1 + rounds
    ensures history[i].trial.id in statuses
    ensures (history[i].status.returncode == 0 && history[i].status.errorKind == "") || history[i].status.errorKind == "skipped" ==>
              && (forall j :: i < j < |history| ==> history[j].trial.id != history[i].trial.id)
              && statuses[history[i].trial.id] == history[i].status
  {
    var id := history[i].trial.id;
    LaunchesBounded(history, id, rounds + 1);
    ResultsKeys(Outcomes(history), i);
    var k := ResultIsLast(Outcomes(history), id);
    assert Outcomes(history)[i].trial.id == id && Outcomes(history)[k].trial.id == id;
  }
}
