/** The sync engine: the four-step sync pipeline, its history, the readiness
    check and the auto-sync error counter. The client, the extractor and
    the updater are replaced by the outcomes they produce. */
module SyncEngine {

  import opened Wrappers
  import opened Seqs

  const MaxHistory: nat := 10
  const MaxConsecutiveErrors: nat := 3

  /** What a host step produced: a count (parameters extracted, outputs
      computed, failed updates) or the message of the exception it raised. */
  datatype StepOutcome = Done(count: nat) | Raised(message: string)

  /** The outcomes of the four steps a sync would run. */
  datatype Host = Host(validate: StepOutcome, extract: StepOutcome, calculate: StepOutcome, update: StepOutcome)

  datatype StepReport = StepReport(name: string, success: bool)

  datatype SyncReport = SyncReport(success: bool, articleId: string, steps: seq<StepReport>, errors: seq<string>)

  datatype SyncReply = AlreadySyncing | Finished(report: SyncReport)

  datatype Engine = Engine(
    initialized: bool,
    isSyncing: bool,
    history: seq<SyncReport>,
    errorCount: nat,
    autoSyncEnabled: bool,
    autoSyncInterval: int)

  /** The report of the steps and whether the run reached the end (and so
      goes into the history). */
  datatype Run = Run(report: SyncReport, completed: bool)

  function StepNames(steps: seq<StepReport>): (r: seq<string>)
    ensures |r| == |steps| && forall i :: 0 <= i < |r| ==> r[i] == steps[i].name
  {
    if steps == [] then [] else [steps[0].name] + StepNames(steps[1..])
  }

  /** The body of `sync_with_calcslive` between setting and clearing the
      busy flag: validate, extract and calculate stop the run on failure;
      a failing update is recorded and the run goes on. */
  function RunSteps(articleId: string, updateModel: bool, host: Host): (r: Run)
    ensures r.report.articleId == articleId
    ensures r.report.success <==> r.report.errors == []
    ensures r.completed <==> host.validate.Done? && host.extract.Done? && host.calculate.Done?
    ensures !r.completed ==> |r.report.errors| == 1 && r.report.steps != [] && !r.report.steps[|r.report.steps| - 1].success
    ensures r.completed ==> (r.report.success <==> !(updateModel && host.update.Raised?))
    ensures r.completed ==>
      StepNames(r.report.steps) == ["validate", "extract", "calculate"] + (if updateModel then ["update"] else [])
    ensures forall i :: 0 <= i < |r.report.steps| && r.report.steps[i].name != "update" ==>
      (r.report.steps[i].success <==> i < |r.report.steps| - 1 || r.completed)
  {
    var ok := StepReport("validate", true);
    match host.validate
    case Raised(m) =>
      Run(SyncReport(false, articleId, [StepReport("validate", false)], ["Article validation failed: " + m]), false)
    case Done(_) =>
      match host.extract
      case Raised(m) =>
        Run(SyncReport(false, articleId, [ok, StepReport("extract", false)], ["Parameter extraction failed: " + m]), false)
      case Done(_) =>
        match host.calculate
        case Raised(m) =>
          Run(SyncReport(false, articleId, [ok, StepReport("extract", true), StepReport("calculate", false)],
                         ["CalcsLive calculation failed: " + m]), false)
        case Done(_) =>
          var base := [ok, StepReport("extract", true), StepReport("calculate", true)];
          var update :=
            if !updateModel then ([], [])
            else match host.update
              case Done(failed) => ([StepReport("update", failed == 0)], [])
              case Raised(m) => ([StepReport("update", false)], ["Model update failed: " + m]);
          Run(SyncReport(update.1 == [], articleId, base + update.0, update.1), true)
  }

  /** `sync_with_calcslive`. Without a client it raises; while a sync runs
      it answers at once; otherwise it runs the steps, appends a completed
      run to the history (keeping the last ten) and clears the busy flag. */
  function Sync(e: Engine, articleId: string, updateModel: bool, host: Host): (r: Result<(SyncReply, Engine), string>)
    ensures r.Err? <==> !e.initialized
    ensures r.Err? ==> r.error == "Sync engine not initialized"
    ensures e.initialized && e.isSyncing ==> r == Ok((AlreadySyncing, e))
    ensures r.Ok? && !e.isSyncing ==>
      var (reply, e2) := r.value;
      && reply.Finished?
      && reply.report == RunSteps(articleId, updateModel, host).report
      && !e2.isSyncing
      && e2.errorCount == e.errorCount && e2.autoSyncEnabled == e.autoSyncEnabled
      && (RunSteps(articleId, updateModel, host).completed ==>
            |e2.history| == Min(MaxHistory, |e.history| + 1)
            && e2.history[|e2.history| - 1] == reply.report
            && e2.history[..|e2.history| - 1] == e.history[|e.history| + 1 - |e2.history|..])
      && (!RunSteps(articleId, updateModel, host).completed ==> e2.history == e.history)
  {
    if !e.initialized then Err("Sync engine not initialized")
    else if e.isSyncing then Ok((AlreadySyncing, e))
    else
      var run := RunSteps(articleId, updateModel, host);
      var history := if run.completed then PyTail(e.history + [run.report], MaxHistory) else e.history;
      Ok((Finished(run.report), e.(isSyncing := false, history := history)))
  }

  /** The history never holds more than ten runs, whatever sequence of
      syncs produced it. */
  lemma HistoryStaysBounded(e: Engine, articleId: string, updateModel: bool, host: Host)
    requires |e.history| <= MaxHistory
    requires Sync(e, articleId, updateModel, host).Ok?
    ensures |Sync(e, articleId, updateModel, host).value.1.history| <= 10
  {}

  /** `get_sync_history(limit)`. */
  function GetSyncHistory(e: Engine, limit: int): (r: seq<SyncReport>)
    ensures limit >= 1 ==> |r| == Min(limit, |e.history|) && r == e.history[|e.history| - |r|..]
    ensures e.history == [] ==> r == []
  {
    if e.history == [] then [] else PyTail(e.history, limit)
  }

  // ---------------------------------------------------------------------
  // Readiness

  datatype Validation = Validation(ready: bool, checks: seq<(string, bool)>, warnings: seq<string>, errors: seq<string>)

  function AllChecks(checks: seq<(string, bool)>): bool {
    forall i :: 0 <= i < |checks| ==> checks[i].1
  }

  /** `validate_sync_readiness`: the article is only checked with a client
      and the parameters only with a document. */
  function ValidateSyncReadiness(initialized: bool, article: StepOutcome, docPresent: bool, params: StepOutcome)
    : (v: Validation)
    ensures v.ready <==> AllChecks(v.checks) && v.errors == []
  {
    var c1 := [("engine_initialized", initialized)];
    var e1 := if initialized then [] else ["Sync engine not initialized"];
    var c2 := if initialized then [("article_accessible", article.Done?)] else [];
    var e2 := if initialized && article.Raised? then ["Article not accessible: " + article.message] else [];
    var c3 := [("document_available", docPresent)];
    var e3 := if docPresent then [] else ["No active FreeCAD document"];
    var c4 := if docPresent then [("parameters_available", params.Done? && params.count > 0)] else [];
    var w4 := if docPresent && params.Done? && params.count == 0 then ["No extractable parameters found in document"] else [];
    var e4 := if docPresent && params.Raised? then ["Parameter extraction failed: " + params.message] else [];
    var checks := c1 + c2 + c3 + c4;
    var errors := e1 + e2 + e3 + e4;
    Validation(AllChecks(checks) && errors == [], checks, w4, errors)
  }

  /** Readiness means exactly: a client, an accessible article, a document,
      and at least one extractable parameter. */
  lemma ReadyIff(initialized: bool, article: StepOutcome, docPresent: bool, params: StepOutcome)
    ensures ValidateSyncReadiness(initialized, article, docPresent, params).ready
        <==> initialized && article.Done? && docPresent && params.Done? && params.count > 0
  {
    var v := ValidateSyncReadiness(initialized, article, docPresent, params);
    if !initialized {
      assert !v.checks[0].1;
    } else if article.Raised? {
      assert !v.checks[1].1;
    } else if !docPresent {
      assert !v.checks[2].1;
    } else if !(params.Done? && params.count > 0) {
      assert !v.checks[3].1;
    }
  }

  // ---------------------------------------------------------------------
  // Auto-sync error counter

  /** One pass of the auto-sync worker: skipped while a sync runs, or a
      sync that succeeded or failed (an exception counts as a failure). */
  datatype Attempt = Skipped | Succeeded | Failed

  /** Where the worker is after some passes. */
  datatype Worker = Worker(count: nat, passes: nat, stopped: bool)

  /** The worker loop over a sequence of passes: a success resets the
      counter, a failure bumps it and stops the loop once it reaches three. */
  function RunWorker(c0: nat, attempts: seq<Attempt>): (w: Worker)
    ensures w.passes <= |attempts|
    ensures !w.stopped ==> w.passes == |attempts|
    ensures w.stopped ==> w.passes >= 1 && attempts[w.passes - 1] == Failed && w.count >= MaxConsecutiveErrors
    decreases |attempts|
  {
    if attempts == [] then Worker(c0, 0, false)
    else
      var w := RunWorker(c0, attempts[..|attempts| - 1]);
      if w.stopped then w
      else match attempts[|attempts| - 1]
        case Skipped => Worker(w.count, w.passes + 1, false)
        case Succeeded => Worker(0, w.passes + 1, false)
        case Failed => Worker(w.count + 1, w.passes + 1, w.count + 1 >= MaxConsecutiveErrors)
  }

  /** The passes after the last success (all of them when there is none). */
  function SinceLastSuccess(s: seq<Attempt>): (r: seq<Attempt>)
    ensures |r| <= |s| && r == s[|s| - |r|..]
    ensures Succeeded !in r
    ensures Succeeded in s ==> |r| < |s| && s[|s| - |r| - 1] == Succeeded
    decreases |s|
  {
    if s == [] then []
    else if s[|s| - 1] == Succeeded then []
    else
      var prefix := s[..|s| - 1];
      var r := SinceLastSuccess(prefix) + [s[|s| - 1]];
      assert s == prefix + [s[|s| - 1]];
      assert Succeeded in s ==> Succeeded in prefix;
      r
  }

  /** The failures since the last success, on top of the initial count when
      there has been no success: the number of consecutive errors. */
  function Streak(c0: nat, attempts: seq<Attempt>): nat {
    if Succeeded in attempts then Count(SinceLastSuccess(attempts), Failed)
    else c0 + Count(attempts, Failed)
  }

  /** A pass that is not a success joins the passes since the last success. */
  lemma {:induction false} SinceLastSuccessSnoc(p: seq<Attempt>, a: Attempt)
    requires a != Succeeded
    ensures SinceLastSuccess(p + [a]) == SinceLastSuccess(p) + [a]
  {
    assert (p + [a])[..|p|] == p;
  }

  /** A pass that is not a success extends the streak by its failure, if any. */
  lemma {:induction false} StreakSnocOther(c0: nat, p: seq<Attempt>, a: Attempt)
    requires a != Succeeded
    ensures Streak(c0, p + [a]) == Streak(c0, p) + (if a == Failed then 1 else 0)
  {
    assert Succeeded in p + [a] <==> Succeeded in p;
    SinceLastSuccessSnoc(p, a);
    CountSnoc(SinceLastSuccess(p), a, Failed);
    CountSnoc(p, a, Failed);
  }

  lemma StreakSnoc(c0: nat, p: seq<Attempt>, a: Attempt)
    ensures Streak(c0, p + [a]) ==
      match a
      case Skipped => Streak(c0, p)
      case Succeeded => 0
      case Failed => Streak(c0, p) + 1
  {
    if a == Succeeded {
      assert (p + [a])[|p|] == Succeeded;
    } else {
      StreakSnocOther(c0, p, a);
    }
  }

  /** While the worker was stopped before the last pass, nothing changes. */
  lemma {:induction false} CountsStreakStopped(c0: nat, attempts: seq<Attempt>)
    requires attempts != [] && RunWorker(c0, attempts[..|attempts| - 1]).stopped
    requires var p := attempts[..|attempts| - 1];
      RunWorker(c0, p).count == Streak(c0, p[..RunWorker(c0, p).passes])
    ensures RunWorker(c0, attempts).count == Streak(c0, attempts[..RunWorker(c0, attempts).passes])
  {
    var p := attempts[..|attempts| - 1];
    assert p[..RunWorker(c0, p).passes] == attempts[..RunWorker(c0, p).passes];
  }

  /** A worker still running before the last pass counts that pass. */
  lemma {:induction false} CountsStreakRunning(c0: nat, attempts: seq<Attempt>)
    requires attempts != [] && !RunWorker(c0, attempts[..|attempts| - 1]).stopped
    requires var p := attempts[..|attempts| - 1];
      RunWorker(c0, p).count == Streak(c0, p[..RunWorker(c0, p).passes])
    ensures RunWorker(c0, attempts).count == Streak(c0, attempts[..RunWorker(c0, attempts).passes])
  {
    var p := attempts[..|attempts| - 1];
    assert p[..|p|] == p;
    assert attempts[..|attempts|] == attempts == p + [attempts[|attempts| - 1]];
    StreakSnoc(c0, p, attempts[|attempts| - 1]);
  }

  /** The worker's counter is the number of consecutive errors. */
  lemma {:induction false} WorkerCountsStreak(c0: nat, attempts: seq<Attempt>)
    ensures RunWorker(c0, attempts).count == Streak(c0, attempts[..RunWorker(c0, attempts).passes])
    decreases |attempts|
  {
    if attempts != [] {
      WorkerCountsStreak(c0, attempts[..|attempts| - 1]);
      if RunWorker(c0, attempts[..|attempts| - 1]).stopped {
        CountsStreakStopped(c0, attempts);
      } else {
        CountsStreakRunning(c0, attempts);
      }
    }
  }

  /** Pass `k` is a failure that brings the consecutive errors to three. */
  predicate HitsThreshold(c0: nat, attempts: seq<Attempt>, k: int) {
    0 <= k < |attempts| && attempts[k] == Failed && Streak(c0, attempts[..k + 1]) >= MaxConsecutiveErrors
  }

  /** A pass before the last one hits the threshold alike with or without
      the last pass. */
  lemma {:induction false} HitsInPrefix(c0: nat, attempts: seq<Attempt>, k: int)
    requires 0 <= k < |attempts| - 1
    ensures HitsThreshold(c0, attempts[..|attempts| - 1], k) <==> HitsThreshold(c0, attempts, k)
  {
    var p := attempts[..|attempts| - 1];
    assert p[..k + 1] == attempts[..k + 1];
    assert p[k] == attempts[k];
  }

  /** A worker still running before the last pass stops on it exactly when
      that pass hits the threshold. */
  lemma {:induction false} StopsOnLastPass(c0: nat, attempts: seq<Attempt>)
    requires attempts != [] && !RunWorker(c0, attempts[..|attempts| - 1]).stopped
    ensures RunWorker(c0, attempts).stopped <==> HitsThreshold(c0, attempts, |attempts| - 1)
  {
    var p := attempts[..|attempts| - 1];
    var a := attempts[|attempts| - 1];
    WorkerCountsStreak(c0, p);
    assert p[..RunWorker(c0, p).passes] == p;
    assert attempts[..|p| + 1] == p + [a];
    StreakSnoc(c0, p, a);
  }

  /** The worker stops exactly when some failure brings the number of
      consecutive errors to three. */
  lemma {:induction false} WorkerStopsAtThreshold(c0: nat, attempts: seq<Attempt>)
    ensures RunWorker(c0, attempts).stopped <==> exists k :: HitsThreshold(c0, attempts, k)
    decreases |attempts|
  {
    if attempts != [] {
      var p := attempts[..|attempts| - 1];
      WorkerStopsAtThreshold(c0, p);
      forall k | 0 <= k < |p| ensures HitsThreshold(c0, p, k) <==> HitsThreshold(c0, attempts, k) {
        HitsInPrefix(c0, attempts, k);
      }
      if RunWorker(c0, p).stopped {
        var k :| HitsThreshold(c0, p, k);
        assert HitsThreshold(c0, attempts, k);
      } else {
        StopsOnLastPass(c0, attempts);
        forall k | 0 <= k < |p| ensures !HitsThreshold(c0, attempts, k) {
          assert !HitsThreshold(c0, p, k);
        }
      }
    }
  }

  /** `enable_auto_sync` as written: the counter is not reset, so a worker
      that a previous run stopped at three errors hands the new worker a
      counter already at three. */
  function EnableAutoSyncAsWritten(e: Engine, interval: int): (e2: Engine)
    ensures e2.autoSyncEnabled && e2.autoSyncInterval == interval
    ensures e2.errorCount == e.errorCount && e2.history == e.history
  {
    e.(autoSyncEnabled := true, autoSyncInterval := interval)
  }

  /** `enable_auto_sync` with the counter reset, as the worker's "three
      consecutive errors" rule requires. */
  function EnableAutoSync(e: Engine, interval: int): (e2: Engine)
    ensures e2.autoSyncEnabled && e2.autoSyncInterval == interval
    ensures e2.errorCount == 0 && e2.history == e.history
  {
    e.(autoSyncEnabled := true, autoSyncInterval := interval, errorCount := 0)
  }

  /** As written, re-enabling after a stop ends the new worker at its first
      failure, after one error rather than three. */
  lemma ReenabledWorkerStopsEarly(e: Engine, interval: int)
    requires e.errorCount == MaxConsecutiveErrors
    ensures var w := RunWorker(EnableAutoSyncAsWritten(e, interval).errorCount, [Failed]);
      w.stopped && w.passes == 1 && Streak(0, [Failed]) == 1
  {
    assert [Failed][..0] == [];
  }

  /** With the reset, a freshly enabled worker stops only after exactly three
      consecutive errors. */
  lemma FreshWorkerNeedsThreeErrors(e: Engine, interval: int, attempts: seq<Attempt>)
    ensures var w := RunWorker(EnableAutoSync(e, interval).errorCount, attempts);
      w.stopped ==> Streak(0, attempts[..w.passes]) == MaxConsecutiveErrors
  {
    WorkerCountsStreak(0, attempts);
    FirstStopIsAtThree(attempts);
  }

  lemma {:induction false} FirstStopIsAtThree(attempts: seq<Attempt>)
    ensures RunWorker(0, attempts).count <= MaxConsecutiveErrors
    ensures !RunWorker(0, attempts).stopped ==> RunWorker(0, attempts).count < MaxConsecutiveErrors
    decreases |attempts|
  {
    if attempts != [] {
      FirstStopIsAtThree(attempts[..|attempts| - 1]);
    }
  }
}
