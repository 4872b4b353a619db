/**
 * The parser worker pool.  Threads submit jobs, futures complete in the executor,
 * a completed future's callback releases its job and may submit it again, and
 * process_job may also be called directly.  The steps are atomic; the locked part
 * of submit_job, executor.submit, a run's reading and saving of the failure
 * counter, and the two halves of the callback are steps of their own; so are the reading
 * and saving of the job by a progress report, which writes the counter back with the rest.
 *
 * Counters are natural numbers: they start at 0 and only ever rise by one.  The save with
 * which a run begins is no step: under the discipline it writes back the counter that stands there.
 */
module ParserWorkers {
  import opened Sequences
  import opened Tallies
  import opened DispatchSteps
  import opened ParseSteps
  import opened ParseRetries

  /** How a run ended: the parser failed, it did not, or the runner itself raised. */
  datatype Result = ParserFailed | ParserDone | RunnerRaised

  datatype Ended = Ended(jobId: string, retry: bool)

  /**
   * A job that a thread is submitting is in `launching`, then in `futures` while it
   * runs, then, completed but not yet released by its callback, in `settling`; a
   * callback about to submit it again is in `resubmits`.  In process a future
   * passes through `finishing`: its outcome is saved, the `finally` of process_job is
   * still to come.  `direct` are the direct calls of process_job under way.
   *
   * `stranded` are the jobs whose executor.submit raised and that nobody has
   * released since.  `seen` are the failure counters that runs have read and not
   * yet saved, `reports` those that progress reports have read with the rest of the
   * job, `counts` those of the job rows; the last three are history.
   */
  datatype Pool = Pool(
    submitted: set<string>,
    launching: multiset<string>,
    futures: multiset<string>,
    finishing: multiset<Ended>,
    settling: multiset<Ended>,
    resubmits: multiset<string>,
    direct: multiset<string>,
    stranded: set<string>,
    seen: map<string, seq<nat>>,
    reports: map<string, seq<nat>>,
    counts: map<string, nat>,
    submits: map<string, nat>,
    retries: map<string, nat>,
    launches: map<string, nat>)

  /**
   * `inProcess`: no job_runner is given, so futures run process_job of the service
   * itself.  `overlaps`: direct calls of process_job for a job may meet each other, or
   * a claim of that job.  `lateReports`: a progress report may still be under way when its
   * parser has returned, because its thread is joined for one second only.
   */
  datatype Config = Config(maxRetries: nat, inProcess: bool, overlaps: bool, lateReports: bool)

  datatype Step =
    | Submit(jobId: string)
    | Launch(jobId: string)
    | LaunchRaises(jobId: string)
    | ReportRead(jobId: string)
    | ReportSave(jobId: string, i: nat)
      // a run reads the job again when its parser has returned
    | Read(jobId: string)
    | Finish(jobId: string, i: nat, result: Result)
    | EarlyRelease(done: Ended)
    | Release(done: Ended)
    | Resubmit(jobId: string)
    | DirectCall(jobId: string)
      // the run's save and the `finally`; the caller ignores whether a retry is asked for
    | DirectReturn(jobId: string, i: nat, result: Result)

  function ReadsOf(p: Pool, j: string): seq<nat> {
    if j in p.seen then p.seen[j] else []
  }

  function ReportsOf(p: Pool, j: string): seq<nat> {
    if j in p.reports then p.reports[j] else []
  }

  /** The runs of a job under way. */
  function Running(p: Pool, j: string): nat { p.futures[j] + p.direct[j] }

  /** Those of them whose parser has not returned. */
  function Parsing(p: Pool, j: string): int { Running(p, j) - |ReadsOf(p, j)| }

  function Removed<T>(s: seq<T>, i: nat): seq<T>
    requires i < |s|
  {
    s[..i] + s[i + 1..]
  }

  /** The failure counter after a run that read `count`, and whether a retry is requested. */
  function AfterRun(count: int, fails: bool, maxRetries: nat): (int, bool) {
    if fails then (count + 1, count < maxRetries) else (count, false)
  }

  function Claimed(p: Pool, jobId: string): Pool {
    if jobId in p.submitted then p
    else p.(submitted := p.submitted + {jobId}, launching := p.launching + multiset{jobId})
  }

  /** Discarding the job from `_submitted`, whoever claimed it. */
  function Released(p: Pool, jobId: string): Pool {
    p.(submitted := p.submitted - {jobId}, stranded := p.stranded - {jobId})
  }

  /** The i-th reader of a job's counter saves: it writes back what it read, or one more. */
  function Written(p: Pool, j: string, i: nat, result: Result, maxRetries: nat): Pool
    requires i < |ReadsOf(p, j)|
  {
    var read := ReadsOf(p, j);
    p.(seen := p.seen[j := Removed(read, i)],
       counts := if result.RunnerRaised? then p.counts
                 else p.counts[j := AfterRun(read[i], result.ParserFailed?, maxRetries).0])
  }

  predicate AsksRetry(p: Pool, j: string, i: nat, result: Result, maxRetries: nat)
    requires i < |ReadsOf(p, j)|
  {
    AfterRun(ReadsOf(p, j)[i], result.ParserFailed?, maxRetries).1
  }

  ghost predicate Next(p: Pool, step: Step, p': Pool, c: Config) {
    match step
    case Submit(j) =>
      && (c.overlaps || p.direct[j] == 0)
      && p' == Claimed(p, j).(submits := if j in p.submitted then p.submits else Bump(p.submits, j))
    case Launch(j) =>
      && j in p.launching
      && p' == p.(launching := p.launching - multiset{j}, futures := p.futures + multiset{j},
                  launches := Bump(p.launches, j))
    case LaunchRaises(j) =>
      && j in p.launching
      && p' == p.(launching := p.launching - multiset{j}, stranded := p.stranded + {j})
    case ReportRead(j) =>
      && (c.lateReports || 0 < Parsing(p, j))
      && p' == p.(reports := p.reports[j := ReportsOf(p, j) + [Tally(p.counts, j)]])
    case ReportSave(j, i) =>
      && i < |ReportsOf(p, j)|
      && p' == p.(reports := p.reports[j := Removed(ReportsOf(p, j), i)], counts := p.counts[j := ReportsOf(p, j)[i]])
    case Read(j) =>
      && 0 < Parsing(p, j) && (c.lateReports || ReportsOf(p, j) == [] || 1 < Parsing(p, j))
      && p' == p.(seen := p.seen[j := ReadsOf(p, j) + [Tally(p.counts, j)]])
    case Finish(j, i, result) =>
      && j in p.futures && i < |ReadsOf(p, j)|
      && var retry := AsksRetry(p, j, i, result, c.maxRetries);
         p' == Written(p, j, i, result, c.maxRetries).(
           futures := p.futures - multiset{j},
           finishing := if c.inProcess then p.finishing + multiset{Ended(j, retry)} else p.finishing,
           settling := if c.inProcess then p.settling else p.settling + multiset{Ended(j, retry)},
           retries := if retry then Bump(p.retries, j) else p.retries)
    case EarlyRelease(done) =>
      && c.inProcess && done in p.finishing
      && p' == Released(p, done.jobId).(finishing := p.finishing - multiset{done},
                                        settling := p.settling + multiset{done})
    case Release(done) =>
      && done in p.settling
      && p' == Released(p, done.jobId).(
           settling := p.settling - multiset{done},
           resubmits := if done.retry then p.resubmits + multiset{done.jobId} else p.resubmits)
    case Resubmit(j) =>
      && j in p.resubmits && (c.overlaps || p.direct[j] == 0)
      && p' == Claimed(p, j).(resubmits := p.resubmits - multiset{j})
    case DirectCall(j) =>
      && (c.overlaps || (j !in p.submitted && p.direct[j] == 0))
      && p' == p.(direct := p.direct + multiset{j})
    case DirectReturn(j, i, result) =>
      && j in p.direct && i < |ReadsOf(p, j)|
      && p' == Released(Written(p, j, i, result, c.maxRetries), j).(direct := p.direct - multiset{j})
  }

  ghost predicate Init(p: Pool) {
    && p.submitted == {} && p.stranded == {}
    && p.launching == multiset{} && p.futures == multiset{} && p.resubmits == multiset{}
    && p.finishing == multiset{} && p.settling == multiset{} && p.direct == multiset{}
    && p.seen == map[] && p.reports == map[]
    && p.submits == map[] && p.retries == map[] && p.launches == map[]
  }

  ghost predicate Run(pools: seq<Pool>, steps: seq<Step>, c: Config) {
    && |pools| == |steps| + 1
    && Init(pools[0])
    && forall i :: 0 <= i < |steps| ==> Next(pools[i], steps[i], pools[i + 1], c)
  }

  /** The out-of-process runner, and direct calls that keep out of the way of claims and of each other. */
  predicate Disciplined(c: Config) {
    !c.inProcess && !c.overlaps
  }

  // ------------------------------------------------------------------ invariant

  /** How many threads and futures act for a job. */
  function Claims(p: Pool, j: string): nat {
    p.launching[j] + p.futures[j]
    + p.finishing[Ended(j, true)] + p.finishing[Ended(j, false)]
    + p.settling[Ended(j, true)] + p.settling[Ended(j, false)]
  }

  ghost predicate ClaimsOk(p: Pool, j: string) {
    && (j in p.stranded ==> j in p.submitted && Claims(p, j) == 0)
    && (j !in p.stranded ==> Claims(p, j) == if j in p.submitted then 1 else 0)
    && p.finishing[Ended(j, true)] + p.finishing[Ended(j, false)] == 0
    && p.direct[j] <= 1 && (p.direct[j] == 1 ==> j !in p.submitted)
  }

  ghost predicate AllAre(read: seq<nat>, count: nat) {
    forall n :: n in read ==> n == count
  }

  /** What a run or a report has read of the counter is what it still says, and no report outlives the parser. */
  ghost predicate ReadsOk(p: Pool, j: string) {
    && 0 <= Parsing(p, j) && (ReportsOf(p, j) != [] ==> 0 < Parsing(p, j))
    && AllAre(ReadsOf(p, j), Tally(p.counts, j)) && AllAre(ReportsOf(p, j), Tally(p.counts, j))
  }

  /** Every launch of a job goes back to a submission or to a retry of its own. */
  ghost predicate LaunchesOk(p: Pool, j: string) {
    Tally(p.launches, j) + p.launching[j] + p.resubmits[j]
    + p.finishing[Ended(j, true)] + p.settling[Ended(j, true)]
    <= Tally(p.submits, j) + Tally(p.retries, j)
  }

  /** The retries of a job are paid for by its counter, which started at `first`. */
  ghost predicate RetriesOk(p: Pool, j: string, first: nat, maxRetries: nat) {
    && first <= Tally(p.counts, j)
    && Tally(p.retries, j) <= Max(0, Min(Tally(p.counts, j), maxRetries) - first)
  }

  lemma SubmittedClaims(p: Pool, k: string, p': Pool, j: string)
    requires ClaimsOk(p, j) && p.direct[k] == 0
    requires var claimed := Claimed(p, k);
             p'.submitted == claimed.submitted && p'.launching == claimed.launching
    requires p'.futures == p.futures && p'.direct == p.direct && p'.stranded == p.stranded
    requires p'.finishing == p.finishing && p'.settling == p.settling
    ensures ClaimsOk(p', j)
  {
    assert Claims(p', j) == Claims(p, j) + if j == k && k !in p.submitted then 1 else 0;
    hide Claims, Claimed;
    assert j in p'.submitted <==> j in p.submitted || j == k by {
      assert Claimed(p, k).submitted == p.submitted + {k};
    }
  }

  lemma FinishedClaims(p: Pool, step: Step, p': Pool, c: Config, j: string)
    requires step.Finish? && !c.inProcess && Next(p, step, p', c)
    ensures Claims(p', j) == Claims(p, j)
    ensures p'.finishing == p.finishing && p'.direct == p.direct
    ensures p'.submitted == p.submitted && p'.stranded == p.stranded
  {
  }

  lemma ReleasedClaims(p: Pool, step: Step, p': Pool, c: Config, j: string)
    requires step.Release? && Next(p, step, p', c) && ClaimsOk(p, j)
    ensures ClaimsOk(p', j)
  {
    assert step.done == Ended(step.done.jobId, true) || step.done == Ended(step.done.jobId, false);
  }

  lemma LaunchedClaims(p: Pool, step: Step, p': Pool, c: Config, j: string)
    requires step.Launch? || step.LaunchRaises?
    requires Next(p, step, p', c) && ClaimsOk(p, j)
    ensures ClaimsOk(p', j)
  {
    assert step.Launch? ==> p'.launching[j] + p'.futures[j] == p.launching[j] + p.futures[j];
  }

  lemma DirectClaims(p: Pool, step: Step, p': Pool, c: Config, j: string)
    requires step.DirectCall? || step.DirectReturn?
    requires Disciplined(c) && Next(p, step, p', c) && ClaimsOk(p, j)
    ensures ClaimsOk(p', j)
  {
  }

  lemma ClaimsKept(p: Pool, step: Step, p': Pool, c: Config, j: string)
    requires Disciplined(c) && Next(p, step, p', c) && ClaimsOk(p, j)
    ensures ClaimsOk(p', j)
  {
    match step
    case Submit(k) => SubmittedClaims(p, k, p', j);
    case Resubmit(k) => SubmittedClaims(p, k, p', j);
    case Launch(_) => LaunchedClaims(p, step, p', c, j);
    case LaunchRaises(_) => LaunchedClaims(p, step, p', c, j);
    case ReportRead(_) =>
    case ReportSave(_, _) =>
    case Read(_) =>
    case Finish(_, _, _) => FinishedClaims(p, step, p', c, j);
    case Release(_) => ReleasedClaims(p, step, p', c, j);
    case EarlyRelease(_) => assert false;
    case DirectCall(_) => DirectClaims(p, step, p', c, j);
    case DirectReturn(_, _, _) => DirectClaims(p, step, p', c, j);
  }

  /** The one run of a job saves, and nobody else has read its counter. */
  lemma SavedReads(p: Pool, step: Step, p': Pool, c: Config, j: string)
    requires step.Finish? || step.DirectReturn?
    requires Next(p, step, p', c) && ReadsOk(p, j) && Running(p, j) <= 1
    ensures ReadsOk(p', j)
  {
    assert ReportsOf(p', j) == ReportsOf(p, j);
    if step.jobId == j {
      assert |ReadsOf(p, j)| == 1 && step.i == 0;
      assert ReadsOf(p', j) == [] && ReportsOf(p, j) == [];
    } else {
      assert ReadsOf(p', j) == ReadsOf(p, j) && Running(p', j) == Running(p, j);
    }
  }

  /** A report that saves writes back the counter that stands there. */
  lemma ReportedReads(p: Pool, step: Step, p': Pool, c: Config, j: string)
    requires step.ReportRead? || step.ReportSave?
    requires !c.lateReports && Next(p, step, p', c) && ReadsOk(p, j)
    ensures ReadsOk(p', j) && Tally(p'.counts, j) == Tally(p.counts, j)
  {
    var before, after := ReportsOf(p, j), ReportsOf(p', j);
    assert ReadsOf(p', j) == ReadsOf(p, j) && Parsing(p', j) == Parsing(p, j);
    if step.jobId == j {
      if step.ReportSave? {
        assert before[step.i] in before;
        assert forall n :: n in after ==> n in before;
      } else {
        assert after == before + [Tally(p.counts, j)];
      }
    } else {
      assert after == before;
    }
  }

  /** The parser has returned and the run reads the job again. */
  lemma ReturnedReads(p: Pool, step: Step, p': Pool, c: Config, j: string)
    requires step.Read? && !c.lateReports && Next(p, step, p', c) && ReadsOk(p, j) && Running(p, j) <= 1
    ensures ReadsOk(p', j)
  {
    assert ReportsOf(p', j) == ReportsOf(p, j);
    if step.jobId == j {
      assert ReadsOf(p', j) == ReadsOf(p, j) + [Tally(p.counts, j)];
    } else {
      assert ReadsOf(p', j) == ReadsOf(p, j);
    }
  }

  lemma OtherReads(p: Pool, step: Step, p': Pool, c: Config, j: string)
    requires !step.Finish? && !step.DirectReturn? && !step.ReportRead? && !step.ReportSave? && !step.Read?
    requires Next(p, step, p', c) && ReadsOk(p, j)
    ensures ReadsOk(p', j)
  {
    OtherSteps(p, step, p', c, j);
    hide Next, Running, Tally;
  }

  lemma OtherSteps(p: Pool, step: Step, p': Pool, c: Config, j: string)
    requires !step.Finish? && !step.DirectReturn? && !step.ReportRead? && !step.ReportSave? && !step.Read?
    requires Next(p, step, p', c)
    ensures p'.seen == p.seen && p'.reports == p.reports && p'.counts == p.counts
    ensures Running(p', j) >= Running(p, j)
  {
    hide Tally, Bump, Written, AsksRetry;
    assert p.futures <= p'.futures && p.direct <= p'.direct;
    hide Next;
  }

  lemma ReadsKept(p: Pool, step: Step, p': Pool, c: Config, j: string)
    requires !c.lateReports && Next(p, step, p', c) && ClaimsOk(p, j) && ReadsOk(p, j)
    ensures ReadsOk(p', j)
  {
    assert Running(p, j) <= 1;
    hide *;
    if step.Finish? || step.DirectReturn? {
      SavedReads(p, step, p', c, j);
    } else if step.ReportRead? || step.ReportSave? {
      ReportedReads(p, step, p', c, j);
    } else if step.Read? {
      ReturnedReads(p, step, p', c, j);
    } else {
      OtherReads(p, step, p', c, j);
    }
  }

  lemma FinishedLaunches(p: Pool, step: Step, p': Pool, c: Config, j: string)
    requires step.Finish? && Next(p, step, p', c) && LaunchesOk(p, j)
    ensures LaunchesOk(p', j)
  {
  }

  lemma ReleasedLaunches(p: Pool, step: Step, p': Pool, c: Config, j: string)
    requires step.Release? || step.EarlyRelease?
    requires Next(p, step, p', c) && LaunchesOk(p, j)
    ensures LaunchesOk(p', j)
  {
  }

  lemma LaunchesKept(p: Pool, step: Step, p': Pool, c: Config, j: string)
    requires Next(p, step, p', c) && LaunchesOk(p, j)
    ensures LaunchesOk(p', j)
  {
    if step.Submit? || step.Resubmit? {
    } else if step.Finish? {
      FinishedLaunches(p, step, p', c, j);
    } else if step.Release? || step.EarlyRelease? {
      ReleasedLaunches(p, step, p', c, j);
    }
  }

  lemma SavedRetries(p: Pool, step: Step, p': Pool, c: Config, j: string, first: nat)
    requires step.Finish? || step.DirectReturn?
    requires Next(p, step, p', c) && ReadsOk(p, j) && RetriesOk(p, j, first, c.maxRetries)
    ensures RetriesOk(p', j, first, c.maxRetries)
  {
    if step.jobId == j {
      assert ReadsOf(p, j)[step.i] in ReadsOf(p, j);
    }
  }

  lemma RetriesKept(p: Pool, step: Step, p': Pool, c: Config, j: string, first: nat)
    requires !c.lateReports && Next(p, step, p', c) && ClaimsOk(p, j) && ReadsOk(p, j)
    requires RetriesOk(p, j, first, c.maxRetries)
    ensures RetriesOk(p', j, first, c.maxRetries)
  {
    if step.Finish? || step.DirectReturn? {
      hide *;
      SavedRetries(p, step, p', c, j, first);
    } else if step.ReportSave? {
      ReportedReads(p, step, p', c, j);
    }
  }

  lemma {:induction false} RunClaims(pools: seq<Pool>, steps: seq<Step>, c: Config, n: nat)
    requires Run(pools, steps, c) && Disciplined(c) && n <= |steps|
    ensures forall j :: ClaimsOk(pools[n], j)
    decreases n
  {
    hide ClaimsOk;
    if n > 0 {
      RunClaims(pools, steps, c, n - 1);
      assert Next(pools[n - 1], steps[n - 1], pools[n], c);
      forall j
        ensures ClaimsOk(pools[n], j)
      {
        ClaimsKept(pools[n - 1], steps[n - 1], pools[n], c, j);
      }
    } else {
      forall j
        ensures ClaimsOk(pools[0], j)
      {
        InitClaims(pools[0], j);
      }
    }
  }

  lemma InitClaims(p: Pool, j: string)
    requires Init(p)
    ensures ClaimsOk(p, j)
  {
  }

  lemma {:induction false} RunLaunches(pools: seq<Pool>, steps: seq<Step>, c: Config, n: nat, j: string)
    requires Run(pools, steps, c) && n <= |steps|
    ensures LaunchesOk(pools[n], j)
    decreases n
  {
    if n > 0 {
      RunLaunches(pools, steps, c, n - 1, j);
      assert Next(pools[n - 1], steps[n - 1], pools[n], c);
      hide *;
      LaunchesKept(pools[n - 1], steps[n - 1], pools[n], c, j);
    }
  }

  lemma {:induction false} RunRetries(pools: seq<Pool>, steps: seq<Step>, c: Config, n: nat, j: string)
    requires Run(pools, steps, c) && Disciplined(c) && !c.lateReports && n <= |steps|
    ensures ReadsOk(pools[n], j) && RetriesOk(pools[n], j, Tally(pools[0].counts, j), c.maxRetries)
    decreases n
  {
    if n > 0 {
      RunRetries(pools, steps, c, n - 1, j);
      RunClaims(pools, steps, c, n - 1);
      assert Next(pools[n - 1], steps[n - 1], pools[n], c);
      hide *;
      ReadsKept(pools[n - 1], steps[n - 1], pools[n], c, j);
      RetriesKept(pools[n - 1], steps[n - 1], pools[n], c, j, Tally(pools[0].counts, j));
    }
  }

  // --------------------------------------------------------------- main results

  /**
   * With the out-of-process runner and no direct call of process_job meeting a
   * claim of its job, at every point of every interleaving: one thread or future
   * acts for a job at most, its parser runs once at most, and the job is in
   * `_submitted` just when somebody acts for it, unless its executor.submit raised.
   */
  lemma OneFuturePerJob(pools: seq<Pool>, steps: seq<Step>, c: Config, n: nat, j: string)
    requires Run(pools, steps, c) && Disciplined(c) && n <= |steps|
    ensures Claims(pools[n], j) <= 1 && Running(pools[n], j) <= 1
    ensures j in pools[n].submitted <==> Claims(pools[n], j) == 1 || j in pools[n].stranded
    ensures !(Claims(pools[n], j) == 1 && j in pools[n].stranded)
  {
    RunClaims(pools, steps, c, n);
    assert ClaimsOk(pools[n], j);
  }

  /** A callback's resubmission that is accepted finds no other thread or future acting for the job. */
  lemma ResubmittedAfterRelease(pools: seq<Pool>, steps: seq<Step>, c: Config, n: nat, j: string)
    requires Run(pools, steps, c) && Disciplined(c) && n < |steps| && steps[n] == Resubmit(j)
    requires j !in pools[n].submitted
    ensures Claims(pools[n], j) == 0 && Claims(pools[n + 1], j) == 1
  {
    RunClaims(pools, steps, c, n);
    assert Next(pools[n], steps[n], pools[n + 1], c);
    assert ClaimsOk(pools[n], j);
  }

  /**
   * Under the same discipline, if no progress report outlives its parser, a job's chains of
   * futures are finite: no more retries are asked for than its counter still allowed at the
   * start, and its parser is launched at most once per accepted submission plus once per retry.
   */
  lemma ChainsAreFinite(pools: seq<Pool>, steps: seq<Step>, c: Config, n: nat, j: string)
    requires Run(pools, steps, c) && Disciplined(c) && !c.lateReports && n <= |steps|
    ensures var budget := Max(0, c.maxRetries - Tally(pools[0].counts, j));
            && Tally(pools[n].retries, j) <= budget
            && Tally(pools[n].launches, j) <= Tally(pools[n].submits, j) + budget
  {
    RunRetries(pools, steps, c, n, j);
    RunLaunches(pools, steps, c, n, j);
  }

  // ------------------------------------------------------------------ stranding

  /** The steps that take a job out of `_submitted`. */
  predicate Frees(step: Step, j: string) {
    match step
    case EarlyRelease(done) => done.jobId == j
    case Release(done) => done.jobId == j
    case DirectReturn(k, _, _) => k == j
    case _ => false
  }

  /** At n the job's executor.submit has raised in step m, and nobody has released the job since. */
  ghost predicate StrandedSince(steps: seq<Step>, m: nat, n: nat, j: string) {
    && m < n <= |steps| && steps[m] == LaunchRaises(j)
    && forall k :: m < k < n ==> !Frees(steps[k], j)
  }

  lemma StrandedStep(p: Pool, step: Step, p': Pool, c: Config, j: string)
    requires Next(p, step, p', c)
    ensures j in p'.stranded <==> step == LaunchRaises(j) || (j in p.stranded && !Frees(step, j))
  {
  }

  /**
   * In any run at all, a job is stranded iff its executor.submit raised and
   * nobody has released the job since: no callback, and no direct call of process_job.
   */
  lemma {:induction false} StrandedExactly(pools: seq<Pool>, steps: seq<Step>, c: Config, n: nat, j: string)
    requires Run(pools, steps, c) && n <= |steps|
    ensures j in pools[n].stranded <==> exists m: nat :: StrandedSince(steps, m, n, j)
    decreases n
  {
    if n > 0 {
      StrandedExactly(pools, steps, c, n - 1, j);
      assert Next(pools[n - 1], steps[n - 1], pools[n], c);
      hide Next, Run;
      StrandedStep(pools[n - 1], steps[n - 1], pools[n], c, j);
      if j in pools[n].stranded {
        if steps[n - 1] == LaunchRaises(j) {
          assert StrandedSince(steps, n - 1, n, j);
        } else {
          var m: nat :| StrandedSince(steps, m, n - 1, j);
          assert StrandedSince(steps, m, n, j);
        }
      }
      if m: nat :| StrandedSince(steps, m, n, j) {
        assert m == n - 1 || StrandedSince(steps, m, n - 1, j);
      }
    }
  }

  /**
   * Under the discipline nobody ever releases it: from the step on in which its
   * executor.submit raised, a job stays claimed and its parser is never launched again.
   */
  lemma {:induction false} StrandedForever(pools: seq<Pool>, steps: seq<Step>, c: Config, m: nat, n: nat, j: string)
    requires Run(pools, steps, c) && Disciplined(c) && m < n <= |steps| && steps[m] == LaunchRaises(j)
    ensures j in pools[n].stranded && j in pools[n].submitted && Running(pools[n], j) == 0
    ensures Tally(pools[n].launches, j) == Tally(pools[m].launches, j)
    decreases n
  {
    RunClaims(pools, steps, c, n);
    assert Next(pools[n - 1], steps[n - 1], pools[n], c);
    hide *;
    if m < n - 1 {
      StrandedForever(pools, steps, c, m, n - 1, j);
      RunClaims(pools, steps, c, n - 1);
      StrandedKept(pools[n - 1], steps[n - 1], pools[n], c, j);
    }
    StrandedIdle(pools[n], j);
  }

  lemma StrandedIdle(p: Pool, j: string)
    requires ClaimsOk(p, j) && j in p.stranded
    ensures j in p.submitted && Running(p, j) == 0
  {
  }

  lemma StrandedKept(p: Pool, step: Step, p': Pool, c: Config, j: string)
    requires Disciplined(c) && Next(p, step, p', c) && ClaimsOk(p, j) && j in p.stranded
    ensures j in p'.stranded && Tally(p'.launches, j) == Tally(p.launches, j)
  {
    if step.Release? {
      assert step.done == Ended(step.done.jobId, true) || step.done == Ended(step.done.jobId, false);
    }
  }

  /** If no executor.submit ever raises, `_submitted` is exactly the set of jobs acted for. */
  lemma NothingStranded(pools: seq<Pool>, steps: seq<Step>, c: Config, n: nat, j: string)
    requires Run(pools, steps, c) && Disciplined(c) && n <= |steps|
    requires forall i :: 0 <= i < |steps| ==> !steps[i].LaunchRaises?
    ensures j in pools[n].submitted <==> Claims(pools[n], j) == 1
  {
    OneFuturePerJob(pools, steps, c, n, j);
    StrandedExactly(pools, steps, c, n, j);
    assert !exists m: nat :: StrandedSince(steps, m, n, j);
  }

  // ---------------------------------------------------------------- lost claims

  /** One thread or future acts for the job at most, and then the job is claimed. */
  ghost predicate HoldsClaim(p: Pool, j: string) {
    Claims(p, j) <= 1 && (Claims(p, j) == 1 ==> j in p.submitted)
  }

  /** The step takes the job out of `_submitted` although somebody goes on acting for it. */
  ghost predicate LosesClaim(step: Step, p': Pool, j: string) {
    Frees(step, j) && Claims(p', j) > 0
  }

  /** Steps that neither begin nor end anybody's work for a job. */
  predicate PassesOn(step: Step) {
    step.Launch? || step.Finish? || step.ReportRead? || step.ReportSave? || step.Read? || step.DirectCall?
  }

  lemma PassedOn(p: Pool, step: Step, p': Pool, c: Config, j: string)
    requires PassesOn(step) && Next(p, step, p', c)
    ensures Claims(p', j) == Claims(p, j) && p'.submitted == p.submitted
  {
    if step.Launch? {
      assert p'.launching[j] + p'.futures[j] == p.launching[j] + p.futures[j];
    } else if step.Finish? {
      FinishPassesOn(p, step, p', c, j);
    }
  }

  lemma FinishPassesOn(p: Pool, step: Step, p': Pool, c: Config, j: string)
    requires step.Finish? && Next(p, step, p', c)
    ensures Claims(p', j) == Claims(p, j) && p'.submitted == p.submitted
  {
    var done := Ended(step.jobId, AsksRetry(p, step.jobId, step.i, step.result, c.maxRetries));
    assert p'.futures == p.futures - multiset{step.jobId} && p'.launching == p.launching;
    assert if c.inProcess then p'.finishing == p.finishing + multiset{done} && p'.settling == p.settling
           else p'.finishing == p.finishing && p'.settling == p.settling + multiset{done};
    hide *;
    CountFinished(p, step.jobId, p', done, j);
  }

  lemma CountFinished(p: Pool, k: string, p': Pool, done: Ended, j: string)
    requires k in p.futures && p'.futures == p.futures - multiset{k} && p'.launching == p.launching
    requires done.jobId == k
    requires (p'.finishing == p.finishing + multiset{done} && p'.settling == p.settling)
             || (p'.finishing == p.finishing && p'.settling == p.settling + multiset{done})
    ensures Claims(p', j) == Claims(p, j)
  {
    assert done == Ended(k, true) || done == Ended(k, false);
  }

  lemma FreedEarly(p: Pool, step: Step, p': Pool, c: Config, j: string)
    requires (step.EarlyRelease? || step.DirectReturn?) && Next(p, step, p', c)
    ensures Claims(p', j) == Claims(p, j)
    ensures j in p'.submitted <==> j in p.submitted && !Frees(step, j)
  {
    if step.EarlyRelease? {
      assert step.done == Ended(step.done.jobId, true) || step.done == Ended(step.done.jobId, false);
    }
  }

  /** A callback releases the claim of its own future, so it loses nobody else's. */
  lemma OwnRelease(p: Pool, step: Step, p': Pool, c: Config, j: string)
    requires Next(p, step, p', c) && HoldsClaim(p, j)
    ensures step.Release? ==> HoldsClaim(p', j) && !LosesClaim(step, p', j)
  {
    if step.Release? {
      assert step.done == Ended(step.done.jobId, true) || step.done == Ended(step.done.jobId, false);
    }
  }

  lemma NewClaim(p: Pool, k: string, p': Pool, j: string)
    requires HoldsClaim(p, j) && p'.launching == Claimed(p, k).launching && p'.submitted == Claimed(p, k).submitted
    requires p'.futures == p.futures && p'.finishing == p.finishing && p'.settling == p.settling
    ensures HoldsClaim(p', j)
  {
    assert Claims(p', j) == Claims(p, j) + if j == k && k !in p.submitted then 1 else 0;
    assert p'.submitted == p.submitted + {k};
  }

  lemma ClaimKept(p: Pool, step: Step, p': Pool, c: Config, j: string)
    requires Next(p, step, p', c) && HoldsClaim(p, j) && !LosesClaim(step, p', j)
    ensures HoldsClaim(p', j)
  {
    OwnRelease(p, step, p', c, j);
    if step.Submit? || step.Resubmit? {
      NewClaim(p, step.jobId, p', j);
    } else if step.EarlyRelease? || step.DirectReturn? {
      hide Next;
      FreedEarly(p, step, p', c, j);
    } else if PassesOn(step) {
      hide Next;
      PassedOn(p, step, p', c, j);
    }
  }

  lemma LostBy(p: Pool, step: Step, p': Pool, c: Config, j: string)
    requires Next(p, step, p', c) && HoldsClaim(p, j) && LosesClaim(step, p', j)
    ensures step.DirectReturn? || (c.inProcess && step.EarlyRelease?)
    ensures Claims(p, j) == 1
  {
    OwnRelease(p, step, p', c, j);
    if step.EarlyRelease? || step.DirectReturn? {
      FreedEarly(p, step, p', c, j);
    }
  }

  /**
   * In any run at all, a job gets a second future, or a second thread acting for it, only after
   * a step that released the claim of the first: the end of a direct call of process_job,
   * or in process the end of a future's own process_job.
   */
  lemma {:induction false} ClaimLostFirst(pools: seq<Pool>, steps: seq<Step>, c: Config, n: nat, j: string)
    returns (m: nat)
    requires Run(pools, steps, c) && n <= |steps| && (pools[n].futures[j] > 1 || !HoldsClaim(pools[n], j))
    ensures m < n && HoldsClaim(pools[m], j) && Claims(pools[m], j) == 1
    ensures LosesClaim(steps[m], pools[m + 1], j)
    ensures steps[m].DirectReturn? || (c.inProcess && steps[m].EarlyRelease?)
    decreases n
  {
    assert !HoldsClaim(pools[n], j);
    if n > 0 {
      if HoldsClaim(pools[n - 1], j) {
        m := n - 1;
        assert Next(pools[m], steps[m], pools[n], c);
        hide *;
        if !LosesClaim(steps[m], pools[n], j) {
          ClaimKept(pools[m], steps[m], pools[n], c, j);
        }
        LostBy(pools[m], steps[m], pools[n], c, j);
      } else {
        hide *;
        m := ClaimLostFirst(pools, steps, c, n - 1, j);
      }
    }
  }

  // ----------------------------------------------------------- the failing runs

  lemma Push(pools: seq<Pool>, steps: seq<Step>, c: Config, step: Step, p: Pool)
    requires Run(pools, steps, c) && Next(pools[|steps|], step, p, c)
    ensures Run(pools + [p], steps + [step], c)
    ensures (pools + [p])[|steps + [step]|] == p && (pools + [p])[0] == pools[0]
  {
    hide Next, Init;
  }

  /** A pool with nothing under way, where the job's counter stands at `count`. */
  function Idle(j: string, count: nat): Pool {
    Pool({}, multiset{}, multiset{}, multiset{}, multiset{}, multiset{}, multiset{}, {}, map[], map[],
         map[j := count], map[], map[], map[])
  }

  /** The job launched once, its future running. */
  lemma LaunchedOnce(c: Config, j: string, count: nat) returns (pools: seq<Pool>, steps: seq<Step>)
    ensures Run(pools, steps, c) && pools[0].counts == map[j := count]
    ensures pools[|steps|] == Idle(j, count).(submitted := {j}, futures := multiset{j}, submits := map[j := 1],
                                              launches := map[j := 1])
  {
    var p0 := Idle(j, count);
    var p1 := p0.(submitted := {j}, launching := multiset{j}, submits := map[j := 1]);
    var p2 := p1.(launching := multiset{}, futures := multiset{j}, launches := map[j := 1]);
    pools, steps := [p0], [];
    assert Run(pools, steps, c);
    assert p0.launching + multiset{j} == p1.launching && p0.submitted + {j} == p1.submitted;
    assert Next(p0, Submit(j), p1, c);
    assert p1.launching - multiset{j} == p2.launching && p1.futures + multiset{j} == p2.futures;
    assert Next(p1, Launch(j), p2, c);
    hide Run, Next;
    Push(pools, steps, c, Submit(j), p1);
    pools, steps := pools + [p1], steps + [Submit(j)];
    Push(pools, steps, c, Launch(j), p2);
    pools, steps := pools + [p2], steps + [Launch(j)];
  }

  /** Submitted and launched anew while another future of the job runs, since nobody holds the claim. */
  lemma LaunchedAgain(pools: seq<Pool>, steps: seq<Step>, c: Config, j: string)
    returns (pools': seq<Pool>, steps': seq<Step>)
    requires Run(pools, steps, c) && j !in pools[|steps|].submitted
    requires pools[|steps|].launching == multiset{} && pools[|steps|].direct == multiset{}
    ensures Run(pools', steps', c) && pools <= pools' && steps <= steps'
    ensures var p := pools[|steps|];
            pools'[|steps'|] == p.(submitted := p.submitted + {j}, futures := p.futures + multiset{j},
                                   submits := Bump(p.submits, j), launches := Bump(p.launches, j))
  {
    var p := pools[|steps|];
    var p1 := p.(submitted := p.submitted + {j}, launching := multiset{j}, submits := Bump(p.submits, j));
    var p2 := p1.(launching := multiset{}, futures := p.futures + multiset{j}, launches := Bump(p.launches, j));
    assert p.launching + multiset{j} == p1.launching;
    assert Next(p, Submit(j), p1, c);
    assert p1.launching - multiset{j} == p2.launching;
    assert Next(p1, Launch(j), p2, c);
    hide Run, Next;
    Push(pools, steps, c, Submit(j), p1);
    Push(pools + [p1], steps + [Submit(j)], c, Launch(j), p2);
    pools', steps' := pools + [p1] + [p2], steps + [Submit(j)] + [Launch(j)];
  }

  /** The first future has saved its outcome and released the job; its callback is still to come. */
  lemma EarlyReleased(c: Config, j: string, count: nat) returns (pools: seq<Pool>, steps: seq<Step>)
    requires c.inProcess
    ensures Run(pools, steps, c) && pools[0].counts == map[j := count]
    ensures pools[|steps|] == Idle(j, count).(settling := multiset{Ended(j, false)}, seen := map[j := []],
                                              submits := map[j := 1], launches := map[j := 1])
  {
    pools, steps := LaunchedOnce(c, j, count);
    var p, done := pools[|steps|], Ended(j, false);
    var p1 := p.(seen := map[j := [count]]);
    var p2 := p1.(seen := map[j := []], futures := multiset{}, finishing := multiset{done});
    var p3 := p2.(submitted := {}, finishing := multiset{}, settling := multiset{done});
    assert ReadsOf(p, j) + [count] == [count];
    assert Next(p, Read(j), p1, c);
    assert p1.futures - multiset{j} == p2.futures && p1.finishing + multiset{done} == p2.finishing;
    assert Removed(ReadsOf(p1, j), 0) == [];
    assert Next(p1, Finish(j, 0, ParserDone), p2, c);
    assert p2.finishing - multiset{done} == p3.finishing && p2.settling + multiset{done} == p3.settling;
    assert p2.submitted - {j} == {} && p2.stranded - {j} == {};
    assert Next(p2, EarlyRelease(done), p3, c);
    hide Run, Next;
    Push(pools, steps, c, Read(j), p1);
    Push(pools + [p1], steps + [Read(j)], c, Finish(j, 0, ParserDone), p2);
    Push(pools + [p1] + [p2], steps + [Read(j)] + [Finish(j, 0, ParserDone)], c, EarlyRelease(done), p3);
    pools := pools + [p1] + [p2] + [p3];
    steps := steps + [Read(j)] + [Finish(j, 0, ParserDone)] + [EarlyRelease(done)];
  }

  ghost predicate Doubled(p: Pool, j: string, count: nat) {
    && p.futures[j] == 2 && p.direct[j] == 0
    && ReadsOf(p, j) == [] && ReportsOf(p, j) == [] && Tally(p.counts, j) == count && Tally(p.retries, j) == 0
  }

  /**
   * In process a job is released before its future completes.  Submitted again, it
   * loses that claim to the first future's callback, and can be submitted a third time
   * while the second future runs.
   */
  lemma InProcessDoublesAFuture(c: Config, j: string, count: nat) returns (pools: seq<Pool>, steps: seq<Step>)
    requires c.inProcess
    ensures Run(pools, steps, c) && pools[0].counts == map[j := count]
    ensures Doubled(pools[|steps|], j, count)
  {
    pools, steps := EarlyReleased(c, j, count);
    pools, steps := LaunchedAgain(pools, steps, c, j);
    var p, done := pools[|steps|], Ended(j, false);
    var p1 := p.(submitted := {}, settling := multiset{});
    assert p.submitted - {j} == {} && p.stranded - {j} == {} && p.settling - multiset{done} == p1.settling;
    assert Next(p, Release(done), p1, c);
    Push(pools, steps, c, Release(done), p1);
    pools, steps := LaunchedAgain(pools + [p1], steps + [Release(done)], c, j);
  }

  /** A direct call of process_job from start to end: whoever holds the job's claim loses it. */
  lemma DirectlyRun(pools: seq<Pool>, steps: seq<Step>, c: Config, j: string)
    returns (pools': seq<Pool>, steps': seq<Step>)
    requires Run(pools, steps, c) && c.overlaps
    requires pools[|steps|].direct == multiset{}
    requires ReadsOf(pools[|steps|], j) == [] && ReportsOf(pools[|steps|], j) == []
    ensures Run(pools', steps', c) && pools <= pools' && steps <= steps'
    ensures var p := pools[|steps|];
            pools'[|steps'|] == p.(submitted := p.submitted - {j}, stranded := p.stranded - {j},
                                   seen := p.seen[j := []], counts := p.counts[j := Tally(p.counts, j)])
  {
    var p, count := pools[|steps|], Tally(pools[|steps|].counts, j);
    var p1 := p.(direct := multiset{j});
    var p2 := p1.(seen := p.seen[j := [count]]);
    var p3 := p2.(direct := multiset{}, seen := p.seen[j := []], counts := p.counts[j := count],
                  submitted := p.submitted - {j}, stranded := p.stranded - {j});
    var back := DirectReturn(j, 0, ParserDone);
    assert p.direct + multiset{j} == p1.direct && p2.direct - multiset{j} == p3.direct;
    assert ReadsOf(p1, j) + [count] == [count] && Removed(ReadsOf(p2, j), 0) == [];
    assert p2.seen[j := []] == p3.seen;
    assert Next(p, DirectCall(j), p1, c) && Next(p1, Read(j), p2, c) && Next(p2, back, p3, c);
    hide Run, Next;
    Push(pools, steps, c, DirectCall(j), p1);
    Push(pools + [p1], steps + [DirectCall(j)], c, Read(j), p2);
    Push(pools + [p1] + [p2], steps + [DirectCall(j)] + [Read(j)], c, back, p3);
    pools', steps' := pools + [p1] + [p2] + [p3], steps + [DirectCall(j)] + [Read(j)] + [back];
  }

  /** A direct call of process_job releases the claim of the future that runs beside it. */
  lemma DirectCallDoublesAFuture(c: Config, j: string, count: nat) returns (pools: seq<Pool>, steps: seq<Step>)
    requires c.overlaps
    ensures Run(pools, steps, c) && pools[0].counts == map[j := count]
    ensures Doubled(pools[|steps|], j, count)
  {
    pools, steps := LaunchedOnce(c, j, count);
    pools, steps := DirectlyRun(pools, steps, c, j);
    pools, steps := LaunchedAgain(pools, steps, c, j);
  }

  /** A job never has two futures running, in any run, iff the discipline holds. */
  lemma OneFutureExactly(c: Config)
    ensures Disciplined(c) <==>
            forall pools: seq<Pool>, steps, n: nat, j | Run(pools, steps, c) && n <= |steps| :: pools[n].futures[j] <= 1
  {
    if Disciplined(c) {
      forall pools: seq<Pool>, steps, n: nat, j | Run(pools, steps, c) && n <= |steps|
        ensures pools[n].futures[j] <= 1
      {
        OneFuturePerJob(pools, steps, c, n, j);
      }
    } else {
      var pools, steps;
      if c.inProcess {
        pools, steps := InProcessDoublesAFuture(c, "job", 0);
      } else {
        pools, steps := DirectCallDoublesAFuture(c, "job", 0);
      }
      assert pools[|steps|].futures["job"] == 2;
    }
  }

  /** Two futures that both read the counter before either saves lose one failure, and both ask for the last retry. */
  lemma LostFailure(pools: seq<Pool>, steps: seq<Step>, c: Config, j: string)
    returns (pools': seq<Pool>, steps': seq<Step>)
    requires 0 < c.maxRetries && Run(pools, steps, c) && Doubled(pools[|steps|], j, c.maxRetries - 1)
    ensures Run(pools', steps', c) && pools'[0] == pools[0]
    ensures Tally(pools'[|steps'|].retries, j) == 2
  {
    var p := pools[|steps|];
    var n := c.maxRetries - 1;
    var p1 := p.(seen := p.seen[j := [n]]);
    var p2 := p1.(seen := p1.seen[j := [n, n]]);
    assert ReadsOf(p, j) + [n] == [n] && ReadsOf(p1, j) + [n] == [n, n];
    assert Next(p, Read(j), p1, c) && Next(p1, Read(j), p2, c);
    var fail := Finish(j, 0, ParserFailed);
    var p3 := FailedOnce(p2, j, c, [n]);
    var p4 := FailedOnce(p3, j, c, []);
    hide Run, Next;
    Push(pools, steps, c, Read(j), p1);
    Push(pools + [p1], steps + [Read(j)], c, Read(j), p2);
    Push(pools + [p1] + [p2], steps + [Read(j)] + [Read(j)], c, fail, p3);
    Push(pools + [p1] + [p2] + [p3], steps + [Read(j)] + [Read(j)] + [fail], c, fail, p4);
    pools', steps' := pools + [p1] + [p2] + [p3] + [p4], steps + [Read(j)] + [Read(j)] + [fail] + [fail];
  }

  lemma FailedOnce(p: Pool, j: string, c: Config, rest: seq<nat>) returns (p': Pool)
    requires 0 < c.maxRetries && j in p.futures && ReadsOf(p, j) == [c.maxRetries - 1] + rest
    ensures Next(p, Finish(j, 0, ParserFailed), p', c)
    ensures p'.futures == p.futures - multiset{j} && ReadsOf(p', j) == rest
    ensures Tally(p'.retries, j) == Tally(p.retries, j) + 1
  {
    var done := Ended(j, true);
    assert Removed(ReadsOf(p, j), 0) == rest;
    p' := p.(futures := p.futures - multiset{j},
             seen := p.seen[j := rest], counts := p.counts[j := c.maxRetries],
             finishing := if c.inProcess then p.finishing + multiset{done} else p.finishing,
             settling := if c.inProcess then p.settling else p.settling + multiset{done},
             retries := Bump(p.retries, j));
  }

  /** A future of the job runs; a report has read the job, and then the run itself. */
  lemma ReadTwice(c: Config, j: string, n: nat) returns (pools: seq<Pool>, steps: seq<Step>)
    requires c.lateReports
    ensures Run(pools, steps, c) && pools[0].counts == map[j := n]
    ensures pools[|steps|] == Idle(j, n).(submitted := {j}, futures := multiset{j}, seen := map[j := [n]],
                                          reports := map[j := [n]], submits := map[j := 1], launches := map[j := 1])
  {
    pools, steps := LaunchedOnce(c, j, n);
    var p := pools[|steps|];
    var p1 := p.(reports := map[j := [n]]);
    var p2 := p1.(seen := map[j := [n]]);
    assert ReportsOf(p, j) + [n] == [n] && ReadsOf(p1, j) + [n] == [n];
    assert Next(p, ReportRead(j), p1, c) && Next(p1, Read(j), p2, c);
    hide Run, Next;
    Push(pools, steps, c, ReportRead(j), p1);
    Push(pools + [p1], steps + [ReportRead(j)], c, Read(j), p2);
    pools, steps := pools + [p1] + [p2], steps + [ReportRead(j)] + [Read(j)];
  }

  /** The run fails and counts the failure, and then the report saves what it had read. */
  lemma LateReport(c: Config, j: string) returns (pools: seq<Pool>, steps: seq<Step>)
    requires 0 < c.maxRetries && !c.inProcess && c.lateReports
    ensures Run(pools, steps, c) && pools[0].counts == map[j := c.maxRetries - 1]
    ensures var p := pools[|steps|];
            && p.settling == multiset{Ended(j, true)} && p.futures == multiset{} && p.direct == multiset{}
            && p.launching == multiset{} && p.resubmits == multiset{}
            && ReadsOf(p, j) == [] && ReportsOf(p, j) == []
            && Tally(p.counts, j) == c.maxRetries - 1 && Tally(p.retries, j) == 1
  {
    var n := c.maxRetries - 1;
    pools, steps := ReadTwice(c, j, n);
    var p, fail := pools[|steps|], Finish(j, 0, ParserFailed);
    var p1 := FailedOnce(p, j, c, []);
    var p2 := p1.(reports := map[j := []], counts := p1.counts[j := n]);
    assert Removed(ReportsOf(p1, j), 0) == [];
    assert Next(p1, ReportSave(j, 0), p2, c);
    hide Run, Next;
    Push(pools, steps, c, fail, p1);
    Push(pools + [p1], steps + [fail], c, ReportSave(j, 0), p2);
    pools, steps := pools + [p1] + [p2], steps + [fail] + [ReportSave(j, 0)];
  }

  /** The callback releases the job and submits it again, and it is launched. */
  lemma Resubmitted(pools: seq<Pool>, steps: seq<Step>, c: Config, j: string)
    returns (pools': seq<Pool>, steps': seq<Step>)
    requires Run(pools, steps, c)
    requires var p := pools[|steps|];
             && p.settling == multiset{Ended(j, true)} && p.futures == multiset{} && p.direct == multiset{}
             && p.launching == multiset{} && p.resubmits == multiset{}
    ensures Run(pools', steps', c) && pools <= pools' && steps <= steps'
    ensures var (p, p') := (pools[|steps|], pools'[|steps'|]);
            && p'.futures == multiset{j} && p'.direct == multiset{}
            && p'.seen == p.seen && p'.reports == p.reports && p'.counts == p.counts && p'.retries == p.retries
  {
    var p, done := pools[|steps|], Ended(j, true);
    var p1 := Released(p, j).(settling := multiset{}, resubmits := multiset{j});
    var p2 := p1.(submitted := p1.submitted + {j}, launching := multiset{j}, resubmits := multiset{});
    var p3 := p2.(launching := multiset{}, futures := multiset{j}, launches := Bump(p.launches, j));
    assert p.settling - multiset{done} == p1.settling && p.resubmits + multiset{j} == p1.resubmits;
    assert p1.launching + multiset{j} == p2.launching && p1.resubmits - multiset{j} == p2.resubmits;
    assert p2.launching - multiset{j} == p3.launching && p2.futures + multiset{j} == p3.futures;
    assert Next(p, Release(done), p1, c) && Next(p1, Resubmit(j), p2, c) && Next(p2, Launch(j), p3, c);
    hide Run, Next;
    Push(pools, steps, c, Release(done), p1);
    Push(pools + [p1], steps + [Release(done)], c, Resubmit(j), p2);
    Push(pools + [p1] + [p2], steps + [Release(done)] + [Resubmit(j)], c, Launch(j), p3);
    pools', steps' := pools + [p1] + [p2] + [p3], steps + [Release(done)] + [Resubmit(j)] + [Launch(j)];
  }

  /**
   * A progress report that read the job while its parser ran, and saves it after the failure
   * has been counted, takes the count back: the last retry is asked for twice.
   */
  lemma LateReportOverdraws(c: Config, j: string) returns (pools: seq<Pool>, steps: seq<Step>)
    requires 0 < c.maxRetries && !c.inProcess && c.lateReports
    ensures Run(pools, steps, c) && pools[0].counts == map[j := c.maxRetries - 1]
    ensures Tally(pools[|steps|].retries, j) == 2
  {
    pools, steps := LateReport(c, j);
    pools, steps := Resubmitted(pools, steps, c, j);
    var p, n, fail := pools[|steps|], c.maxRetries - 1, Finish(j, 0, ParserFailed);
    var p1 := p.(seen := p.seen[j := [n]]);
    assert ReadsOf(p, j) + [n] == [n];
    assert Next(p, Read(j), p1, c);
    var p2 := FailedOnce(p1, j, c, []);
    hide Run, Next;
    Push(pools, steps, c, Read(j), p1);
    Push(pools + [p1], steps + [Read(j)], c, fail, p2);
    pools, steps := pools + [p1] + [p2], steps + [Read(j)] + [fail];
  }

  /** Without retries allowed none is ever asked for. */
  lemma {:induction false} NoRetries(pools: seq<Pool>, steps: seq<Step>, c: Config, n: nat)
    requires Run(pools, steps, c) && n <= |steps| && c.maxRetries == 0
    ensures pools[n].retries == map[]
    decreases n
  {
    if n > 0 {
      NoRetries(pools, steps, c, n - 1);
      assert Next(pools[n - 1], steps[n - 1], pools[n], c);
    }
  }

  /** In every run, no job asks for more retries than its counter allowed at the start. */
  ghost predicate WithinBudget(c: Config) {
    forall pools: seq<Pool>, steps, n: nat, j | Run(pools, steps, c) && n <= |steps| ::
      Tally(pools[n].retries, j) <= Max(0, c.maxRetries - Tally(pools[0].counts, j))
  }

  lemma Overdrawn(pools: seq<Pool>, steps: seq<Step>, c: Config)
    requires 0 < c.maxRetries && Run(pools, steps, c) && pools[0].counts == map["job" := c.maxRetries - 1]
    requires Tally(pools[|steps|].retries, "job") == 2
    ensures !WithinBudget(c)
  {
    assert Tally(pools[0].counts, "job") == c.maxRetries - 1;
  }

  /**
   * The retry budget holds in every run iff the discipline does and no progress report
   * outlives its parser, or no retry is allowed at all.
   */
  lemma BudgetExactly(c: Config)
    ensures WithinBudget(c) <==> (Disciplined(c) && !c.lateReports) || c.maxRetries == 0
  {
    if (Disciplined(c) && !c.lateReports) || c.maxRetries == 0 {
      forall pools: seq<Pool>, steps, n: nat, j | Run(pools, steps, c) && n <= |steps|
        ensures Tally(pools[n].retries, j) <= Max(0, c.maxRetries - Tally(pools[0].counts, j))
      {
        if c.maxRetries == 0 {
          NoRetries(pools, steps, c, n);
        } else {
          ChainsAreFinite(pools, steps, c, n, j);
        }
      }
    } else {
      var pools, steps;
      if c.inProcess {
        pools, steps := InProcessDoublesAFuture(c, "job", c.maxRetries - 1);
        pools, steps := LostFailure(pools, steps, c, "job");
      } else if c.overlaps {
        pools, steps := DirectCallDoublesAFuture(c, "job", c.maxRetries - 1);
        pools, steps := LostFailure(pools, steps, c, "job");
      } else {
        pools, steps := LateReportOverdraws(c, "job");
      }
      Overdrawn(pools, steps, c);
    }
  }

  /**
   * A run in which executor.submit raises: the job is claimed, nobody acts for it,
   * and submitting it again does nothing.
   */
  lemma SubmitRaises(c: Config, j: string) returns (pools: seq<Pool>, steps: seq<Step>)
    ensures Run(pools, steps, c) && steps == [Submit(j), LaunchRaises(j)]
    ensures var p := pools[|steps|];
            && p == Idle(j, 0).(submitted := {j}, stranded := {j}, submits := map[j := 1])
            && Claims(p, j) == 0 && Tally(p.launches, j) == 0
            && Next(p, Submit(j), p, c)
  {
    var p0 := Idle(j, 0);
    var p1 := p0.(submitted := {j}, launching := multiset{j}, submits := map[j := 1]);
    var p2 := p1.(launching := multiset{}, stranded := {j});
    pools, steps := [p0], [];
    assert Run(pools, steps, c);
    assert p0.launching + multiset{j} == p1.launching && p0.submitted + {j} == p1.submitted;
    assert Next(p0, Submit(j), p1, c);
    assert p1.launching - multiset{j} == p2.launching && p1.stranded + {j} == p2.stranded;
    assert Next(p1, LaunchRaises(j), p2, c);
    Push(pools, steps, c, Submit(j), p1);
    Push(pools + [p1], steps + [Submit(j)], c, LaunchRaises(j), p2);
    pools, steps := pools + [p1] + [p2], steps + [Submit(j)] + [LaunchRaises(j)];
  }

  /** What gets the job out again: a direct call of process_job releases it, and it can be launched. */
  lemma DirectCallUnstrands(c: Config, j: string) returns (pools: seq<Pool>, steps: seq<Step>)
    requires c.overlaps
    ensures Run(pools, steps, c)
    ensures |steps| > 1 && steps[1] == LaunchRaises(j) && j in pools[2].stranded
    ensures j !in pools[|steps|].stranded && Tally(pools[|steps|].launches, j) == 1
  {
    pools, steps := SubmitRaises(c, j);
    pools, steps := DirectlyRun(pools, steps, c, j);
    pools, steps := LaunchedAgain(pools, steps, c, j);
  }

  /**
   * How a future ends: its runner's read is used up and no other, the counter is what it read, one more
   * if the parser failed, or untouched if the runner raised, and a retry is asked for
   * iff the parser failed with less than the budget read.
   */
  lemma FinishLaw(p: Pool, j: string, i: nat, result: Result, p': Pool, c: Config)
    requires Next(p, Finish(j, i, result), p', c)
    ensures var (was, left) := (ReadsOf(p, j), ReadsOf(p', j));
            && |left| + 1 == |was|
            && (forall k :: 0 <= k < i ==> left[k] == was[k])
            && (forall k :: i <= k < |left| ==> left[k] == was[k + 1])
            && Tally(p'.counts, j) == (if result.RunnerRaised? then Tally(p.counts, j)
                                       else was[i] + if result.ParserFailed? then 1 else 0)
            && Tally(p'.retries, j)
               == Tally(p.retries, j) + if result.ParserFailed? && was[i] < c.maxRetries then 1 else 0
    ensures forall k :: k != j ==> ReadsOf(p', k) == ReadsOf(p, k) && Tally(p'.counts, k) == Tally(p.counts, k)
  {
  }

  /** The callback of a future: its job is released, and submitted again iff a retry was asked for. */
  lemma ReleaseLaw(p: Pool, done: Ended, p': Pool, c: Config, j: string)
    requires Next(p, Release(done), p', c)
    ensures p'.resubmits[j] == p.resubmits[j] + if done.retry && j == done.jobId then 1 else 0
    ensures j in p'.submitted <==> j in p.submitted && j != done.jobId
    ensures p'.settling[done] + 1 == p.settling[done] && forall e :: e != done ==> p'.settling[e] == p.settling[e]
  {
  }

  /** While its parser is at work a job can be reported on; a report saved at once changes no counter. */
  lemma ReportsAreHarmless(p: Pool, j: string, c: Config) returns (p1: Pool, p2: Pool)
    requires 0 < Parsing(p, j)
    ensures Next(p, ReportRead(j), p1, c) && Next(p1, ReportSave(j, |ReportsOf(p, j)|), p2, c)
    ensures ReportsOf(p2, j) == ReportsOf(p, j) && p2 == p.(reports := p2.reports, counts := p2.counts)
    ensures forall k :: Tally(p2.counts, k) == Tally(p.counts, k)
  {
    var reports, n := ReportsOf(p, j), Tally(p.counts, j);
    p1 := p.(reports := p.reports[j := reports + [n]]);
    p2 := p1.(reports := p1.reports[j := Removed(reports + [n], |reports|)], counts := p.counts[j := n]);
  }

  /** The coordinator's runs move the counter as the pool's do. */
  lemma FinishIsARun(sys: System, jobId: string, a: Attempt, opts: Options, ps: ParserSettings)
    requires Ready(sys) && jobId in sys.t.jobs && OthersOnly(a.events, jobId)
    ensures var (job, (sys', retry)) := (sys.t.jobs[jobId], Processed(sys, jobId, a, opts, ps));
            var fails := ParserFails(job, a) && !FailsFirst(job, opts);
            && jobId in sys'.t.jobs
            && retry == AfterRun(FailureCount(job), fails, ps.maxRetries).1
            && (fails ==> FailureCount(sys'.t.jobs[jobId]) == AfterRun(FailureCount(job), fails, ps.maxRetries).0)
  {
    ProcessedLaw(sys, jobId, a, opts, ps);
  }
}
