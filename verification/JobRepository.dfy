/**
 * The job, document and run tables.  Each repository method is one SQL
 * transaction, so one atomic step on the three tables.
 *
 * A run row is keyed by its job's id and repeats the job's fields; `save`
 * writes the job row and refreshes the run row, if there is one.  Documents
 * are keyed by their content hash, which the schema declares unique.
 */
module JobRepository {
  import opened Wrappers
  import opened Sequences
  import opened JobModels

  /** The columns that a run row copies from its job. */
  datatype Snapshot = Snapshot(
    status: JobStatus,
    parser: string,
    pipeline: Option<string>,
    sourceFileName: Option<string>,
    outputs: Option<Outputs>,
    metadata: Metadata,
    error: Option<string>,
    createdAt: int,
    updatedAt: int,
    startedAt: Option<int>,
    completedAt: Option<int>)

  datatype Run = Run(runId: string, jobId: string, documentId: string, attempt: int, snapshot: Snapshot)

  datatype Document = Document(
    documentId: string,
    contentHash: string,
    sourceFileName: Option<string>,
    sizeBytes: Option<int>,
    mimeType: Option<string>,
    storagePath: string,
    createdAt: int,
    updatedAt: int)

  datatype Tables = Tables(jobs: map<string, Job>, documents: map<string, Document>, runs: map<string, Run>)

  datatype RepositoryError = IntegrityError

  function SnapshotOf(job: Job): Snapshot {
    Snapshot(job.status, job.parser, OrElse(job.metadata.pipeline, job.metadata.requestedPipeline),
             job.sourceFileName, job.outputs, job.metadata, job.error,
             job.createdAt, job.updatedAt, job.startedAt, job.completedAt)
  }

  /** The document a run is filed under once `job` is saved. */
  function RunDocument(run: Run, job: Job): string {
    OrElse(job.documentId, Some(run.documentId)).value
  }

  function AfterSave(t: Tables, job: Job): Tables {
    t.(jobs := t.jobs[job.jobId := job],
       runs := if job.jobId in t.runs
               then t.runs[job.jobId := t.runs[job.jobId].(
                      documentId := RunDocument(t.runs[job.jobId], job),
                      snapshot := SnapshotOf(job))]
               else t.runs)
  }

  function Attempts(runs: map<string, Run>, documentId: string): set<int> {
    set r | r in runs && runs[r].documentId == documentId :: runs[r].attempt
  }

  lemma {:induction false} GreatestExists(s: set<int>)
    requires s != {}
    ensures exists m :: m in s && forall y :: y in s ==> y <= m
    decreases |s|
  {
    var x := Member(s);
    if s != {x} {
      var rest := s - {x};
      assert rest != {};
      GreatestExists(rest);
      var m :| m in rest && forall y :: y in rest ==> y <= m;
      var top := Max(x, m);
      assert top in s && forall y :: y in s ==> y <= top by {
        forall y | y in s ensures y <= top {
          assert y == x || y in rest;
        }
      }
    }
  }

  function Greatest(s: set<int>): (m: int)
    requires s != {}
    ensures m in s && forall y :: y in s ==> y <= m
  {
    GreatestExists(s);
    var m :| m in s && forall y :: y in s ==> y <= m;
    m
  }

  /** COALESCE(MAX(attempt_number), 0) + 1 */
  function NextAttempt(runs: map<string, Run>, documentId: string): (n: int)
    ensures forall r :: r in runs && runs[r].documentId == documentId ==> runs[r].attempt < n
  {
    var attempts := Attempts(runs, documentId);
    assert forall r :: r in runs && runs[r].documentId == documentId ==> runs[r].attempt in attempts;
    if attempts == {} then 1 else Greatest(attempts) + 1
  }

  function NewRun(t: Tables, job: Job, documentId: string): Run {
    Run(job.jobId, job.jobId, documentId, NextAttempt(t.runs, documentId), SnapshotOf(job))
  }

  function AfterCreateRun(t: Tables, job: Job, documentId: string): (Tables, Result<Run, RepositoryError>) {
    if job.jobId in t.runs then (t, Err(IntegrityError))
    else
      var run := NewRun(t, job, documentId);
      (t.(runs := t.runs[job.jobId := run]), Ok(run))
  }

  /** What an upload says about a document; `newId` is the fresh uuid of a new row. */
  datatype Upload = Upload(
    contentHash: string,
    sourceFileName: Option<string>,
    sizeBytes: Option<int>,
    mimeType: Option<string>,
    storagePath: string,
    newId: string,
    now: int)

  function Upserted(t: Tables, up: Upload): Document {
    if up.contentHash in t.documents
    then t.documents[up.contentHash].(
           sourceFileName := up.sourceFileName, sizeBytes := up.sizeBytes, mimeType := up.mimeType,
           storagePath := up.storagePath, updatedAt := up.now)
    else Document(up.newId, up.contentHash, up.sourceFileName, up.sizeBytes, up.mimeType,
                  up.storagePath, up.now, up.now)
  }

  function AfterUpsert(t: Tables, up: Upload): Tables {
    t.(documents := t.documents[up.contentHash := Upserted(t, up)])
  }

  function AfterDelete(t: Tables, jobId: string): Tables {
    if jobId in t.jobs then t.(jobs := t.jobs - {jobId}, runs := t.runs - {jobId}) else t
  }

  // --------------------------------------------------------------- repository

  class SqliteIngestionJobRepository {
    var jobs: map<string, Job>
    var documents: map<string, Document>
    var runs: map<string, Run>

    function View(): Tables
      reads this
    {
      Tables(jobs, documents, runs)
    }

    constructor ()
      ensures View() == Tables(map[], map[], map[])
    {
      jobs, documents, runs := map[], map[], map[];
    }

    method Save(job: Job)
      modifies this
      ensures View() == AfterSave(old(View()), job)
    {
      jobs := jobs[job.jobId := job];
      if job.jobId in runs {
        var existing := runs[job.jobId];
        runs := runs[job.jobId := existing.(documentId := RunDocument(existing, job), snapshot := SnapshotOf(job))];
      }
    }

    method Get(jobId: string) returns (job: Option<Job>)
      ensures job == if jobId in jobs then Some(jobs[jobId]) else None
    {
      job := if jobId in jobs then Some(jobs[jobId]) else None;
    }

    method UpsertDocument(up: Upload) returns (document: Document)
      modifies this
      ensures View() == AfterUpsert(old(View()), up)
      ensures document == View().documents[up.contentHash]
    {
      if up.contentHash !in documents {
        documents := documents[up.contentHash :=
          Document(up.newId, up.contentHash, up.sourceFileName, up.sizeBytes, up.mimeType,
                   up.storagePath, up.now, up.now)];
      } else {
        var row := documents[up.contentHash];
        documents := documents[up.contentHash := row.(
          sourceFileName := up.sourceFileName, sizeBytes := up.sizeBytes, mimeType := up.mimeType,
          storagePath := up.storagePath, updatedAt := up.now)];
      }
      document := documents[up.contentHash];
    }

    method CreateRunForJob(job: Job, documentId: string) returns (r: Result<Run, RepositoryError>)
      modifies this
      ensures (View(), r) == AfterCreateRun(old(View()), job, documentId)
    {
      var attempt := NextAttempt(runs, documentId);
      if job.jobId in runs {
        return Err(IntegrityError);
      }
      var run := Run(job.jobId, job.jobId, documentId, attempt, SnapshotOf(job));
      runs := runs[job.jobId := run];
      r := Ok(run);
    }

    method Delete(jobId: string) returns (job: Option<Job>)
      modifies this
      ensures View() == AfterDelete(old(View()), jobId)
      ensures job == if jobId in old(jobs) then Some(old(jobs)[jobId]) else None
    {
      if jobId !in jobs {
        return None;
      }
      job := Some(jobs[jobId]);
      runs := runs - {jobId};
      jobs := jobs - {jobId};
    }
  }

  // ---------------------------------------------------------------- invariant

  ghost predicate KeyedRows(t: Tables) {
    && (forall j :: j in t.jobs ==> t.jobs[j].jobId == j)
    && (forall r :: r in t.runs ==> t.runs[r].runId == r && t.runs[r].jobId == r)
    && (forall h :: h in t.documents ==> t.documents[h].contentHash == h)
  }

  /** The columns of a run row repeat those of its job; the pipeline is the one used, or else the one asked for. */
  ghost predicate Copies(s: Snapshot, job: Job) {
    && s.status == job.status && s.parser == job.parser && s.sourceFileName == job.sourceFileName
    && s.outputs == job.outputs && s.metadata == job.metadata && s.error == job.error
    && s.createdAt == job.createdAt && s.updatedAt == job.updatedAt
    && s.startedAt == job.startedAt && s.completedAt == job.completedAt
    && s.pipeline == (if job.metadata.pipeline.Some? && job.metadata.pipeline != Some("") then job.metadata.pipeline
                      else job.metadata.requestedPipeline)
  }

  /** A run row and its job row tell the same story. */
  ghost predicate Agrees(run: Run, job: Job) {
    && run.documentId != ""
    && job.documentId == Some(run.documentId)
    && Copies(run.snapshot, job)
  }

  ghost predicate RunsAgree(t: Tables) {
    forall r :: r in t.runs ==> r in t.jobs && Agrees(t.runs[r], t.jobs[r])
  }

  ghost predicate AttemptsNumbered(t: Tables) {
    && (forall r :: r in t.runs ==> 1 <= t.runs[r].attempt)
    && (forall r, s :: r in t.runs && s in t.runs && r != s
                       && t.runs[r].documentId == t.runs[s].documentId ==>
                       t.runs[r].attempt != t.runs[s].attempt)
  }

  ghost predicate OneIdPerHash(t: Tables) {
    forall g, h :: g in t.documents && h in t.documents && g != h ==>
                     t.documents[g].documentId != t.documents[h].documentId
  }

  ghost predicate Inv(t: Tables) {
    KeyedRows(t) && RunsAgree(t) && AttemptsNumbered(t) && OneIdPerHash(t)
  }

  datatype Step =
    | SaveStep(job: Job)
    | CreateRunStep(job: Job, documentId: string)
    | UpsertStep(up: Upload)
    | DeleteStep(jobId: string)

  function Apply(t: Tables, step: Step): Tables {
    match step
    case SaveStep(job) => AfterSave(t, job)
    case CreateRunStep(job, documentId) => AfterCreateRun(t, job, documentId).0
    case UpsertStep(up) => AfterUpsert(t, up)
    case DeleteStep(jobId) => AfterDelete(t, jobId)
  }

  /**
   * How the services call the repository: a run is created right after its job
   * was saved, and a job that has a run keeps its document id.
   */
  ghost predicate Allowed(t: Tables, step: Step) {
    match step
    case SaveStep(job) =>
      job.jobId in t.runs ==> job.documentId == Some(t.runs[job.jobId].documentId)
    case CreateRunStep(job, documentId) =>
      && documentId != ""
      && job.documentId == Some(documentId)
      && job.jobId in t.jobs && t.jobs[job.jobId] == job
    case UpsertStep(up) =>
      forall h :: h in t.documents ==> t.documents[h].documentId != up.newId
    case DeleteStep(_) => true
  }

  /**
   * What a save does: the job row is the job; its run row, if there is one, repeats the job's columns under the
   * same number, and moves with it to another document if the job names one; no other row changes.
   */
  lemma SaveLaw(t: Tables, job: Job)
    ensures var t' := AfterSave(t, job);
            && t'.documents == t.documents
            && t'.jobs == t.jobs[job.jobId := job]
            && t'.runs.Keys == t.runs.Keys
            && (forall r :: r in t.runs && r != job.jobId ==> t'.runs[r] == t.runs[r])
            && (job.jobId in t.runs ==>
                  var (was, now) := (t.runs[job.jobId], t'.runs[job.jobId]);
                  && Copies(now.snapshot, job)
                  && now.runId == was.runId && now.jobId == was.jobId && now.attempt == was.attempt
                  && now.documentId == (if job.documentId.Some? && job.documentId.value != "" then job.documentId.value
                                        else was.documentId))
  {
  }

  /** What a run creation does: the job's run gets the number after the highest of its document. */
  lemma CreateRunLaw(t: Tables, job: Job, documentId: string)
    ensures var (t', r) := AfterCreateRun(t, job, documentId);
            if job.jobId in t.runs then t' == t && r == Err(IntegrityError)
            else
              && r.Ok? && t'.jobs == t.jobs && t'.documents == t.documents
              && t'.runs == t.runs[job.jobId := r.value]
              && r.value.runId == job.jobId && r.value.jobId == job.jobId && r.value.documentId == documentId
              && Copies(r.value.snapshot, job)
              && (forall o :: o in t.runs && t.runs[o].documentId == documentId ==> t.runs[o].attempt < r.value.attempt)
              && (r.value.attempt == 1
                  || exists o :: o in t.runs && t.runs[o].documentId == documentId
                                 && t.runs[o].attempt + 1 == r.value.attempt)
  {
    var attempts := Attempts(t.runs, documentId);
    if job.jobId !in t.runs && attempts != {} {
      assert Greatest(attempts) in attempts;
    }
  }

  /** What an upload does: a known hash keeps its row's id and creation time, an unknown one gets the new id. */
  lemma UpsertLaw(t: Tables, up: Upload)
    requires KeyedRows(t)
    ensures var t' := AfterUpsert(t, up);
            && t'.jobs == t.jobs && t'.runs == t.runs
            && t'.documents.Keys == t.documents.Keys + {up.contentHash}
            && (forall h :: h in t.documents && h != up.contentHash ==> t'.documents[h] == t.documents[h])
            && var (row, known) := (t'.documents[up.contentHash], up.contentHash in t.documents);
               && row.contentHash == up.contentHash && row.sourceFileName == up.sourceFileName
               && row.sizeBytes == up.sizeBytes && row.mimeType == up.mimeType
               && row.storagePath == up.storagePath && row.updatedAt == up.now
               && row.documentId == (if known then t.documents[up.contentHash].documentId else up.newId)
               && row.createdAt == (if known then t.documents[up.contentHash].createdAt else up.now)
  {
  }

  /** What a deletion does: job row and run row go, no other row changes, and an unknown id changes nothing. */
  lemma DeleteLaw(t: Tables, jobId: string)
    ensures var t' := AfterDelete(t, jobId);
            && t'.documents == t.documents
            && (jobId !in t.jobs ==> t' == t)
            && (jobId in t.jobs ==>
                  && jobId !in t'.jobs && jobId !in t'.runs
                  && t'.jobs.Keys == t.jobs.Keys - {jobId} && t'.runs.Keys == t.runs.Keys - {jobId})
            && (forall j :: j in t'.jobs ==> t'.jobs[j] == t.jobs[j])
            && (forall r :: r in t'.runs ==> t'.runs[r] == t.runs[r])
  {
  }

  lemma SaveKeeps(t: Tables, job: Job)
    requires Inv(t) && Allowed(t, SaveStep(job))
    ensures Inv(AfterSave(t, job))
  {
    var t' := AfterSave(t, job);
    if job.jobId in t.runs {
      var run := t.runs[job.jobId];
      assert Agrees(run, t.jobs[job.jobId]);
      assert RunDocument(run, job) == run.documentId;
      assert t'.runs[job.jobId] == run.(snapshot := SnapshotOf(job));
    }
    assert RunsAgree(t');
  }

  lemma CreateRunKeeps(t: Tables, job: Job, documentId: string)
    requires Inv(t) && Allowed(t, CreateRunStep(job, documentId))
    ensures Inv(AfterCreateRun(t, job, documentId).0)
  {
    var t' := AfterCreateRun(t, job, documentId).0;
    if job.jobId !in t.runs {
      var run := NewRun(t, job, documentId);
      assert t'.runs == t.runs[job.jobId := run];
      assert RunsAgree(t');
    }
  }

  lemma UpsertKeeps(t: Tables, up: Upload)
    requires Inv(t) && Allowed(t, UpsertStep(up))
    ensures Inv(AfterUpsert(t, up))
  {
    assert forall h :: h in t.documents ==> t.documents[h].documentId != up.newId;
    assert RunsAgree(AfterUpsert(t, up)) && AttemptsNumbered(AfterUpsert(t, up));
  }

  lemma DeleteKeeps(t: Tables, jobId: string)
    requires Inv(t)
    ensures Inv(AfterDelete(t, jobId))
  {
    assert RunsAgree(AfterDelete(t, jobId));
    assert AttemptsNumbered(AfterDelete(t, jobId));
  }

  lemma StepKeeps(t: Tables, step: Step)
    requires Inv(t) && Allowed(t, step)
    ensures Inv(Apply(t, step))
  {
    match step
    case SaveStep(job) => SaveKeeps(t, job);
    case CreateRunStep(job, documentId) => CreateRunKeeps(t, job, documentId);
    case UpsertStep(up) => UpsertKeeps(t, up);
    case DeleteStep(jobId) => DeleteKeeps(t, jobId);
  }

  function ApplyAll(t: Tables, steps: seq<Step>): Tables
    decreases |steps|
  {
    if steps == [] then t else Apply(ApplyAll(t, steps[..|steps| - 1]), steps[|steps| - 1])
  }

  ghost predicate AllAllowed(t: Tables, steps: seq<Step>) {
    forall n :: 0 <= n < |steps| ==> Allowed(ApplyAll(t, steps[..n]), steps[n])
  }

  /**
   * After any sequence of saves, run creations, uploads and deletions made the
   * way the services make them, every run row agrees with its job row, attempt
   * numbers within a document are positive and pairwise distinct, and a content
   * hash and a document id stand for each other.
   */
  lemma {:induction false} RepositoryConsistent(steps: seq<Step>)
    requires AllAllowed(Tables(map[], map[], map[]), steps)
    ensures Inv(ApplyAll(Tables(map[], map[], map[]), steps))
    decreases |steps|
  {
    if steps != [] {
      var init := steps[..|steps| - 1];
      forall n | 0 <= n < |init|
        ensures Allowed(ApplyAll(Tables(map[], map[], map[]), init[..n]), init[n])
      {
        assert init[..n] == steps[..n];
      }
      RepositoryConsistent(init);
      StepKeeps(ApplyAll(Tables(map[], map[], map[]), init), steps[|steps| - 1]);
    }
  }

  /** The job row that the last save or deletion of the job leaves. */
  function LastRow(row: Option<Job>, steps: seq<Step>, jobId: string): Option<Job>
    decreases |steps|
  {
    if steps == [] then row
    else
      match steps[|steps| - 1]
      case SaveStep(job) => if job.jobId == jobId then Some(job) else LastRow(row, steps[..|steps| - 1], jobId)
      case DeleteStep(id) => if id == jobId then None else LastRow(row, steps[..|steps| - 1], jobId)
      case _ => LastRow(row, steps[..|steps| - 1], jobId)
  }

  /** What is stored after any steps: each job as last saved and not deleted since, and every document uploaded. */
  lemma {:induction false} StoredExactly(t: Tables, steps: seq<Step>, jobId: string, h: string)
    ensures var t' := ApplyAll(t, steps);
            && (if jobId in t'.jobs then Some(t'.jobs[jobId]) else None)
               == LastRow(if jobId in t.jobs then Some(t.jobs[jobId]) else None, steps, jobId)
            && (h in t'.documents <==>
                  h in t.documents || exists step :: step in steps && step.UpsertStep? && step.up.contentHash == h)
    decreases |steps|
  {
    if steps != [] {
      var init, last := steps[..|steps| - 1], steps[|steps| - 1];
      assert steps == init + [last];
      StoredExactly(t, init, jobId, h);
      hide SnapshotOf, RunDocument, NextAttempt, NewRun, Upserted;
    }
  }

  /** Whatever happens in between, a hash keeps the document id of its first upload. */
  lemma {:induction false} HashKeepsItsDocument(t: Tables, steps: seq<Step>, h: string)
    requires h in t.documents
    ensures h in ApplyAll(t, steps).documents
    ensures ApplyAll(t, steps).documents[h].documentId == t.documents[h].documentId
    decreases |steps|
  {
    if steps != [] {
      HashKeepsItsDocument(t, steps[..|steps| - 1], h);
    }
  }

  /** Saving a job under another document keeps the numbering iff no run there has that number. */
  lemma SaveKeepsNumberingExactly(t: Tables, job: Job)
    requires AttemptsNumbered(t)
    ensures AttemptsNumbered(AfterSave(t, job)) <==>
            (job.jobId in t.runs ==>
               forall s :: s in t.runs && s != job.jobId
                           && t.runs[s].documentId == RunDocument(t.runs[job.jobId], job) ==>
                           t.runs[s].attempt != t.runs[job.jobId].attempt)
  {
    var t' := AfterSave(t, job);
    if job.jobId in t.runs {
      var me := job.jobId;
      assert t'.runs[me].attempt == t.runs[me].attempt;
      if AttemptsNumbered(t') {
        forall s | s in t.runs && s != me && t.runs[s].documentId == RunDocument(t.runs[me], job)
          ensures t.runs[s].attempt != t.runs[me].attempt
        {
          assert s in t'.runs && t'.runs[s] == t.runs[s];
        }
      }
    }
  }

  /** A run creation keeps job and run in agreement iff the job row is the one it is given. */
  lemma CreateRunAgreesExactly(t: Tables, job: Job, documentId: string)
    requires KeyedRows(t) && RunsAgree(t) && job.jobId !in t.runs
    ensures RunsAgree(AfterCreateRun(t, job, documentId).0) <==>
            && documentId != ""
            && job.jobId in t.jobs
            && t.jobs[job.jobId].documentId == Some(documentId)
            && var stored := t.jobs[job.jobId];
               && stored.status == job.status && stored.parser == job.parser
               && stored.sourceFileName == job.sourceFileName && stored.outputs == job.outputs
               && stored.metadata == job.metadata && stored.error == job.error
               && stored.createdAt == job.createdAt && stored.updatedAt == job.updatedAt
               && stored.startedAt == job.startedAt && stored.completedAt == job.completedAt
  {
    var t' := AfterCreateRun(t, job, documentId).0;
    assert t'.runs[job.jobId] == NewRun(t, job, documentId);
    if RunsAgree(t') {
      assert job.jobId in t'.jobs && Agrees(t'.runs[job.jobId], t'.jobs[job.jobId]);
    }
  }

  /**
   * A document change that collides: two documents with one run each, and the
   * second job saved under the first document, as a parser may return it.
   */
  lemma SavesCanCollide(first: Job, second: Job, returned: Job)
    requires first.jobId != second.jobId && returned.jobId == second.jobId
    requires first.documentId == returned.documentId == Some("A") && second.documentId == Some("B")
    ensures var steps := [SaveStep(first), CreateRunStep(first, "A"), SaveStep(second), CreateRunStep(second, "B")];
            var empty := Tables(map[], map[], map[]);
            && AllAllowed(empty, steps) && AttemptsNumbered(ApplyAll(empty, steps))
            && !AttemptsNumbered(AfterSave(ApplyAll(empty, steps), returned))
  {
    var t0 := Tables(map[], map[], map[]);
    var steps := [SaveStep(first), CreateRunStep(first, "A"), SaveStep(second), CreateRunStep(second, "B")];
    var t1 := AfterSave(t0, first);
    var t2 := AfterCreateRun(t1, first, "A").0;
    var t3 := AfterSave(t2, second);
    var t4 := AfterCreateRun(t3, second, "B").0;
    FirstAttempt(t1.runs, "A");
    FirstAttempt(t3.runs, "B");
    assert steps[..4] == steps && steps[..4][..3] == steps[..3] && steps[..3][..2] == steps[..2];
    assert steps[..2][..1] == steps[..1] && steps[..1][..0] == [] && steps[..0] == [];
    assert ApplyAll(t0, steps[..1]) == t1;
    assert ApplyAll(t0, steps[..2]) == t2;
    assert ApplyAll(t0, steps[..3]) == t3;
    assert ApplyAll(t0, steps[..4]) == t4;
    RepositoryConsistent(steps);
    SaveKeepsNumberingExactly(t4, returned);
    assert t4.runs[first.jobId].documentId == "A" && t4.runs[first.jobId].attempt == 1;
    assert t4.runs[second.jobId].attempt == 1 && RunDocument(t4.runs[second.jobId], returned) == "A";
  }

  lemma FirstAttempt(runs: map<string, Run>, documentId: string)
    requires forall r :: r in runs ==> runs[r].documentId != documentId
    ensures NextAttempt(runs, documentId) == 1
  {
    assert Attempts(runs, documentId) == {};
  }
}
