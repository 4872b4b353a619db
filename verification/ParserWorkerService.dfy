/**
 * The worker pool's object: `submitted` is its set of claimed jobs, `futures` the
 * jobs handed to the executor, in order.  One caller at a time; ParserWorkers
 * covers the interleavings.
 */
module ParserWorkerService {
  import opened Wrappers
  import opened Sequences
  import opened JobModels

  /** The statuses that a restart takes up again. */
  const RECOVERED: set<JobStatus> :=
    {JobQueued, ParserQueued, Retrying, Parsing, Parsed, DispatchQueued, DispatchingJob, StoredLocal,
     IndexedElastic, RetryableFailure}

  /** The jobs of `rows` to recover, without those claimed already. */
  function ToRecover(rows: seq<Job>, claimed: set<string>): seq<string> {
    if rows == [] then []
    else if rows[0].status in RECOVERED && rows[0].jobId !in claimed
    then [rows[0].jobId] + ToRecover(rows[1..], claimed + {rows[0].jobId})
    else ToRecover(rows[1..], claimed)
  }

  /** Each active job that nobody has claimed is recovered once, and no other. */
  lemma {:induction false} ToRecoverLaw(rows: seq<Job>, claimed: set<string>)
    ensures Distinct(ToRecover(rows, claimed))
    ensures forall id :: id in ToRecover(rows, claimed) <==>
              id !in claimed && exists i :: 0 <= i < |rows| && rows[i].jobId == id && rows[i].status in RECOVERED
  {
    if rows != [] {
      var more := if rows[0].status in RECOVERED then claimed + {rows[0].jobId} else claimed;
      ToRecoverLaw(rows[1..], more);
      var rest := ToRecover(rows[1..], more);
      if rows[0].status in RECOVERED && rows[0].jobId in claimed {
        assert more == claimed;
      }
      forall id
        ensures id in ToRecover(rows, claimed) <==>
                id !in claimed && exists i :: 0 <= i < |rows| && rows[i].jobId == id && rows[i].status in RECOVERED
      {
        if exists i :: 0 <= i < |rows| && rows[i].jobId == id && rows[i].status in RECOVERED {
          var i :| 0 <= i < |rows| && rows[i].jobId == id && rows[i].status in RECOVERED;
          assert i > 0 ==> rows[1..][i - 1].jobId == id;
        }
        if id in rest {
          var i :| 0 <= i < |rows[1..]| && rows[1..][i].jobId == id && rows[1..][i].status in RECOVERED;
          assert rows[i + 1].jobId == id;
        }
      }
    }
  }

  /** One row further: an active job that nobody has claimed is the next of `ids`, after `done`. */
  lemma NextToRecover(rows: seq<Job>, i: nat, claimed: set<string>, done: seq<string>, ids: seq<string>)
    requires i < |rows| && ids == done + ToRecover(rows[i..], claimed + Elements(done))
    ensures var (id, now) := (rows[i].jobId, claimed + Elements(done));
            if rows[i].status in RECOVERED && id !in now
            then now + {id} == claimed + Elements(done + [id]) && done + [id] <= ids
                 && ids == done + [id] + ToRecover(rows[i + 1..], now + {id})
            else ids == done + ToRecover(rows[i + 1..], now)
  {
    assert rows[i..][1..] == rows[i + 1..];
  }

  /** The jobs up to the first that the executor refuses; it is claimed, but not launched. */
  function Accepted(ids: seq<string>, accepts: string -> bool): (launched: seq<string>)
    ensures launched <= ids
    ensures forall id :: id in launched ==> accepts(id)
    ensures |launched| < |ids| ==> !accepts(ids[|launched|])
  {
    if ids == [] || !accepts(ids[0]) then [] else [ids[0]] + Accepted(ids[1..], accepts)
  }

  /** The jobs claimed when a recovery ends: the launched ones and the refused one. */
  function Tried(ids: seq<string>, accepts: string -> bool): (tried: seq<string>)
    ensures tried <= ids
  {
    var n := |Accepted(ids, accepts)|;
    if n == |ids| then ids else ids[..n + 1]
  }

  class ParserWorkerService {
    var submitted: set<string>
    var futures: seq<string>

    constructor ()
      ensures submitted == {} && futures == []
    {
      submitted, futures := {}, [];
    }

    /** `accepts` says whether executor.submit returns; if it raises, the job stays claimed. */
    method SubmitJob(jobId: string, accepts: bool) returns (raised: bool)
      modifies this
      ensures submitted == old(submitted) + {jobId}
      ensures futures == if jobId !in old(submitted) && accepts then old(futures) + [jobId] else old(futures)
      ensures raised == (jobId !in old(submitted) && !accepts)
    {
      if jobId in submitted {
        return false;
      }
      submitted := submitted + {jobId};
      if !accepts {
        return true;
      }
      futures := futures + [jobId];
      raised := false;
    }

    method ReleaseJob(jobId: string)
      modifies this`submitted
      ensures submitted == old(submitted) - {jobId}
    {
      submitted := submitted - {jobId};
    }

    /** A direct call, or the run of an in-process future: whoever claimed the job, it is released. */
    method ProcessJob(jobId: string, result: Option<bool>) returns (r: Option<bool>)
      modifies this`submitted
      ensures submitted == old(submitted) - {jobId} && r == result
    {
      r := result;
      ReleaseJob(jobId);
    }

    /** `result` says whether the run asks for a retry; it is None when the future raised. */
    method HandleSubmittedJobResult(jobId: string, result: Option<bool>, accepts: bool) returns (raised: bool)
      modifies this
      ensures submitted == if result == Some(true) then old(submitted) + {jobId} else old(submitted) - {jobId}
      ensures futures == if result == Some(true) && accepts then old(futures) + [jobId] else old(futures)
      ensures raised == (result == Some(true) && !accepts)
    {
      ReleaseJob(jobId);
      raised := false;
      if result == Some(true) {
        raised := SubmitJob(jobId, accepts);
      }
    }

    /** Stops at the first job that the executor refuses. */
    method RecoverActiveJobs(rows: seq<Job>, accepts: string -> bool) returns (raised: bool)
      modifies this
      ensures var ids := ToRecover(rows, old(submitted));
              && futures == old(futures) + Accepted(ids, accepts)
              && submitted == old(submitted) + Elements(Tried(ids, accepts))
              && raised == (|Accepted(ids, accepts)| < |ids|)
    {
      ghost var done: seq<string> := [];
      ghost var was := submitted;
      ghost var ids := ToRecover(rows, submitted);
      for i := 0 to |rows|
        invariant futures == old(futures) + done
        invariant submitted == was + Elements(done)
        invariant ids == done + ToRecover(rows[i..], was + Elements(done))
        invariant forall id :: id in done ==> accepts(id)
      {
        ghost var soFar := done;
        if rows[i].status in RECOVERED {
          var id := rows[i].jobId;
          ghost var isNew := id !in submitted;
          raised := SubmitJob(id, accepts(id));
          if raised {
            NextToRecover(rows, i, was, done, ids);
            AcceptedStops(done, id, ids, accepts);
            return;
          }
          if isNew {
            done := done + [id];
          }
          assert futures == old(futures) + done;
        }
        NextToRecover(rows, i, was, soFar, ids);
      }
      assert done + [] == done;
      AcceptedAll(done, accepts);
      raised := false;
    }
  }

  lemma {:induction false} AcceptedStops(done: seq<string>, id: string, ids: seq<string>, accepts: string -> bool)
    requires done + [id] <= ids && !accepts(id) && forall k :: k in done ==> accepts(k)
    ensures Accepted(ids, accepts) == done && Tried(ids, accepts) == done + [id] && |done| < |ids|
  {
    if done != [] {
      assert ids[0] == done[0] && done[1..] + [id] <= ids[1..];
      AcceptedStops(done[1..], id, ids[1..], accepts);
    }
  }

  lemma {:induction false} AcceptedAll(done: seq<string>, accepts: string -> bool)
    requires forall k :: k in done ==> accepts(k)
    ensures Accepted(done, accepts) == done
  {
    if done != [] {
      AcceptedAll(done[1..], accepts);
    }
  }

  /** The executor takes the jobs up to the first that it refuses; that one is tried too. */
  lemma {:induction false} AcceptedLaw(ids: seq<string>, accepts: string -> bool)
    ensures var taken := Accepted(ids, accepts);
            && taken <= ids && (forall id :: id in taken ==> accepts(id))
            && (|taken| < |ids| ==> !accepts(ids[|taken|]))
            && Tried(ids, accepts) == ids[..Min(|taken| + 1, |ids|)]
  {
    if ids != [] && accepts(ids[0]) {
      AcceptedLaw(ids[1..], accepts);
      assert ids == [ids[0]] + ids[1..];
    }
  }

  /** What a restart takes up again: every status but the final ones and the two that no job of the pool has. */
  lemma RecoveredExactly(status: JobStatus)
    ensures status in RECOVERED <==> status !in {Pending, Running, JobCompleted, JobFailed}
  {
  }
}
