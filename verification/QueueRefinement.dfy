/**
 * The tombstone FIFO refines a plain queue with eager deletion.  In the plain
 * queue a removal deletes the id from the middle of the sequence at once, a
 * dequeue takes the front, and a retry goes to the end.  Of the tombstones only
 * the number of occupied slots remains, which decides what an enqueue is told.
 */
module QueueRefinement {
  import opened Wrappers
  import opened Sequences
  import opened DispatchQueue
  import opened QueueLaws
  import opened QueueWorkers

  /** `tried` counts how often each id has been dequeued, `slots` the ids in the FIFO, dead or alive. */
  datatype Eager = Eager(
    pending: seq<string>,
    index: map<string, string>,
    held: seq<seq<string>>,
    slots: nat,
    tried: multiset<string>)

  function HeldIds(held: seq<seq<Item>>): seq<seq<string>> {
    seq(|held|, a requires 0 <= a < |held| => Ids(held[a]))
  }

  function Abs(w: World): Eager {
    Eager(PendingOf(w.q), w.q.jobIndex, HeldIds(w.held), |w.q.fifo|, w.dequeues)
  }

  /** any(item.attempts <= max_retries for item in batch) */
  predicate AnyLeft(ids: seq<string>, tried: multiset<string>, maxRetries: nat) {
    exists i :: 0 <= i < |ids| && tried[ids[i]] <= maxRetries
  }

  /**
   * A step of the plain queue.  All of it is determined but the slots that a
   * dequeue frees: one for each id taken, and those of the removed ids it passes.
   */
  ghost predicate EagerNext(e: Eager, step: Step, e': Eager, limits: Limits, maxRetries: nat) {
    match step
    case EnqueueStep(jobId, payload, queueId) =>
      e' == if TooLarge(limits, payload) || jobId in e.index || limits.maxSize <= e.slots then e
            else e.(pending := e.pending + [queueId], index := e.index[jobId := queueId], slots := e.slots + 1)
    case RemoveStep(jobId) =>
      e' == if jobId in e.index
            then e.(pending := Without(e.pending, e.index[jobId]), index := e.index - {jobId})
            else e
    case DequeueStep(a, maxItems) =>
      && a < |e.held| && e.held[a] == []
      && var m := Min(|e.pending|, if maxItems == None || maxItems == Some(0) then limits.maxBulkSize
                                   else Max(Min(maxItems.value, limits.maxBulkSize), 0));
         && e' == e.(pending := e.pending[m..], held := e.held[a := e.pending[..m]],
                     tried := e.tried + multiset(e.pending[..m]), slots := e'.slots)
         && |e'.pending| <= e'.slots <= e.slots - m
    case CompleteStep(a, ids) =>
      && a < |e.held|
      && e' == e.(held := e.held[a := Outside(e.held[a], ids)])
    case FailStep(a, _) =>
      && a < |e.held|
      && e' == if AnyLeft(e.held[a], e.tried, maxRetries)
               then e.(pending := e.pending + e.held[a], held := e.held[a := []], slots := e.slots + |e.held[a]|)
               else e.(held := e.held[a := []])
  }

  lemma HeldIdsUpdate(held: seq<seq<Item>>, a: nat, batch: seq<Item>)
    requires a < |held|
    ensures HeldIds(held[a := batch]) == HeldIds(held)[a := Ids(batch)]
  {
  }

  lemma EnqueueRefines(w: World, step: Step, w': World, maxRetries: nat)
    requires Inv(w, maxRetries) && step.EnqueueStep? && Next(w, step, w', maxRetries)
    ensures EagerNext(Abs(w), step, Abs(w'), w.q.limits, maxRetries)
  {
    if w'.q != w.q {
      var id := step.queueId;
      PendingAppend(w.q.fifo, id, w'.q.items);
      PendingFrame(w.q.fifo, w.q.items, w'.q.items);
    }
  }

  lemma RemoveRefines(w: World, step: Step, w': World, maxRetries: nat)
    requires Inv(w, maxRetries) && step.RemoveStep? && Next(w, step, w', maxRetries)
    ensures EagerNext(Abs(w), step, Abs(w'), w.q.limits, maxRetries)
  {
    if step.jobId in w.q.jobIndex {
      PendingDrop(w.q.fifo, w.q.items, w.q.jobIndex[step.jobId]);
    }
  }

  /** What a dequeue does to the pending sequence and to the slots. */
  lemma TakenPending(q: Queue, maxItems: Option<int>)
    requires WellFormed(q) && ValidLimits(q.limits)
    ensures var (after, batch) := Take(q, BatchLimit(q.limits, maxItems));
            var m := Min(|PendingOf(q)|, if maxItems == None || maxItems == Some(0) then q.limits.maxBulkSize
                                         else Max(Min(maxItems.value, q.limits.maxBulkSize), 0));
            && Ids(batch) == PendingOf(q)[..m] && PendingOf(after) == PendingOf(q)[m..]
            && after.jobIndex == q.jobIndex
            && |PendingOf(after)| <= |after.fifo| <= |q.fifo| - m
  {
    var limit := BatchLimit(q.limits, maxItems);
    TakeLaw(q, limit);
    PendingSize(Take(q, limit).0.fifo, Take(q, limit).0.items);
    hide Take, WellFormed, Pending;
    assert |Ids(Take(q, limit).1)| == Reach(q, limit);
  }

  lemma DequeueRefines(w: World, step: Step, w': World, maxRetries: nat)
    requires Inv(w, maxRetries) && step.DequeueStep? && Next(w, step, w', maxRetries)
    ensures EagerNext(Abs(w), step, Abs(w'), w.q.limits, maxRetries)
  {
    TakenPending(w.q, step.maxItems);
    hide Take, WellFormed, PendingOf, HeldInv, TableInv, BatchLimit;
    HeldIdsUpdate(w.held, step.worker, w'.held[step.worker]);
    assert Ids(w.held[step.worker]) == [];
  }

  /** Settled ids are not in the FIFO, so their table entries do not show in the pending sequence. */
  lemma SettledPending(w: World, a: nat, items: map<string, Item>, maxRetries: nat)
    requires Inv(w, maxRetries) && a < |w.held|
    requires forall id :: id in w.q.fifo && id !in Ids(w.held[a]) ==> (Live(w.q.items, id) <==> Live(items, id))
    ensures Pending(w.q.fifo, items) == PendingOf(w.q)
  {
    forall id | id in w.q.fifo ensures Live(w.q.items, id) <==> Live(items, id) {
      assert id in Ids(w.held[a]) ==> Holds(w.held, a, id);
    }
    PendingFrame(w.q.fifo, items, w.q.items);
  }

  lemma CompleteRefines(w: World, step: Step, w': World, maxRetries: nat)
    requires Inv(w, maxRetries) && step.CompleteStep? && Next(w, step, w', maxRetries)
    ensures EagerNext(Abs(w), step, Abs(w'), w.q.limits, maxRetries)
  {
    var a := step.worker;
    CompleteSettles(w, a, step.ids, w', maxRetries);
    SettledPending(w, a, w'.q.items, maxRetries);
    HeldIdsUpdate(w.held, a, w'.held[a]);
    KeptIds(w.held[a], step.ids);
  }

  /** What a failed batch does to the pending sequence: its ids go to the end, or nothing shows. */
  lemma FailedPending(w: World, step: Step, w': World, maxRetries: nat)
    requires Inv(w, maxRetries) && step.FailStep? && Next(w, step, w', maxRetries) && !w'.stuck
    ensures var back := if ShouldRetry(w.held[step.worker], maxRetries) then Ids(w.held[step.worker]) else [];
            && w'.q.fifo == w.q.fifo + back && w'.q.jobIndex == w.q.jobIndex
            && PendingOf(w'.q) == PendingOf(w.q) + back
  {
    var batch := w.held[step.worker];
    var retry := ShouldRetry(batch, maxRetries);
    FailedReturns(w.q, batch, step.error, retry);
    FailedLaw(w.q, batch, step.error, retry);
    SettledPending(w, step.worker, w'.q.items, maxRetries);
    if retry {
      forall id | id in Ids(batch) ensures Live(w'.q.items, id) {
        var i :| 0 <= i < |batch| && Ids(batch)[i] == id;
        assert w'.q.items[batch[i].queueId] == Failure(batch[i], step.error, retry);
      }
      PendingAppendAll(w.q.fifo, Ids(batch), w'.q.items);
    } else {
      assert w.q.fifo + [] == w.q.fifo;
    }
  }

  lemma FailRefines(w: World, step: Step, w': World, maxRetries: nat)
    requires Inv(w, maxRetries) && step.FailStep? && Next(w, step, w', maxRetries) && !w'.stuck
    ensures EagerNext(Abs(w), step, Abs(w'), w.q.limits, maxRetries)
  {
    FailedPending(w, step, w', maxRetries);
    hide WellFormed, PendingOf, HeldInv, AfterFailed;
    HeldIdsUpdate(w.held, step.worker, []);
    assert Ids([]) == [];
  }

  /** Every step of the real queue is a step of the plain one. */
  lemma StepRefines(w: World, step: Step, w': World, maxRetries: nat)
    requires Inv(w, maxRetries) && Next(w, step, w', maxRetries) && !w'.stuck
    ensures EagerNext(Abs(w), step, Abs(w'), w.q.limits, maxRetries)
  {
    match step
    case EnqueueStep(_, _, _) => EnqueueRefines(w, step, w', maxRetries);
    case RemoveStep(_) => RemoveRefines(w, step, w', maxRetries);
    case DequeueStep(_, _) => DequeueRefines(w, step, w', maxRetries);
    case CompleteStep(_, _) => CompleteRefines(w, step, w', maxRetries);
    case FailStep(_, _) => FailRefines(w, step, w', maxRetries);
  }

  /** Hence every run of the real queue is a run of the plain one. */
  lemma RunRefines(worlds: seq<World>, steps: seq<Step>, maxRetries: nat, n: nat)
    requires Run(worlds, steps, maxRetries) && n < |steps| && !worlds[n + 1].stuck
    ensures EagerNext(Abs(worlds[n]), steps[n], Abs(worlds[n + 1]), worlds[n].q.limits, maxRetries)
    ensures Distinct(Abs(worlds[n]).pending)
  {
    assert Next(worlds[n], steps[n], worlds[n + 1], maxRetries);
    RunInv(worlds, steps, maxRetries, n);
    PendingDistinct(worlds[n].q.fifo, worlds[n].q.items);
    StepRefines(worlds[n], steps[n], worlds[n + 1], maxRetries);
  }

  /**
   * What the refinement does not hide: a tombstone still takes up a slot.
   * Removing a queued job from a full queue shortens the pending sequence, and
   * the next new job is refused all the same.
   */
  lemma RemovalFreesNoSlot(q: Queue, jobId: string, other: string, payload: Payload, queueId: string)
    requires WellFormed(q) && |q.fifo| == q.limits.maxSize
    requires jobId in q.jobIndex && q.items[q.jobIndex[jobId]].status == Queued
    requires other !in q.jobIndex && !TooLarge(q.limits, payload)
    ensures var removed := AfterRemove(q, jobId);
            && |PendingOf(removed)| == |PendingOf(q)| - 1
            && AfterEnqueue(removed, other, payload, queueId) == (removed, Err(QueueFull))
  {
    var id := q.jobIndex[jobId];
    PendingMember(q.fifo, q.items, id);
    PendingDistinct(q.fifo, q.items);
    PendingDrop(q.fifo, q.items, id);
    var k :| 0 <= k < |PendingOf(q)| && PendingOf(q)[k] == id;
    WithoutMiddle(PendingOf(q), k);
  }
}
