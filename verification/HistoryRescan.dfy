/** The history rescan: a canary and then batch after batch of the manifest, each submitted in chunks,
    awaited and reconciled, with a checkpoint saved on the way. A crash loses the state in memory and resumes
    from the saved one; every call to the database and every save may fail, which ends the run. */
module HistoryRescan {
  import opened Options
  import opened RescanQueue
  import opened Text

  function Min(a: nat, b: nat): nat { if a < b then a else b }

  function BatchCount(total: nat, size: nat): nat {
    if total == 0 || size == 0 then 0 else (total + size - 1) / size
  }

  function BatchStart(total: nat, size: nat, index: nat): nat { Min(index * size, total) }

  function BatchEnd(total: nat, size: nat, index: nat): nat { Min(BatchStart(total, size, index) + size, total) }

  lemma {:induction false} BatchesFollow(total: nat, size: nat, index: nat)
    requires size > 0
    ensures BatchStart(total, size, 0) == 0
    ensures BatchEnd(total, size, index) == BatchStart(total, size, index + 1)
    ensures index < BatchCount(total, size) <==> BatchStart(total, size, index) < BatchEnd(total, size, index)
    ensures index >= BatchCount(total, size) ==> BatchStart(total, size, index) == total
  {
    assert (index + 1) * size == index * size + size;
    CountCovers(total, size, index);
  }

  lemma {:induction false} CountCovers(total: nat, size: nat, index: nat)
    requires size > 0
    ensures index < BatchCount(total, size) <==> index * size < total
  {
    if total > 0 {
      var n := total + size - 1;
      var q := n / size;
      assert q * size <= n < q * size + size;
      if index < q { Multiplied(index + 1, q, size); } else { Multiplied(q, index, size); }
    }
  }

  lemma {:induction false} Multiplied(a: nat, b: nat, size: nat)
    requires a <= b
    ensures a * size <= b * size
  {}

  /** Every position of the manifest is in exactly one batch. */
  lemma {:induction false} BatchesTile(total: nat, size: nat, i: nat, index: nat)
    requires size > 0 && i < total
    ensures i / size < BatchCount(total, size)
    ensures BatchStart(total, size, index) <= i < BatchEnd(total, size, index) <==> index == i / size
  {
    var q := i / size;
    assert q * size <= i < q * size + size;
    CountCovers(total, size, q);
    BatchHolds(total, size, q, i, index);
  }

  lemma {:induction false} BatchHolds(total: nat, size: nat, q: nat, i: nat, index: nat)
    requires q * size <= i < q * size + size && i < total
    ensures BatchStart(total, size, index) <= i < BatchEnd(total, size, index) <==> index == q
  {
    assert (index + 1) * size == index * size + size && (q + 1) * size == q * size + size;
    if index < q { Multiplied(index + 1, q, size); } else if q < index { Multiplied(q + 1, index, size); }
  }

  // ---------------------------------------------------------------- checkpoints

  datatype Stage = CanarySubmit | CanaryWait | BatchSubmit | BatchWait | Done

  datatype Checkpoint = Checkpoint(
    candidates: nat, batchSize: nat, canarySize: nat,
    batchIndex: nat, stage: Stage,
    submitOffset: nat, submitted: nat, skipped: nat,
    reconcilePass: nat, auditedBatch: nat,
    succeeded: nat, failed: nat, changed: nat)

  function Start(c: Checkpoint): nat { BatchStart(c.candidates, c.batchSize, c.batchIndex) }

  function Length(c: Checkpoint): (n: nat) {
    BatchEnd(c.candidates, c.batchSize, c.batchIndex) - BatchStart(c.candidates, c.batchSize, c.batchIndex)
  }

  function Canary(c: Checkpoint): nat { Min(c.canarySize, Length(c)) }

  /** How far the present batch is submitted at each stage. */
  predicate Reached(c: Checkpoint) {
    && c.submitted + c.skipped == c.submitOffset
    && (c.submitOffset > 0 ==> c.auditedBatch == c.batchIndex + 1)
    && match c.stage
       case CanarySubmit => c.batchIndex == 0 && c.submitOffset <= Canary(c)
       case CanaryWait => c.batchIndex == 0 && c.submitOffset == Canary(c)
       case BatchSubmit => c.submitOffset <= Length(c)
       case BatchWait => c.submitOffset == Length(c)
       case Done => c.submitOffset == 0
  }

  /** Every candidate of the finished batches is accounted for exactly once. */
  predicate Ledger(c: Checkpoint) {
    && 1 <= c.batchSize && c.canarySize <= c.batchSize
    && c.succeeded + c.failed + c.changed == Start(c)
    && c.reconcilePass <= 2 && c.auditedBatch <= c.batchIndex + 1
    && Reached(c)
    && (c.stage.Done? <==> c.batchIndex >= BatchCount(c.candidates, c.batchSize))
  }

  function Rank(s: Stage): nat {
    match s case CanarySubmit => 0 case CanaryWait => 1 case BatchSubmit => 2 case BatchWait => 3 case Done => 4
  }

  /** The work recorded in a is also recorded in b. */
  predicate UpTo(a: Checkpoint, b: Checkpoint) {
    && a.candidates == b.candidates && a.batchSize == b.batchSize && a.canarySize == b.canarySize
    && a.batchIndex <= b.batchIndex && a.auditedBatch <= b.auditedBatch
    && a.succeeded <= b.succeeded && a.failed <= b.failed && a.changed <= b.changed
    && (a.batchIndex == b.batchIndex ==>
          && Rank(a.stage) <= Rank(b.stage) && a.submitOffset <= b.submitOffset
          && a.submitted <= b.submitted && a.skipped <= b.skipped
          && a.succeeded == b.succeeded && a.failed == b.failed && a.changed == b.changed)
  }

  function Fresh(candidates: nat, batchSize: nat, canarySize: nat): Checkpoint {
    Checkpoint(candidates, batchSize, canarySize, 0,
      if candidates == 0 then Done else if canarySize > 0 then CanarySubmit else BatchSubmit,
      0, 0, 0, 0, 0, 0, 0, 0)
  }

  function NextBatch(c: Checkpoint, r: Reconciliation): Checkpoint {
    c.(succeeded := c.succeeded + r.succeeded, failed := c.failed + r.failed, changed := c.changed + r.changed,
    batchIndex := c.batchIndex + 1, submitOffset := 0, submitted := 0, skipped := 0, reconcilePass := 0,
    stage := if c.batchIndex + 1 >= BatchCount(c.candidates, c.batchSize) then Done else BatchSubmit)
  }

  lemma {:induction false} FreshIsSound(candidates: nat, batchSize: nat, canarySize: nat)
    requires 1 <= batchSize && canarySize <= batchSize
    ensures Ledger(Fresh(candidates, batchSize, canarySize))
  {
    BatchesFollow(candidates, batchSize, 0);
  }

  lemma {:induction false} NextBatchIsSound(c: Checkpoint, r: Reconciliation)
    requires Ledger(c) && c.stage.BatchWait? && r.succeeded + r.failed + r.changed == Length(c)
    ensures Ledger(NextBatch(c, r)) && UpTo(c, NextBatch(c, r))
    ensures NextBatch(c, r).batchIndex == c.batchIndex + 1 && NextBatch(c, r).candidates == c.candidates
  {
    BatchesFollow(c.candidates, c.batchSize, c.batchIndex);
    BatchesFollow(c.candidates, c.batchSize, c.batchIndex + 1);
  }

  /** Moving on from one state to the next keeps everything that was recorded, and what was saved. */
  lemma {:induction false} MovesOn(first: Checkpoint, saved: Option<Checkpoint>, before: Checkpoint, after: Checkpoint)
    requires (first == before || UpTo(first, before)) && (saved.Some? ==> UpTo(saved.value, before)) &&
             UpTo(before, after)
    ensures UpTo(first, after) && (saved.Some? ==> UpTo(saved.value, after)) && UpTo(after, after)
  {}

  lemma {:induction false} BothFollow(first: Checkpoint, before: Checkpoint, state: Checkpoint, saved: Checkpoint)
    requires UpTo(first, before) && UpTo(before, state) && UpTo(before, saved)
    ensures UpTo(first, state) && UpTo(first, saved)
  {}

  lemma {:induction false} UpToItself(c: Checkpoint)
    ensures UpTo(c, c)
  {}

  lemma {:induction false} AuditIsSound(c: Checkpoint)
    requires Ledger(c)
    ensures var d := c.(auditedBatch := c.batchIndex + 1); Ledger(d) && UpTo(c, d)
  {}

  /** One more chunk: what it accounts for and what it skips make up its length. */
  lemma {:induction false} ChunkIsSound(c: Checkpoint, end: nat, accounted: nat, limit: nat)
    requires Ledger(c) && c.auditedBatch == c.batchIndex + 1
    requires (c.stage.CanarySubmit? && limit == Canary(c)) || (c.stage.BatchSubmit? && limit == Length(c))
    requires c.submitOffset <= end <= limit && accounted <= end - c.submitOffset
    ensures var d := c.(submitted := c.submitted + accounted, skipped := c.skipped + end - c.submitOffset - accounted,
            submitOffset := end);
            Ledger(d) && UpTo(c, d)
  {
    hide BatchStart, BatchEnd;
  }

  lemma {:induction false} PassIsSound(c: Checkpoint, pass: nat)
    requires Ledger(c) && pass <= 2
    ensures Ledger(c.(reconcilePass := pass)) && UpTo(c, c.(reconcilePass := pass))
  {}

  /** Submission over, canary or batch; and the canary passed. */
  lemma {:induction false} StageIsSound(c: Checkpoint, next: Stage)
    requires Ledger(c)
    requires || (c.stage.CanarySubmit? && c.submitOffset == Canary(c) && next.CanaryWait?)
             || (c.stage.BatchSubmit? && c.submitOffset == Length(c) && next.BatchWait?)
             || (c.stage.CanaryWait? && next.BatchSubmit?)
    ensures var d := c.(stage := next, reconcilePass := 0); Ledger(d) && UpTo(c, d)
    ensures c.stage.CanaryWait? ==> c.submitOffset == Canary(c)
  {
    hide BatchStart, BatchEnd;
  }

  /** When the run is done, every candidate succeeded, failed or changed, and was counted once. */
  lemma {:induction false} DoneIsComplete(c: Checkpoint)
    requires Ledger(c) && c.stage.Done?
    ensures c.succeeded + c.failed + c.changed == c.candidates
  {
    BatchesFollow(c.candidates, c.batchSize, c.batchIndex);
  }

  /** While the canary is out, no more than its size of the first batch is submitted, and when it is awaited, just that
      much, or the whole batch if that is smaller. */
  lemma {:induction false} CanaryIs(c: Checkpoint)
    requires Ledger(c) && (c.stage.CanarySubmit? || c.stage.CanaryWait?)
    ensures c.batchIndex == 0 && c.submitOffset <= c.canarySize && c.submitOffset <= c.candidates
    ensures c.stage.CanaryWait? && c.canarySize <= c.candidates ==> c.submitOffset == c.canarySize
    ensures c.stage.CanaryWait? && c.canarySize > c.candidates ==> c.submitOffset == c.candidates
  {
    assert 0 * c.batchSize == 0;
  }

  lemma {:induction false} LedgerBounds(c: Checkpoint)
    requires Ledger(c)
    ensures c.auditedBatch <= c.batchIndex + 1 && c.reconcilePass <= 2
    ensures c.stage.CanarySubmit? ==> c.submitOffset <= Canary(c)
    ensures c.stage.CanaryWait? ==> c.submitOffset == Canary(c)
    ensures c.stage.BatchSubmit? ==> c.submitOffset <= Length(c)
  {
    hide BatchStart, BatchEnd;
  }

  /** While the run is not done there is a batch to work on. */
  lemma {:induction false} MoreToDo(c: Checkpoint)
    requires Ledger(c) && !c.stage.Done?
    ensures Start(c) < Start(c) + Length(c) == BatchEnd(c.candidates, c.batchSize, c.batchIndex) <= c.candidates
    ensures Canary(c) <= Length(c)
  {
    BatchesFollow(c.candidates, c.batchSize, c.batchIndex);
  }

  // ---------------------------------------------------------------- what has been submitted

  /** The positions of the manifest before this one are submitted. */
  function Known(c: Checkpoint): nat { Start(c) + c.submitOffset }

  /** No position from this one on may have been submitted yet: not past a canary that did not pass, and not
      past the present batch. */
  function Bound(c: Checkpoint): nat {
    if c.stage.CanarySubmit? || c.stage.CanaryWait? then Start(c) + Canary(c) else Start(c) + Length(c)
  }

  function Prefix(ids: seq<nat>, n: nat): set<nat> { Elements(ids[..Min(n, |ids|)]) }

  ghost predicate Sent(ids: seq<nat>, sent: set<nat>, c: Checkpoint) {
    Prefix(ids, Known(c)) <= sent <= Prefix(ids, Bound(c))
  }

  lemma {:induction false} PrefixGrows(ids: seq<nat>, m: nat, n: nat)
    requires m <= n
    ensures Prefix(ids, m) <= Prefix(ids, n)
  {
    forall id | id in Prefix(ids, m) ensures id in Prefix(ids, n) {
      var i :| 0 <= i < Min(m, |ids|) && ids[i] == id;
      assert ids[..Min(n, |ids|)][i] == id;
    }
  }

  lemma {:induction false} SentStill(ids: seq<nat>, sent: set<nat>, c: Checkpoint, d: Checkpoint)
    requires Sent(ids, sent, c) && Known(d) <= Known(c) && Bound(c) <= Bound(d)
    ensures Sent(ids, sent, d)
  {
    hide Known, Bound, Prefix;
    PrefixGrows(ids, Known(d), Known(c));
    PrefixGrows(ids, Bound(c), Bound(d));
  }

  /** Submitting positions from Known on, but none from Bound on. */
  lemma {:induction false} SentChunk(ids: seq<nat>, sent: set<nat>, c: Checkpoint, to: nat)
    requires Sent(ids, sent, c) && Known(c) <= to <= Bound(c) && to <= |ids|
    ensures Sent(ids, sent + Elements(ids[Known(c)..to]), c) && Prefix(ids, to) <= sent + Elements(ids[Known(c)..to])
  {
    hide Known, Bound;
    PrefixGrows(ids, to, Bound(c));
    assert ids[..to] == ids[..Known(c)] + ids[Known(c)..to];
    assert Prefix(ids, to) == Prefix(ids, Known(c)) + Elements(ids[Known(c)..to]);
  }

  lemma {:induction false} SentUpTo(ids: seq<nat>, sent: set<nat>, c: Checkpoint, d: Checkpoint)
    requires Sent(ids, sent, c) && Prefix(ids, Known(d)) <= sent && Bound(c) == Bound(d)
    ensures Sent(ids, sent, d)
  {}

  lemma {:induction false} ChunkOf(ids: seq<nat>, start: nat, length: nat, from: nat, to: nat)
    requires start + length <= |ids| && from <= to <= length
    ensures ids[start..start + length][from..to] == ids[start + from..start + to]
  {
    var part, whole := ids[start..start + length][from..to], ids[start + from..start + to];
    assert forall i :: 0 <= i < |whole| ==> part[i] == ids[start + (from + i)] == whole[i];
  }

  lemma {:induction false} SentAgain(ids: seq<nat>, sent: set<nat>, c: Checkpoint, more: set<nat>)
    requires Sent(ids, sent, c) && more <= Prefix(ids, Bound(c))
    ensures Sent(ids, sent + more, c)
  {}

  lemma {:induction false} StageFollows(ids: seq<nat>, sent: set<nat>, first: Checkpoint, c: Checkpoint, next: Stage)
    requires Ledger(c) && UpTo(first, c) && Sent(ids, sent, c)
    requires || (c.stage.CanarySubmit? && c.submitOffset == Canary(c) && next.CanaryWait?)
             || (c.stage.BatchSubmit? && c.submitOffset == Length(c) && next.BatchWait?)
             || (c.stage.CanaryWait? && next.BatchSubmit?)
    ensures var d := c.(stage := next, reconcilePass := 0);
            Ledger(d) && UpTo(c, d) && UpTo(first, d) && Sent(ids, sent, d)
  {
    hide Ledger, UpTo, Sent, BatchStart, BatchEnd;
    var d := c.(stage := next, reconcilePass := 0);
    StageIsSound(c, next);
    MovesOn(first, None, c, d);
    SentStill(ids, sent, c, d);
  }

  lemma {:induction false} NextBatchIsSent(ids: seq<nat>, sent: set<nat>, c: Checkpoint, r: Reconciliation)
    requires Ledger(c) && c.stage.BatchWait? && Sent(ids, sent, c)
    ensures Sent(ids, sent, NextBatch(c, r))
  {
    hide Sent;
    BatchesFollow(c.candidates, c.batchSize, c.batchIndex);
    SentStill(ids, sent, c, NextBatch(c, r));
  }

  /** When the run is done, exactly the manifest was submitted. */
  lemma {:induction false} DoneIsSent(ids: seq<nat>, sent: set<nat>, c: Checkpoint)
    requires Ledger(c) && c.stage.Done? && c.candidates == |ids| && Sent(ids, sent, c)
    ensures sent == Elements(ids)
  {
    BatchesFollow(c.candidates, c.batchSize, c.batchIndex);
    assert ids[..|ids|] == ids;
  }

  lemma {:induction false} BatchWithin(ids: seq<nat>, c: Checkpoint, n: nat)
    requires Start(c) + Length(c) <= |ids| && n <= Length(c) && Start(c) + n <= Bound(c)
    ensures Elements(ids[Start(c)..Start(c) + Length(c)][..n]) <= Prefix(ids, Bound(c))
  {
    hide BatchStart, BatchEnd, Bound;
    PrefixGrows(ids, Start(c) + n, Bound(c));
    ChunkOf(ids, Start(c), Length(c), 0, n);
    assert ids[..Start(c) + n] == ids[..Start(c)] + ids[Start(c)..Start(c) + n];
    assert ids[Start(c)..Start(c) + Length(c)][..n] == ids[Start(c)..Start(c) + n];
  }

  // ---------------------------------------------------------------- the program

  /** What the queries of one turn read: task progress, and the chunk at each offset. */
  datatype Reads = Reads(progress: Database, chunk: View)

  datatype Wait = Failure | NotDone | Finished(result: Reconciliation)

  /** One start of the program. */
  datatype Launch = Launch(batchSize: nat, canarySize: nat, chunkSize: nat, restoreAbnormal: bool, turns: nat,
    queries: nat -> Reads)

  /** What the last reconciliation of a batch says about it. */
  ghost predicate Settled(view: View, ids: seq<nat>, chunkSize: nat, tag: string, r: Reconciliation)
    requires chunkSize > 0
  {
    && r.succeeded + r.failed + r.changed == |ids|
    && Tally(view, ids, 0, chunkSize, tag, Active) == 0
    && r.succeeded == Tally(view, ids, 0, chunkSize, tag, Succeeded)
    && r.changed == Tally(view, ids, 0, chunkSize, tag, Changed)
    && r.failed == Tally(view, ids, 0, chunkSize, tag, Failed) + Tally(view, ids, 0, chunkSize, tag, Retry)
  }

  function Tag(runID: string, index: nat): string {
    runID + "-b" + (if index + 1 < 10 then "0" else "") + Decimal(index + 1)
  }

  /** No two batches of a run share a tag, so none is taken for another. */
  lemma {:induction false} TagsDiffer(runID: string, i: nat, j: nat)
    requires Tag(runID, i) == Tag(runID, j)
    ensures i == j
  {
    hide Decimal;
    var n := |runID| + 2;
    var a, b := Tag(runID, i)[n..], Tag(runID, j)[n..];
    assert a == (if i + 1 < 10 then "0" else "") + Decimal(i + 1);
    assert b == (if j + 1 < 10 then "0" else "") + Decimal(j + 1);
    DecimalStarts(i + 1);
    DecimalStarts(j + 1);
    if i + 1 < 10 && j + 1 < 10 {
      assert a[1..] == Decimal(i + 1) && b[1..] == Decimal(j + 1);
    }
    if (i + 1 < 10) == (j + 1 < 10) { DecimalIsInjective(i + 1, j + 1); }
  }

  class Rescan {
    const ids: seq<nat>     // the manifest
    const runID: string
    var state: Checkpoint
    var saved: Option<Checkpoint>  // the checkpoint file
    ghost var sent: set<nat>       // every resource passed to a submission that may have been committed

    constructor (ids: seq<nat>, runID: string)
      ensures this.ids == ids && this.runID == runID && saved.None? && Durable()
    {
      this.ids, this.runID := ids, runID;
      state, saved, sent := Fresh(|ids|, 1, 0), None, {};
    }

    /** What a crash leaves behind. */
    ghost predicate Durable()
      reads this
    {
      && (saved.None? ==> sent == {})
      && (saved.Some? ==> Ledger(saved.value) && saved.value.candidates == |ids| && Sent(ids, sent, saved.value))
    }

    ghost predicate Inv()
      reads this
    {
      && Durable() && saved.Some? && UpTo(saved.value, state)
      && Ledger(state) && state.candidates == |ids| && Sent(ids, sent, state)
    }

    /** Replacing the checkpoint file is atomic. */
    method Save() returns (ok: bool)
      modifies this`saved
      ensures saved == if ok then Some(state) else old(saved)
    {
      ok := *;
      if ok { saved := Some(state); }
    }

    method SubmitRange(view: View, batch: seq<nat>, tag: string, limit: nat, chunkSize: nat, restoreAbnormal: bool)
      returns (ok: bool)
      requires Inv() && saved == Some(state) && chunkSize > 0 && state.auditedBatch == state.batchIndex + 1
      requires Start(state) + Length(state) <= |ids| && batch == ids[Start(state)..Start(state) + Length(state)]
      requires (state.stage.CanarySubmit? && limit == Canary(state)) ||
               (state.stage.BatchSubmit? && limit == Length(state))
      modifies this
      ensures Inv() && UpTo(old(state), state) && UpTo(old(state), saved.value)
      ensures state == old(state).(submitOffset := state.submitOffset, submitted := state.submitted,
              skipped := state.skipped)
      ensures ok ==> state.submitOffset == limit && saved == Some(state)
    {
      hide BatchStart, BatchEnd, Ledger, UpTo, Sent, Eligible, Queued, Elements, TaggedIn;
      UpToItself(state);
      LedgerBounds(state);
      while state.submitOffset < limit
        invariant Inv() && UpTo(old(state), state) && saved == Some(state)
        invariant state ==
                  old(state).(submitOffset := state.submitOffset, submitted := state.submitted,
                  skipped := state.skipped)
        invariant state.submitOffset <= limit
        decreases limit - state.submitOffset
      {
        var end := Min(state.submitOffset + chunkSize, limit);
        var chunk := batch[state.submitOffset..end];
        var submission := SubmitChunk(view(state.submitOffset), chunk, tag, false, restoreAbnormal);
        ChunkOf(ids, Start(state), Length(state), state.submitOffset, end);
        SentChunk(ids, sent, state, Start(state) + end);
        sent := sent + Elements(chunk);
        if submission.None? { return false; }
        var accounted := submission.value.accounted;
        var next := state.(submitted := state.submitted + accounted,
                           skipped := state.skipped + end - state.submitOffset - accounted,
                           submitOffset := end);
        ChunkIsSound(state, end, accounted, limit);
        MovesOn(old(state), saved, state, next);
        SentUpTo(ids, sent, state, next);
        state := next;
        var written := Save();
        if !written { return false; }
      }
      return true;
    }

    method WaitBatch(queries: Reads, batch: seq<nat>, tag: string, canary: bool, chunkSize: nat, restoreAbnormal: bool)
      returns (outcome: Wait)
      requires Inv() && saved == Some(state) && chunkSize > 0 && Elements(batch) <= Prefix(ids, Bound(state))
      modifies this
      ensures Inv() && UpTo(old(state), state) && UpTo(old(state), saved.value)
      ensures state == old(state).(reconcilePass := state.reconcilePass)
      ensures state.reconcilePass != old(state).reconcilePass ==>
                state.reconcilePass == old(state).reconcilePass + 1 &&
                  Tally(queries.chunk, batch, 0, chunkSize, tag, Retry) > 0
      ensures outcome.NotDone? ==> saved == Some(state)
      ensures outcome.Finished? ==>
        && state == old(state) && saved == old(saved) && Settled(queries.chunk, batch, chunkSize, tag, outcome.result)
        && (Tally(queries.chunk, batch, 0, chunkSize, tag, Retry) > 0 ==> state.reconcilePass == 2)
    {
      hide Tally, Ledger, UpTo, Sent, BatchStart, BatchEnd;
      LedgerBounds(state);
      UpToItself(state);
      var answered: bool := *;
      if !answered { return Failure; }
      var active := |set id | id in queries.progress.tasks && Tagged(queries.progress, id, tag) &&
        Busy(queries.progress, id)|;
      if active > 0 { return NotDone; }
      var reconciled := ReconcileBatch(queries.chunk, batch, tag, chunkSize);
      if reconciled.None? { return Failure; }
      var result := reconciled.value;
      if result.active > 0 { return NotDone; }
      if |result.retryIDs| > 0 && state.reconcilePass < 2 {
        var written := Resubmit(queries.chunk, result.retryIDs, tag, chunkSize, restoreAbnormal);
        return if written then NotDone else Failure;
      }
      if |result.retryIDs| > 0 {
        result := result.(failed := result.failed + |result.retryIDs|, retryIDs := []);
      }
      if canary && result.failed == 0 && result.changed == 0 && result.succeeded != |batch| {
        assert false;  // topping up the failures never happens: the counts add up to the batch
      }
      return Finished(result);
    }

    /** A pass that submits again what has no task, or one that may be tried again; at most two a batch. */
    method Resubmit(view: View, retryIDs: seq<nat>, tag: string, chunkSize: nat, restoreAbnormal: bool)
      returns (ok: bool)
      requires Inv() && saved == Some(state) && chunkSize > 0 && state.reconcilePass < 2
      requires Elements(retryIDs) <= Prefix(ids, Bound(state))
      modifies this
      ensures Inv() && UpTo(old(state), state) && UpTo(old(state), saved.value)
      ensures state == old(state).(reconcilePass := old(state).reconcilePass + 1)
      ensures ok ==> saved == Some(state) && Elements(retryIDs) <= sent
    {
      hide Ledger, UpTo, Sent, BatchStart, BatchEnd, Eligible, Queued, TaggedIn, Prefix;
      UpToItself(state);
      var next := state.(reconcilePass := state.reconcilePass + 1);
      PassIsSound(state, state.reconcilePass + 1);
      MovesOn(state, saved, state, next);
      SentStill(ids, sent, state, next);
      state := next;
      var start := 0;
      while start < |retryIDs|
        invariant state == next && saved == old(saved)
        invariant Sent(ids, sent, next) && Sent(ids, sent, old(state))
        invariant Elements(retryIDs[..Min(start, |retryIDs|)]) <= sent
      {
        var end := Min(start + chunkSize, |retryIDs|);
        var submission := SubmitChunk(view(start), retryIDs[start..end], tag, true, restoreAbnormal);
        assert retryIDs[..end] == retryIDs[..start] + retryIDs[start..end];
        SentAgain(ids, sent, old(state), Elements(retryIDs[start..end]));
        SentAgain(ids, sent, next, Elements(retryIDs[start..end]));
        sent := sent + Elements(retryIDs[start..end]);
        if submission.None? { return false; }
        start := start + chunkSize;
      }
      assert retryIDs[..|retryIDs|] == retryIDs;
      ok := Save();
    }

    /** The audit record of a batch is written, and that is saved, before any of it is submitted. */
    method AuditBatch() returns (ok: bool)
      requires Inv() && saved == Some(state)
      modifies this
      ensures Inv() && UpTo(old(state), state) && UpTo(old(state), saved.value)
      ensures state == old(state).(auditedBatch := state.auditedBatch)
      ensures ok ==> state.auditedBatch == state.batchIndex + 1 && saved == Some(state)
    {
      hide Ledger, UpTo, Sent, BatchStart, BatchEnd;
      LedgerBounds(state);
      UpToItself(state);
      if state.auditedBatch < state.batchIndex + 1 {
        var recorded: bool := *;
        if !recorded { return false; }
        AuditIsSound(state);
        MovesOn(state, saved, state, state.(auditedBatch := state.batchIndex + 1));
        SentStill(ids, sent, state, state.(auditedBatch := state.batchIndex + 1));
        state := state.(auditedBatch := state.batchIndex + 1);
        ok := Save();
        return;
      }
      return true;
    }

    /** Moving to the next stage, and saving that. */
    method Enter(next: Checkpoint) returns (ok: bool)
      requires Inv() && saved == Some(state)
      requires Ledger(next) && UpTo(state, next) && next.candidates == |ids| && Sent(ids, sent, next)
      modifies this
      ensures Inv() && state == next && UpTo(old(state), state) && UpTo(old(state), saved.value)
      ensures ok ==> saved == Some(state)
    {
      hide Ledger, UpTo, Sent;
      UpToItself(state);
      UpToItself(next);
      state := next;
      ok := Save();
    }

    /** A submitting stage, for the canary or for the batch, and the waiting one after it. */
    method SubmitStage(view: View, batch: seq<nat>, tag: string, limit: nat, wait: Stage, chunkSize: nat,
                       restoreAbnormal: bool)
      returns (ok: bool)
      requires Inv() && saved == Some(state) && chunkSize > 0 && state.auditedBatch == state.batchIndex + 1
      requires Start(state) + Length(state) <= |ids| && batch == ids[Start(state)..Start(state) + Length(state)]
      requires || (state.stage.CanarySubmit? && limit == Canary(state) && wait.CanaryWait?)
               || (state.stage.BatchSubmit? && limit == Length(state) && wait.BatchWait?)
      modifies this
      ensures Inv() && UpTo(old(state), state) && UpTo(old(state), saved.value)
      ensures state.batchIndex == old(state).batchIndex
      ensures ok ==> saved == Some(state) && state.stage == wait && state.submitOffset == limit
    {
      hide BatchStart, BatchEnd, Ledger, UpTo, Sent;
      ok := SubmitRange(view, batch, tag, limit, chunkSize, restoreAbnormal);
      if !ok { return; }
      StageFollows(ids, sent, old(state), state, wait);
      ghost var reached := state;
      ok := Enter(state.(stage := wait, reconcilePass := 0));
      BothFollow(old(state), reached, state, saved.value);
    }

    /** Waiting for the canary. It passes only when each of its resources was scanned under the tag of the batch and is
        normal. */
    method PassCanary(queries: Reads, batch: seq<nat>, tag: string, chunkSize: nat, restoreAbnormal: bool)
      returns (ok: bool)
      requires Inv() && saved == Some(state) && chunkSize > 0 && state.stage.CanaryWait?
      requires Start(state) + Length(state) <= |ids| && batch == ids[Start(state)..Start(state) + Length(state)]
      modifies this
      ensures Inv() && UpTo(old(state), state) && UpTo(old(state), saved.value)
      ensures ok ==> saved == Some(state)
      ensures state.stage == old(state).stage || state.stage == BatchSubmit
      ensures state.batchIndex == old(state).batchIndex
      ensures state.stage != old(state).stage ==>
        var c := old(state);
        && state.submitted == c.submitted && state.submitOffset == c.submitOffset
        && Tally(queries.chunk, batch[..Canary(c)], 0, chunkSize, tag, Succeeded) == Canary(c)
        && forall i :: 0 <= i < Canary(c) ==> SeenSettled(queries.chunk, batch[i], tag)
    {
      hide BatchStart, BatchEnd, Ledger, UpTo, Tally, Sent, Prefix, SeenSettled;
      LedgerBounds(state);
      UpToItself(state);
      var limit := Canary(state);
      BatchWithin(ids, state, limit);
      var outcome := WaitBatch(queries, batch[..limit], tag, true, chunkSize, restoreAbnormal);
      if !outcome.Finished? { return outcome.NotDone?; }
      var result := outcome.result;
      if result.failed > 0 || result.changed > 0 || result.succeeded != limit { return false; }
      AllInOrder(queries.chunk, batch[..limit], 0, chunkSize, tag);
      forall i | 0 <= i < limit ensures SeenSettled(queries.chunk, batch[i], tag) {
        assert batch[..limit][i] == batch[i];
      }
      StageFollows(ids, sent, old(state), state, BatchSubmit);
      ghost var reached := state;
      ok := Enter(state.(stage := BatchSubmit, submitOffset := limit, reconcilePass := 0));
      BothFollow(old(state), reached, state, saved.value);
    }

    /** Waiting for the batch, and adding its numbers to the totals. */
    method FinishBatch(queries: Reads, batch: seq<nat>, tag: string, chunkSize: nat, restoreAbnormal: bool)
      returns (ok: bool, ghost last: Option<Reconciliation>)
      requires Inv() && saved == Some(state) && chunkSize > 0 && state.stage.BatchWait?
      requires Start(state) + Length(state) <= |ids| && batch == ids[Start(state)..Start(state) + Length(state)]
      modifies this
      ensures Inv() && UpTo(old(state), state) && UpTo(old(state), saved.value)
      ensures ok ==> saved == Some(state)
      ensures state.batchIndex == old(state).batchIndex || last.Some?
      ensures state.batchIndex != old(state).batchIndex ==>
        var c, r := old(state), last.value;
        && state == NextBatch(c, r) && Settled(queries.chunk, batch, chunkSize, tag, r)
        && state.batchIndex == c.batchIndex + 1 && state.submitOffset == 0
        && state.succeeded == c.succeeded + r.succeeded && state.failed == c.failed + r.failed
        && state.changed == c.changed + r.changed
    {
      hide BatchStart, BatchEnd, Ledger, UpTo, Tally, Sent, Prefix;
      LedgerBounds(state);
      UpToItself(state);
      last := None;
      BatchWithin(ids, state, Length(state));
      assert batch[..Length(state)] == batch;
      var outcome := WaitBatch(queries, batch, tag, false, chunkSize, restoreAbnormal);
      if !outcome.Finished? { return outcome.NotDone?, None; }
      last := Some(outcome.result);
      NextBatchIsSound(state, outcome.result);
      NextBatchIsSent(ids, sent, state, outcome.result);
      MovesOn(old(state), None, state, NextBatch(state, outcome.result));
      ghost var reached := state;
      ok := Enter(NextBatch(state, outcome.result));
      BothFollow(old(state), reached, state, saved.value);
    }

    /** One turn of the loop. A canary only passes when every one of its resources succeeded, and a batch only
        ends with every one of its resources settled. */
    method Turn(queries: Reads, chunkSize: nat, restoreAbnormal: bool)
      returns (ok: bool, ghost last: Option<Reconciliation>)
      requires Inv() && saved == Some(state) && chunkSize > 0 && !state.stage.Done?
      modifies this
      ensures Inv() && UpTo(old(state), state) && UpTo(old(state), saved.value)
      ensures ok ==> saved == Some(state)
      ensures old(state).stage.CanaryWait? && state.stage != old(state).stage ==>
        var c := old(state);
        && state.stage.BatchSubmit? && state.submitted == c.submitted && state.submitOffset == c.submitOffset
        && Tally(queries.chunk, ids[Start(c)..Start(c) + Canary(c)], 0, chunkSize, Tag(runID, c.batchIndex),
             Succeeded) == Canary(c)
      ensures old(state).stage.CanaryWait? && state.stage != old(state).stage ==>
        var batch := ids[Start(old(state))..Start(old(state)) + Length(old(state))];
        forall i :: 0 <= i < |batch| && i < old(state).canarySize ==>
          SeenSettled(queries.chunk, batch[i], Tag(runID, old(state).batchIndex))
      ensures old(state).batchIndex < state.batchIndex ==>
        var c := old(state);
        && c.stage.BatchWait? && last.Some? && state.batchIndex == c.batchIndex + 1
        && state == NextBatch(c.(auditedBatch := c.batchIndex + 1), last.value)
        && Settled(queries.chunk, ids[Start(c)..Start(c) + Length(c)], chunkSize, Tag(runID, c.batchIndex), last.value)
        && state.succeeded == c.succeeded + last.value.succeeded && state.failed == c.failed + last.value.failed
        && state.changed == c.changed + last.value.changed
    {
      hide BatchStart, BatchEnd, Ledger, UpTo, NextBatch, Tag, Tally, Sent, Prefix, SeenSettled;
      MoreToDo(state);
      last := None;
      var start := Start(state);
      var batch := ids[start..start + Length(state)];
      var tag := Tag(runID, state.batchIndex);
      UpToItself(state);
      if |tag| > 64 { return false, None; }
      ok := AuditBatch();
      if !ok { return; }
      LedgerBounds(state);
      ghost var audited := state;
      match state.stage {
        case CanarySubmit =>
          ok := SubmitStage(queries.chunk, batch, tag, Canary(state), CanaryWait, chunkSize, restoreAbnormal);
        case CanaryWait =>
          ok := PassCanary(queries, batch, tag, chunkSize, restoreAbnormal);
          ghost var limit := Canary(audited);
          assert batch[..limit] == ids[start..start + limit];
        case BatchSubmit =>
          ok := SubmitStage(queries.chunk, batch, tag, |batch|, BatchWait, chunkSize, restoreAbnormal);
        case BatchWait =>
          ok, last := FinishBatch(queries, batch, tag, chunkSize, restoreAbnormal);
      }
      BothFollow(old(state), audited, state, saved.value);
    }

    /** The start of a run: whatever was in memory is gone. */
    method Open(launch: Launch) returns (ok: bool)
      requires Durable()
      modifies this
      ensures Durable() && (ok ==> Inv() && saved == Some(state) && launch.chunkSize > 0)
      ensures old(saved).Some? ==> saved == old(saved)
      ensures ok && old(saved).None? ==> state == Fresh(|ids|, launch.batchSize, launch.canarySize)
      ensures ok && old(saved).None? ==>
        && state.batchIndex == 0 && state.submitOffset == 0 && state.candidates == |ids|
        && state.batchSize == launch.batchSize && state.canarySize == launch.canarySize
        && (state.stage == CanarySubmit <==> launch.canarySize > 0 && |ids| > 0)
        && (state.stage == Done <==> |ids| == 0)
      ensures ok && old(saved).Some? ==> state == old(saved).value
    {
      hide Ledger, UpTo;
      if launch.batchSize < 1 || launch.batchSize > 100_000 || launch.canarySize > launch.batchSize
        || launch.chunkSize < 1 || launch.chunkSize > 5_000 { return false; }
      if saved.Some? {
        state := saved.value;
        UpToItself(state);
        return true;
      }
      state := Fresh(|ids|, launch.batchSize, launch.canarySize);
      FreshIsSound(|ids|, launch.batchSize, launch.canarySize);
      UpToItself(state);
      ok := Save();
    }

    /** One run, ended by a crash, by an error, or by finishing. Whatever happens, the checkpoint it leaves is
        sound and says no less than the one it found; a finished one accounts for every candidate, and exactly
        the manifest was submitted. */
    method Run(launch: Launch) returns (finished: bool)
      requires Durable()
      modifies this
      ensures Durable()
      ensures old(saved).Some? ==> saved.Some? && UpTo(old(saved).value, saved.value)
      ensures finished ==> saved.Some? && saved.value.stage.Done?
      ensures saved.Some? && saved.value.stage.Done? ==>
        && saved.value.succeeded + saved.value.failed + saved.value.changed == |ids|
        && sent == Elements(ids)
    {
      hide Ledger, UpTo, Sent;
      finished := RunTurns(launch);
      if saved.Some? && saved.value.stage.Done? {
        DoneIsComplete(saved.value);
        DoneIsSent(ids, sent, saved.value);
      }
    }

    method RunTurns(launch: Launch) returns (finished: bool)
      requires Durable()
      modifies this
      ensures Durable()
      ensures old(saved).Some? ==> saved.Some? && UpTo(old(saved).value, saved.value)
      ensures finished ==> saved.Some? && saved.value.stage.Done?
    {
      hide Ledger, UpTo, Fresh, NextBatch, Tally, Sent;
      if saved.Some? { UpToItself(saved.value); }
      var ok := Open(launch);
      if !ok { return false; }
      UpToItself(state);
      ghost var first := state;
      var t := 0;
      while !state.stage.Done? && t < launch.turns
        invariant Inv() && saved == Some(state) && UpTo(first, state)
      {
        ghost var before := state;
        ghost var last;
        ok, last := Turn(launch.queries(t), launch.chunkSize, launch.restoreAbnormal);
        BothFollow(first, before, state, saved.value);
        if !ok { return false; }
        t := t + 1;
      }
      if !state.stage.Done? { return false; }
      ok := Save();
      return ok;
    }
  }
}
