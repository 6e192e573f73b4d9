/** The database side of the history rescan: submitting a chunk of resources under a batch tag, and
    reconciling a batch with what became of its tasks. */
module RescanQueue {
  import opened Options

  /** Statuses of resources and of tasks; Other is any value the program does not name. */
  datatype Status = Pending | Processing | Normal | Abnormal | Identifying | Other

  datatype Task = Task(history: bool, status: Status, tag: string, generation: nat)

  datatype Resource = Resource(status: Status, forSale: bool, credentials: bool, version: nat)

  datatype Database = Database(resources: map<nat, Resource>, tasks: map<nat, Task>)

  datatype Submission = Submission(db: Database, accounted: nat, submitted: nat)

  datatype Verdict = Active | Succeeded | Failed | Changed | Retry

  datatype Reconciliation = Reconciliation(succeeded: nat, failed: nat, changed: nat, active: nat, retryIDs: seq<nat>)

  /** What the query for the chunk starting at an offset reads: others work on the tables meanwhile. */
  type View = nat -> Database

  function Elements(ids: seq<nat>): set<nat> { set id | id in ids }

  /** The resource has a history task of this batch. */
  predicate Tagged(db: Database, id: nat, tag: string) {
    id in db.tasks && db.tasks[id].history && db.tasks[id].tag == tag
  }

  predicate Busy(db: Database, id: nat) {
    id in db.tasks && (db.tasks[id].status.Pending? || db.tasks[id].status.Processing?)
  }

  function TaggedIn(db: Database, ids: set<nat>, tag: string): set<nat> { set id | id in ids && Tagged(db, id, tag) }

  predicate Accepts(r: Resource, allowIdentifying: bool, restoreAbnormal: bool) {
    if restoreAbnormal then ((r.status.Normal? || r.status.Abnormal?) && r.forSale) || r.status.Identifying?
    else (r.status.Normal? && r.forSale) || (allowIdentifying && r.status.Identifying?)
  }

  predicate CanSubmit(db: Database, id: nat, tag: string, allowIdentifying: bool, restoreAbnormal: bool) {
    && id in db.resources && Accepts(db.resources[id], allowIdentifying, restoreAbnormal)
    && db.resources[id].credentials
    && (allowIdentifying || !Tagged(db, id, tag))
    && !Busy(db, id)
  }

  function Eligible(db: Database, ids: set<nat>, tag: string, allowIdentifying: bool, restoreAbnormal: bool): set<nat> {
    set id | id in ids && CanSubmit(db, id, tag, allowIdentifying, restoreAbnormal)
  }

  /** Queueing makes each chosen resource identifying, advancing its version unless it already was, and
      gives it a pending task of this batch. */
  function Queued(db: Database, chosen: set<nat>, tag: string): Database {
    Database(
      map id | id in db.resources :: if id in chosen && !db.resources[id].status.Identifying?
                                     then db.resources[id].(status := Identifying,
                                       version := db.resources[id].version + 1)
                                     else db.resources[id],
      map id | id in db.tasks.Keys + chosen :: if id in chosen
                                               then Task(true, Pending, tag,
                                                 if id in db.tasks then db.tasks[id].generation + 1 else 1)
                                               else db.tasks[id])
  }

  /** Which resources a submission queues. One that retries also takes those still identifying, and those with a task
      of this batch; none takes one whose task is pending or processing. */
  lemma {:induction false} EligibleIff(db: Database, ids: set<nat>, tag: string, retry: bool, restore: bool, id: nat)
    ensures id in Eligible(db, ids, tag, retry, restore) <==>
            && id in ids && id in db.resources && db.resources[id].credentials
            && (if db.resources[id].status == Identifying then retry || restore
                else db.resources[id].forSale && (db.resources[id].status == Normal ||
                     (restore && db.resources[id].status == Abnormal)))
            && (id in db.tasks ==> db.tasks[id].status != Pending && db.tasks[id].status != Processing)
            && (retry || !(id in db.tasks && db.tasks[id].history && db.tasks[id].tag == tag))
  {}

  /** What queueing does to a resource and to its task. */
  lemma {:induction false} QueuedIs(db: Database, chosen: set<nat>, tag: string, id: nat)
    ensures var after := Queued(db, chosen, tag);
            && (id in after.resources <==> id in db.resources)
            && (id in db.resources && id !in chosen ==> after.resources[id] == db.resources[id])
            && (id in db.resources && id in chosen ==>
                  && after.resources[id].status == Identifying
                  && after.resources[id].version ==
                     db.resources[id].version + (if db.resources[id].status == Identifying then 0 else 1)
                  && after.resources[id].forSale == db.resources[id].forSale
                  && after.resources[id].credentials == db.resources[id].credentials)
            && (id in chosen ==> HasTask(after, id, tag, Pending))
            && (id in chosen ==>
                 after.tasks[id].generation == if id in db.tasks then db.tasks[id].generation + 1 else 1)
            && (id !in chosen ==> (id in after.tasks <==> id in db.tasks))
            && (id !in chosen && id in db.tasks ==> after.tasks[id] == db.tasks[id])
  {}

  // The two updates submitChunk makes to the resources.
  function VersionsAdvanced(resources: map<nat, Resource>, chosen: set<nat>, restoreAbnormal: bool): map<nat,
                            Resource> {
    map id | id in resources :: var r := resources[id];
      if id in chosen && (r.status.Normal? || (restoreAbnormal && r.status.Abnormal?)) then r.(version := r.version + 1)
      else r
  }

  function Marked(resources: map<nat, Resource>, chosen: set<nat>, restoreAbnormal: bool): map<nat, Resource> {
    map id | id in resources :: var r := resources[id];
      if id in chosen && (r.status.Normal? || (restoreAbnormal && r.status.Abnormal?)) && r.forSale
        then r.(status := Identifying) else r
  }

  // The insertion into the task table, or the update of the rows it finds there.
  function Tasked(tasks: map<nat, Task>, chosen: set<nat>, tag: string): map<nat, Task> {
    map id | id in tasks.Keys + chosen ::
      if id in chosen then Task(true, Pending, tag, if id in tasks then tasks[id].generation + 1 else 1)
      else tasks[id]
  }

  /** submitChunk; None is a failed transaction, of which the caller learns nothing more. */
  method SubmitChunk(db: Database, ids: seq<nat>, tag: string, allowIdentifying: bool, restoreAbnormal: bool)
    returns (result: Option<Submission>)
    ensures result.Some? ==>
      var chosen := Eligible(db, Elements(ids), tag, allowIdentifying, restoreAbnormal);
      && result.value.db == Queued(db, chosen, tag)
      && result.value.submitted == |chosen| <= result.value.accounted <= |ids|
      && (allowIdentifying ==> result.value.accounted == |chosen|)
      && (!allowIdentifying ==> result.value.accounted == |TaggedIn(result.value.db, Elements(ids), tag)|)
  {
    hide *;
    var begun: bool := *;
    if !begun { return None; }
    var accounted := 0;
    if !allowIdentifying { accounted := |TaggedIn(db, Elements(ids), tag)|; }
    var eligible := Eligible(db, Elements(ids), tag, allowIdentifying, restoreAbnormal);
    var after := db;
    if |eligible| > 0 {
      after := after.(resources := VersionsAdvanced(after.resources, eligible, restoreAbnormal));
      after := after.(resources := Marked(after.resources, eligible, restoreAbnormal));
      after := after.(tasks := Tasked(after.tasks, eligible, tag));
      accounted := accounted + |eligible|;
    }
    var committed: bool := *;
    if !committed { return None; }
    UpdatesQueue(db, Elements(ids), tag, allowIdentifying, restoreAbnormal);
    QueuedTags(db, Elements(ids), tag, allowIdentifying, restoreAbnormal);
    ElementsSize(ids);
    return Some(Submission(after, accounted, |eligible|));
  }

  lemma {:induction false} UpdatesQueue(db: Database, ids: set<nat>, tag: string, allow: bool, restore: bool)
    ensures var chosen := Eligible(db, ids, tag, allow, restore);
            && Marked(VersionsAdvanced(db.resources, chosen, restore), chosen, restore) ==
                 Queued(db, chosen, tag).resources
            && Tasked(db.tasks, chosen, tag) == Queued(db, chosen, tag).tasks
            && Queued(db, {}, tag) == db
  {
    hide Eligible, CanSubmit;
    EligibleStatus(db, ids, tag, allow, restore);
    var chosen := Eligible(db, ids, tag, allow, restore);
    assert Marked(VersionsAdvanced(db.resources, chosen, restore), chosen, restore) ==
      Queued(db, chosen, tag).resources;
    assert Queued(db, {}, tag).tasks == db.tasks;
  }

  lemma {:induction false} EligibleStatus(db: Database, ids: set<nat>, tag: string, allow: bool, restore: bool)
    ensures forall id :: id in Eligible(db, ids, tag, allow, restore) ==>
              && id in db.resources && Accepts(db.resources[id], allow, restore)
  {}

  lemma {:induction false} ElementsSize(ids: seq<nat>)
    ensures |Elements(ids)| <= |ids|
    ensures (forall i, j :: 0 <= i < j < |ids| ==> ids[i] != ids[j]) ==> |Elements(ids)| == |ids|
  {
    if ids != [] {
      ElementsSize(ids[1..]);
      assert Elements(ids) == {ids[0]} + Elements(ids[1..]);
    }
  }

  lemma {:induction false} SizeWithin(small: set<nat>, large: set<nat>)
    requires small <= large
    ensures |small| <= |large|
  {
    assert large == small + (large - small);
  }

  /** After queueing, the tagged resources are those tagged before and the chosen ones. */
  lemma {:induction false} QueuedTags(db: Database, ids: set<nat>, tag: string, allow: bool, restore: bool)
    ensures var chosen := Eligible(db, ids, tag, allow, restore);
            && TaggedIn(Queued(db, chosen, tag), ids, tag) == TaggedIn(db, ids, tag) + chosen
            && |chosen| <= |ids|
            && (!allow ==>
                 |TaggedIn(Queued(db, chosen, tag), ids, tag)| == |TaggedIn(db, ids, tag)| + |chosen| <= |ids|)
  {
    hide *;
    var chosen, before := Eligible(db, ids, tag, allow, restore), TaggedIn(db, ids, tag);
    EligibleWithin(db, ids, tag, allow, restore);
    TagsGrow(db, ids, chosen, tag);
    SizeWithin(chosen, ids);
    SizeWithin(before + chosen, ids);
  }

  lemma {:induction false} EligibleWithin(db: Database, ids: set<nat>, tag: string, allow: bool, restore: bool)
    ensures var chosen := Eligible(db, ids, tag, allow, restore);
            chosen <= ids && TaggedIn(db, ids, tag) <= ids && (!allow ==> chosen !! TaggedIn(db, ids, tag))
  {}

  lemma {:induction false} TagsGrow(db: Database, ids: set<nat>, chosen: set<nat>, tag: string)
    requires chosen <= ids
    ensures TaggedIn(Queued(db, chosen, tag), ids, tag) == TaggedIn(db, ids, tag) + chosen
  {}

  /** Whatever workers did to a task since, they left its kind and its tag. */
  ghost predicate Worked(before: Database, after: Database, tag: string) {
    forall id :: Tagged(before, id, tag) ==> Tagged(after, id, tag)
  }

  /** Repeating a submission under the same tag, at any later time, restarts no task and forgets none: a crash
      between the commit and the checkpoint is harmless. Right away it changes nothing at all. */
  lemma {:induction false} ResubmitIsHarmless(db: Database, later: Database, ids: set<nat>, tag: string, restore: bool)
    requires Worked(Queued(db, Eligible(db, ids, tag, false, restore), tag), later, tag)
    ensures var first := Queued(db, Eligible(db, ids, tag, false, restore), tag);
            var second := Queued(later, Eligible(later, ids, tag, false, restore), tag);
            && (forall id :: id in TaggedIn(first, ids, tag) ==> second.tasks[id] == later.tasks[id])
            && TaggedIn(first, ids, tag) <= TaggedIn(second, ids, tag)
            && (later == first ==> second == first)
  {
    var chosen := Eligible(db, ids, tag, false, restore);
    var first := Queued(db, chosen, tag);
    var again := Eligible(later, ids, tag, false, restore);
    assert again !! TaggedIn(first, ids, tag);
    if later == first {
      forall id | id in ids ensures id !in again {
        if id in chosen { assert Tagged(first, id, tag); }
        else if id in db.resources { assert first.resources[id] == db.resources[id]; }
      }
      assert again == {};
      assert Queued(first, {}, tag) == first;
    }
  }

  /** No submission, retry or not, touches a task that is pending or being worked on, or anything outside
      its chunk. */
  lemma {:induction false} BusyIsUntouched(db: Database, ids: set<nat>, tag: string, allow: bool, restore: bool,
                                           id: nat)
    ensures var after := Queued(db, Eligible(db, ids, tag, allow, restore), tag);
            (Busy(db, id) || id !in ids) ==>
              && (id in after.tasks <==> id in db.tasks) && (id in db.tasks ==> after.tasks[id] == db.tasks[id])
              && (id in after.resources <==> id in db.resources)
              && (id in db.resources ==> after.resources[id] == db.resources[id])
  {}

  // ---------------------------------------------------------------- reconciliation

  function Judge(db: Database, id: nat, tag: string): Verdict {
    if id !in db.resources then Changed
    else
      var r := db.resources[id];
      if Tagged(db, id, tag) then
        match db.tasks[id].status
        case Pending => Active
        case Processing => Active
        case Normal => if r.status.Normal? then Succeeded else Changed
        case Abnormal => if r.status.Identifying? && r.credentials then Retry else Failed
        case _ => Retry
      else if r.credentials && ((r.status.Normal? && r.forSale) || r.status.Identifying?) then Retry
      else Changed
  }

  /** The history task of this tag, if the resource has one. */
  predicate HasTask(db: Database, id: nat, tag: string, status: Status) {
    id in db.tasks && db.tasks[id].history && db.tasks[id].tag == tag && db.tasks[id].status == status
  }

  /** The verdicts, by the task and the resource: a success is a normal resource with a normal task of this tag, a
      failure an abnormal task whose resource cannot be tried again, and only a pending or processing task is active.
      Tried again is what waits for a scan without a task of this tag, or with one that ended otherwise. */
  lemma {:induction false} VerdictsAre(db: Database, id: nat, tag: string)
    ensures var there := id in db.resources;
            var mine := id in db.tasks && db.tasks[id].history && db.tasks[id].tag == tag;
            && (Judge(db, id, tag) == Succeeded <==>
                  there && HasTask(db, id, tag, Normal) && db.resources[id].status == Normal)
            && (Judge(db, id, tag) == Failed <==>
                  there && HasTask(db, id, tag, Abnormal)
                  && !(db.resources[id].status == Identifying && db.resources[id].credentials))
            && (Judge(db, id, tag) == Active <==>
                  there && (HasTask(db, id, tag, Pending) || HasTask(db, id, tag, Processing)))
            && (Judge(db, id, tag) == Retry <==>
                  && there
                  && if mine then
                       || HasTask(db, id, tag, Identifying) || HasTask(db, id, tag, Other)
                       || (HasTask(db, id, tag, Abnormal) && db.resources[id].status == Identifying
                           && db.resources[id].credentials)
                     else
                       && db.resources[id].credentials
                       && ((db.resources[id].status == Normal && db.resources[id].forSale)
                           || db.resources[id].status == Identifying))
  {}

  /** The ids of the set that were scanned under this tag and are in order. */
  function InOrder(db: Database, ids: set<nat>, tag: string): set<nat> {
    set id | id in ids && id in db.resources && HasTask(db, id, tag, Normal) && db.resources[id].status == Normal
  }

  /** Those whose scan under this tag failed for good. */
  function OutOfOrder(db: Database, ids: set<nat>, tag: string): set<nat> {
    set id | id in ids && id in db.resources && HasTask(db, id, tag, Abnormal)
             && !(db.resources[id].status == Identifying && db.resources[id].credentials)
  }

  lemma {:induction false} JudgedAre(db: Database, ids: set<nat>, tag: string)
    ensures Judged(db, ids, tag, Succeeded) == InOrder(db, ids, tag)
    ensures Judged(db, ids, tag, Failed) == OutOfOrder(db, ids, tag)
  {
    hide Judge, HasTask;
    forall id ensures id in Judged(db, ids, tag, Succeeded) <==> id in InOrder(db, ids, tag) {
      VerdictsAre(db, id, tag);
    }
    forall id ensures id in Judged(db, ids, tag, Failed) <==> id in OutOfOrder(db, ids, tag) {
      VerdictsAre(db, id, tag);
    }
  }

  function Judged(db: Database, ids: set<nat>, tag: string, v: Verdict): set<nat> {
    set id | id in ids && Judge(db, id, tag) == v
  }

  /** How many resources of the chunks from start on get a verdict; a repeated id of a chunk counts as
      changed, because the query returns it once. */
  ghost function Tally(view: View, ids: seq<nat>, start: nat, chunkSize: nat, tag: string, v: Verdict): nat
    requires chunkSize > 0
    decreases |ids| - start
  {
    if start >= |ids| then 0
    else
      var end := if start + chunkSize < |ids| then start + chunkSize else |ids|;
      var chunk := Elements(ids[start..end]);
      ElementsSize(ids[start..end]);
      |Judged(view(start), chunk, tag, v)| + (if v.Changed? then end - start - |chunk| else 0) +
        Tally(view, ids, end, chunkSize, tag, v)
  }

  method ReconcileBatch(view: View, ids: seq<nat>, tag: string, chunkSize: nat) returns (result: Option<Reconciliation>)
    requires chunkSize > 0
    ensures result.Some? ==>
      && result.value.succeeded + result.value.failed + result.value.changed + result.value.active +
           |result.value.retryIDs| == |ids|
      && result.value.succeeded == Tally(view, ids, 0, chunkSize, tag, Succeeded)
      && result.value.failed == Tally(view, ids, 0, chunkSize, tag, Failed)
      && result.value.changed == Tally(view, ids, 0, chunkSize, tag, Changed)
      && result.value.active == Tally(view, ids, 0, chunkSize, tag, Active)
      && |result.value.retryIDs| == Tally(view, ids, 0, chunkSize, tag, Retry)
      && forall id :: id in result.value.retryIDs ==> id in ids && exists at :: Judge(view(at), id, tag) == Retry
  {
    hide Judge, Judged;
    var r := Reconciliation(0, 0, 0, 0, []);
    var start := 0;
    while start < |ids|
      invariant start <= |ids|
      invariant Tally(view, ids, 0, chunkSize, tag, Succeeded) ==
                r.succeeded + Tally(view, ids, start, chunkSize, tag, Succeeded)
      invariant Tally(view, ids, 0, chunkSize, tag, Failed) ==
                r.failed + Tally(view, ids, start, chunkSize, tag, Failed)
      invariant Tally(view, ids, 0, chunkSize, tag, Changed) ==
                r.changed + Tally(view, ids, start, chunkSize, tag, Changed)
      invariant Tally(view, ids, 0, chunkSize, tag, Active) ==
                r.active + Tally(view, ids, start, chunkSize, tag, Active)
      invariant Tally(view, ids, 0, chunkSize, tag, Retry) ==
                |r.retryIDs| + Tally(view, ids, start, chunkSize, tag, Retry)
      invariant r.succeeded + r.failed + r.changed + r.active + |r.retryIDs| == start
      invariant forall id :: id in r.retryIDs ==> id in ids && exists at :: Judge(view(at), id, tag) == Retry
      decreases |ids| - start
    {
      var end := if start + chunkSize < |ids| then start + chunkSize else |ids|;
      var read: bool := *;
      if !read { return None; }
      var part := ReconcileChunk(view(start), ids[start..end], tag);
      RetryAreListed(view(start), ids, start, end, tag, part.retryIDs);
      r := Reconciliation(r.succeeded + part.succeeded, r.failed + part.failed, r.changed + part.changed,
        r.active + part.active, r.retryIDs + part.retryIDs);
      start := end;
    }
    return Some(r);
  }

  /** One query: the rows come in any order, one for each distinct id that exists. */
  method ReconcileChunk(db: Database, chunk: seq<nat>, tag: string) returns (r: Reconciliation)
    ensures r.succeeded == |Judged(db, Elements(chunk), tag, Succeeded)| == |InOrder(db, Elements(chunk), tag)|
    ensures r.failed == |Judged(db, Elements(chunk), tag, Failed)| == |OutOfOrder(db, Elements(chunk), tag)|
    ensures r.active == |Judged(db, Elements(chunk), tag, Active)|
    ensures |r.retryIDs| == |Judged(db, Elements(chunk), tag, Retry)|
    ensures r.changed == |Judged(db, Elements(chunk), tag, Changed)| + (|chunk| - |Elements(chunk)|)
    ensures r.succeeded + r.failed + r.changed + r.active + |r.retryIDs| == |chunk|
    ensures Elements(r.retryIDs) == Judged(db, Elements(chunk), tag, Retry)
  {
    hide *;
    r := Reconciliation(0, 0, 0, 0, []);
    var seen := 0;
    var rows := Elements(chunk) * db.resources.Keys;
    ghost var done: set<nat> := {};
    NothingCounted(db, tag);
    while rows != {}
      invariant done !! rows && done + rows == Elements(chunk) * db.resources.Keys
      invariant seen == |done| && Counted(db, done, tag, r)
      decreases rows
    {
      var id :| id in rows;
      rows := rows - {id};
      CountOne(db, done, id, tag, r);
      done := done + {id};
      seen := seen + 1;
      match Judge(db, id, tag) {
        case Active => r := r.(active := r.active + 1);
        case Succeeded => r := r.(succeeded := r.succeeded + 1);
        case Failed => r := r.(failed := r.failed + 1);
        case Changed => r := r.(changed := r.changed + 1);
        case Retry => r := r.(retryIDs := r.retryIDs + [id]);
      }
    }
    CountedIs(db, done, tag, r);
    JudgedAre(db, Elements(chunk), tag);
    MissingAreChanged(db, Elements(chunk), done, tag);
    ElementsSize(chunk);
    if seen != |chunk| {
      r := r.(changed := r.changed + |chunk| - seen);
    }
  }

  ghost predicate Counted(db: Database, done: set<nat>, tag: string, r: Reconciliation) {
    && r.succeeded + r.failed + r.changed + r.active + |r.retryIDs| == |done|
    && r.succeeded == |Judged(db, done, tag, Succeeded)|
    && r.failed == |Judged(db, done, tag, Failed)|
    && r.changed == |Judged(db, done, tag, Changed)|
    && r.active == |Judged(db, done, tag, Active)|
    && |r.retryIDs| == |Judged(db, done, tag, Retry)|
    && Elements(r.retryIDs) == Judged(db, done, tag, Retry)
  }

  lemma {:induction false} CountedIs(db: Database, done: set<nat>, tag: string, r: Reconciliation)
    requires Counted(db, done, tag, r)
    ensures r.succeeded + r.failed + r.changed + r.active + |r.retryIDs| == |done|
    ensures r.succeeded == |Judged(db, done, tag, Succeeded)| && r.failed == |Judged(db, done, tag, Failed)|
    ensures r.changed == |Judged(db, done, tag, Changed)| && r.active == |Judged(db, done, tag, Active)|
    ensures |r.retryIDs| == |Judged(db, done, tag, Retry)| && Elements(r.retryIDs) == Judged(db, done, tag, Retry)
  {}

  lemma {:induction false} NothingCounted(db: Database, tag: string)
    ensures Counted(db, {}, tag, Reconciliation(0, 0, 0, 0, []))
  {
    assert forall v :: Judged(db, {}, tag, v) == {};
  }

  lemma {:induction false} CountOne(db: Database, done: set<nat>, id: nat, tag: string, r: Reconciliation)
    requires Counted(db, done, tag, r) && id !in done
    ensures match Judge(db, id, tag)
            case Active => Counted(db, done + {id}, tag, r.(active := r.active + 1))
            case Succeeded => Counted(db, done + {id}, tag, r.(succeeded := r.succeeded + 1))
            case Failed => Counted(db, done + {id}, tag, r.(failed := r.failed + 1))
            case Changed => Counted(db, done + {id}, tag, r.(changed := r.changed + 1))
            case Retry => Counted(db, done + {id}, tag, r.(retryIDs := r.retryIDs + [id]))
  {
    hide Judge, Judged, Elements;
    JudgeOne(db, done, id, tag, Active);
    JudgeOne(db, done, id, tag, Succeeded);
    JudgeOne(db, done, id, tag, Failed);
    JudgeOne(db, done, id, tag, Changed);
    JudgeOne(db, done, id, tag, Retry);
    OneMore(r.retryIDs, id);
  }

  lemma {:induction false} OneMore(ids: seq<nat>, id: nat)
    ensures Elements(ids + [id]) == Elements(ids) + {id}
  {}

  lemma {:induction false} JudgeOne(db: Database, done: set<nat>, id: nat, tag: string, v: Verdict)
    requires id !in done
    ensures v == Judge(db, id, tag) ==>
              && Judged(db, done + {id}, tag, v) == Judged(db, done, tag, v) + {id}
              && |Judged(db, done + {id}, tag, v)| == |Judged(db, done, tag, v)| + 1
    ensures v != Judge(db, id, tag) ==> Judged(db, done + {id}, tag, v) == Judged(db, done, tag, v)
  {
    hide Judge;
    if v == Judge(db, id, tag) {
      assert Judged(db, done + {id}, tag, v) == Judged(db, done, tag, v) + {id};
      assert id !in Judged(db, done, tag, v);
    }
  }

  lemma {:induction false} MissingAreChanged(db: Database, ids: set<nat>, done: set<nat>, tag: string)
    requires done == ids * db.resources.Keys
    ensures forall v :: v != Changed ==> Judged(db, ids, tag, v) == Judged(db, done, tag, v)
    ensures |Judged(db, ids, tag, Changed)| == |Judged(db, done, tag, Changed)| + (|ids| - |done|)
  {
    assert Judged(db, ids, tag, Changed) == Judged(db, done, tag, Changed) + (ids - done);
    assert ids == done + (ids - done);
  }

  lemma {:induction false} RetryAreListed(db: Database, ids: seq<nat>, start: nat, end: nat, tag: string,
                                          retryIDs: seq<nat>)
    requires start <= end <= |ids| && Elements(retryIDs) == Judged(db, Elements(ids[start..end]), tag, Retry)
    ensures forall id :: id in retryIDs ==> id in ids && Judge(db, id, tag) == Retry
  {
    hide Judge;
    forall id | id in retryIDs ensures id in ids && Judge(db, id, tag) == Retry {
      assert id in Elements(retryIDs);
    }
  }

  predicate Distinct(ids: seq<nat>) { forall i, j :: 0 <= i < j < |ids| ==> ids[i] != ids[j] }

  /** On a manifest without repetitions and tables at rest, the chunks do not matter: each number is the
      number of resources with that verdict. */
  lemma {:induction false} TallyIsExact(db: Database, view: View, ids: seq<nat>, start: nat, chunkSize: nat,
                                        tag: string, v: Verdict)
    requires chunkSize > 0 && Distinct(ids) && start <= |ids| && forall at :: view(at) == db
    ensures Tally(view, ids, start, chunkSize, tag, v) == |Judged(db, Elements(ids[start..]), tag, v)|
    decreases |ids| - start
  {
    hide Judge, Judged, Elements;
    if start < |ids| {
      var end := if start + chunkSize < |ids| then start + chunkSize else |ids|;
      TallyIsExact(db, view, ids, end, chunkSize, tag, v);
      ElementsSize(ids[start..end]);
      JudgedApart(db, ids, start, end, tag, v);
    } else {
      assert ids[start..] == [];
      NothingJudged(db, tag, v);
    }
  }

  lemma {:induction false} NothingJudged(db: Database, tag: string, v: Verdict)
    ensures Judged(db, Elements([]), tag, v) == {}
  {}

  lemma {:induction false} JudgedApart(db: Database, ids: seq<nat>, start: nat, end: nat, tag: string, v: Verdict)
    requires Distinct(ids) && start <= end <= |ids|
    ensures |Judged(db, Elements(ids[start..]), tag, v)| ==
            |Judged(db, Elements(ids[start..end]), tag, v)| + |Judged(db, Elements(ids[end..]), tag, v)|
  {
    hide Judge;
    var chunk, rest := ids[start..end], ids[end..];
    assert ids[start..] == chunk + rest;
    forall id | id in chunk ensures id !in rest {
      var i :| 0 <= i < |chunk| && chunk[i] == id;
      assert ids[start + i] == id;
      assert forall j :: 0 <= j < |rest| ==> rest[j] == ids[end + j];
    }
    var all, head, tail :=
      Judged(db, Elements(ids[start..]), tag, v), Judged(db, Elements(chunk), tag, v),
      Judged(db, Elements(rest), tag, v);
    assert all == head + tail && head !! tail;
  }

  lemma {:induction false} TallyIsSmall(view: View, ids: seq<nat>, start: nat, chunkSize: nat, tag: string, v: Verdict)
    requires chunkSize > 0 && start <= |ids|
    ensures Tally(view, ids, start, chunkSize, tag, v) <= |ids| - start
    decreases |ids| - start
  {
    hide Judge, Elements, Judged;
    if start < |ids| {
      var end := if start + chunkSize < |ids| then start + chunkSize else |ids|;
      var chunk := Elements(ids[start..end]);
      TallyIsSmall(view, ids, end, chunkSize, tag, v);
      ElementsSize(ids[start..end]);
      JudgedWithin(view(start), chunk, tag, v);
    }
  }

  lemma {:induction false} JudgedWithin(db: Database, ids: set<nat>, tag: string, v: Verdict)
    ensures Judged(db, ids, tag, v) <= ids && |Judged(db, ids, tag, v)| <= |ids|
    ensures |Judged(db, ids, tag, v)| == |ids| ==> Judged(db, ids, tag, v) == ids
  {
    SizeWithin(Judged(db, ids, tag, v), ids);
    var rest := ids - Judged(db, ids, tag, v);
    assert ids == Judged(db, ids, tag, v) + rest;
  }

  /** When as many succeeded as were asked about, each of them is a normal resource with a normal task of this tag, as
      of the query of its chunk. */
  lemma {:induction false} AllInOrder(view: View, ids: seq<nat>, start: nat, chunkSize: nat, tag: string)
    requires chunkSize > 0 && start <= |ids|
    requires Tally(view, ids, start, chunkSize, tag, Succeeded) == |ids| - start
    ensures forall i :: start <= i < |ids| ==> SeenSettled(view, ids[i], tag)
    decreases |ids| - start
  {
    hide Judge, Judged, Settles, SeenSettled, InOrder;
    if start < |ids| {
      var end := if start + chunkSize < |ids| then start + chunkSize else |ids|;
      var chunk := Elements(ids[start..end]);
      ElementsSize(ids[start..end]);
      TallyIsSmall(view, ids, end, chunkSize, tag, Succeeded);
      JudgedWithin(view(start), chunk, tag, Succeeded);
      AllInOrder(view, ids, end, chunkSize, tag);
      JudgedAre(view(start), chunk, tag);
      forall i | start <= i < end ensures SeenSettled(view, ids[i], tag) {
        assert ids[start..end][i - start] == ids[i];
        SettledIn(view, start, chunk, ids[i], tag);
      }
    }
  }

  /** The resource was scanned under this tag, and is normal. */
  predicate Settles(db: Database, id: nat, tag: string) {
    && id in db.tasks && db.tasks[id].history && db.tasks[id].tag == tag && db.tasks[id].status == Normal
    && id in db.resources && db.resources[id].status == Normal
  }

  /** Some query of the chunks saw it so. */
  ghost predicate SeenSettled(view: View, id: nat, tag: string) { exists at :: Settles(view(at), id, tag) }

  lemma {:induction false} SettledIn(view: View, at: nat, ids: set<nat>, id: nat, tag: string)
    requires id in InOrder(view(at), ids, tag)
    ensures SeenSettled(view, id, tag)
  {
    assert Settles(view(at), id, tag);
  }

  /** A resource sent to retry, whose own task is not in a state the program does not know, is queued by the
      retry exactly when no other operation holds it; then it counts as active again, and otherwise it goes on
      being sent to retry. */
  lemma {:induction false} RetryIsQueuedIff(db: Database, ids: set<nat>, tag: string, restore: bool, id: nat)
    requires id in ids && Judge(db, id, tag) == Retry
    requires Tagged(db, id, tag) ==> db.tasks[id].status.Abnormal?
    ensures id in Eligible(db, ids, tag, true, restore) <==> !Busy(db, id)
    ensures var after := Queued(db, Eligible(db, ids, tag, true, restore), tag);
            Judge(after, id, tag) == if Busy(db, id) then Retry else Active
    ensures Tagged(db, id, tag) ==> !Busy(db, id)
  {}

  /** A resource that another operation has queued: it is sent to retry, and the retry passes over it. */
  lemma {:induction false} HeldIsRetried(tag: string, restore: bool)
    ensures var db := Database(map[1 := Resource(Normal, true, true, 0)], map[1 := Task(false, Pending, "", 1)]);
            && Judge(db, 1, tag) == Retry && 1 !in Eligible(db, {1}, tag, true, restore)
            && Judge(Queued(db, Eligible(db, {1}, tag, true, restore), tag), 1, tag) == Retry
  {
    hide Queued;
    var db := Database(map[1 := Resource(Normal, true, true, 0)], map[1 := Task(false, Pending, "", 1)]);
    RetryIsQueuedIff(db, {1}, tag, restore, 1);
  }
}
