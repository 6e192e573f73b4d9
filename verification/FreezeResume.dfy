/** Resuming the mailbox validation runner: rows left validating or abnormal before the saved offset are set
    pending again, and then the items there are sorted into those that need a worker, those that need their history
    scanned, and those whose outcome the database knows. */
module FreezeResume {
  import opened Options
  import opened Ledgers
  import opened FreezeFeed

  datatype Fate = Done | Stage1 | Stage2 | Told(event: Event)

  /** What a row says about an item that was frozen. */
  function ByStatus(item: Record, row: Row): Fate {
    match row.status
    case Pending => Stage1
    case Validating => Stage1
    case Identifying => Stage2
    case Normal => Told(Succeed(item.email))
    case Disabled => Told(Fail(item.email, Unrecoverable))
    case Deleted => Told(Fail(item.email, Unrecoverable))
    case Abnormal => Told(Fail(item.email, row.failure))
  }

  function FateOf(item: Record, k: Known, rows: map<nat, Row>): Fate {
    if item.email in k.success then Done
    else if !Usable(item) then Told(Fail(item.email, Unrecoverable))
    else if item.email in k.skipped then Told(Reject(item.email))
    else if item.resourceID !in rows || rows[item.resourceID].generation < item.generation + 1
      then Told(Fail(item.email, Recoverable))
    else ByStatus(item, rows[item.resourceID])
  }

  datatype Jobs = Jobs(stage1: seq<Record>, stage2: seq<Record>, reported: seq<Event>)

  function Sorted(j: Jobs, item: Record, fate: Fate): Jobs {
    match fate
    case Done => j
    case Stage1 => j.(stage1 := j.stage1 + [item])
    case Stage2 => j.(stage2 := j.stage2 + [item])
    case Told(event) => j.(reported := j.reported + [event])
  }

  /** seen holds, for each item, the table contents it is judged on. */
  function JobsOf(items: seq<Record>, k: Known, seen: seq<map<nat, Row>>): Jobs
    requires |seen| == |items|
  {
    if items == [] then Jobs([], [], [])
    else
      var n := |items| - 1;
      Sorted(JobsOf(items[..n], k, seen[..n]), items[n], FateOf(items[n], k, seen[n]))
  }

  /** The table contents each of the first n items is judged on: those of its chunk's query. */
  function Seen(view: nat -> map<nat, Row>, n: nat, chunkSize: nat): (seen: seq<map<nat, Row>>)
    requires chunkSize > 0
    ensures |seen| == n
  {
    seq(n, i requires 0 <= i < n => view(i / chunkSize * chunkSize))
  }

  method ClassifyJobs(items: seq<Record>, k: Known, chunkSize: nat, view: nat -> map<nat, Row>)
    returns (jobs: Option<Jobs>)
    requires chunkSize > 0
    ensures jobs.Some? ==> jobs.value == JobsOf(items, k, Seen(view, |items|, chunkSize))
  {
    hide JobsOf, Seen, FateOf;
    var j := Jobs([], [], []);
    var start := 0;
    ghost var chunks := 0;
    NoJobs(k, view, chunkSize);
    assert items[..0] == [];
    while start < |items|
      invariant start <= |items| && j == JobsOf(items[..start], k, Seen(view, start, chunkSize))
      invariant start < |items| ==> start == chunks * chunkSize
      decreases |items| - start
    {
      var end := if start + chunkSize < |items| then start + chunkSize else |items|;
      var loaded: bool := *;
      if !loaded { return None; }
      // loadDatabaseStates reads only the rows this chunk asks for
      var ids := set item | item in items[start..end] && Usable(item) && Passes(item, k) :: item.resourceID;
      var states := map id | id in view(start) && id in ids :: view(start)[id];
      for i := start to end
        invariant j == JobsOf(items[..i], k, Seen(view, i, chunkSize))
      {
        AskedFor(items, start, end, i, k, ids, view(start), states);
        InChunk(i, chunks, chunkSize);
        Grows(items, k, i, view, chunkSize);
        j := SortOne(j, items[i], k, states);
      }
      chunks := chunks + 1;
      start := end;
    }
    assert items[..start] == items;
    return Some(j);
  }

  /** The body of the inner loop. */
  method SortOne(before: Jobs, item: Record, k: Known, states: map<nat, Row>) returns (j: Jobs)
    ensures j == Sorted(before, item, FateOf(item, k, states))
  {
    j := before;
    if item.email in k.success { return; }
    if !item.eligible || item.resourceID == 0 {
      return j.(reported := j.reported + [Fail(item.email, Unrecoverable)]);
    }
    if item.email in k.skipped {
      return j.(reported := j.reported + [Reject(item.email)]);
    }
    if item.resourceID !in states || states[item.resourceID].generation < item.generation + 1 {
      return j.(reported := j.reported + [Fail(item.email, Recoverable)]);
    }
    var current := states[item.resourceID];
    match current.status {
      case Pending => j := j.(stage1 := j.stage1 + [item]);
      case Validating => j := j.(stage1 := j.stage1 + [item]);
      case Identifying => j := j.(stage2 := j.stage2 + [item]);
      case Normal => j := j.(reported := j.reported + [Succeed(item.email)]);
      case Disabled => j := j.(reported := j.reported + [Fail(item.email, Unrecoverable)]);
      case Deleted => j := j.(reported := j.reported + [Fail(item.email, Unrecoverable)]);
      case Abnormal => j := j.(reported := j.reported + [Fail(item.email, current.failure)]);
    }
  }

  lemma {:induction false} NoJobs(k: Known, view: nat -> map<nat, Row>, chunkSize: nat)
    requires chunkSize > 0
    ensures JobsOf([], k, Seen(view, 0, chunkSize)) == Jobs([], [], [])
  {}

  lemma {:induction false} InChunk(i: nat, chunk: nat, chunkSize: nat)
    requires chunkSize > 0 && chunk * chunkSize <= i < chunk * chunkSize + chunkSize
    ensures i / chunkSize * chunkSize == chunk * chunkSize
  {
    var q := i / chunkSize;
    assert q * chunkSize <= i < q * chunkSize + chunkSize;
    if q < chunk {
      Products(q + 1, chunk, chunkSize);
    } else if chunk < q {
      Products(chunk + 1, q, chunkSize);
    }
  }

  lemma {:induction false} Products(a: nat, b: nat, c: nat)
    requires a <= b
    ensures a * c <= b * c && (a > 0 ==> a * c == (a - 1) * c + c)
  {}

  lemma {:induction false} AskedFor(items: seq<Record>, start: nat, end: nat, i: nat, k: Known, ids: set<nat>,
                                    rows: map<nat, Row>, states: map<nat, Row>)
    requires start <= i < end <= |items|
    requires ids == (set item | item in items[start..end] && Usable(item) && Passes(item, k) :: item.resourceID)
    requires states == map id | id in rows && id in ids :: rows[id]
    ensures FateOf(items[i], k, states) == FateOf(items[i], k, rows)
  {
    assert items[start..end][i - start] == items[i];
    if Usable(items[i]) && Passes(items[i], k) { assert items[i].resourceID in ids; }
  }

  lemma {:induction false} Grows(items: seq<Record>, k: Known, i: nat, view: nat -> map<nat, Row>, chunkSize: nat)
    requires chunkSize > 0 && i < |items|
    ensures JobsOf(items[..i + 1], k, Seen(view, i + 1, chunkSize)) ==
            Sorted(JobsOf(items[..i], k, Seen(view, i, chunkSize)), items[i],
              FateOf(items[i], k, view(i / chunkSize * chunkSize)))
  {
    assert items[..i + 1][..i] == items[..i];
    assert Seen(view, i + 1, chunkSize)[..i] == Seen(view, i, chunkSize);
  }

  // ---------------------------------------------------------------- abandoned validations

  function WantedIDs(items: seq<Record>, k: Known): set<nat> {
    set item | item in items && Wanted(item, k) :: item.resourceID
  }

  /** The update: validating and abnormal rows among these become pending under a new generation. */
  function Reset(rows: map<nat, Row>, ids: set<nat>): map<nat, Row> {
    map id | id in rows ::
      if id in ids && (rows[id].status.Validating? || rows[id].status.Abnormal?)
      then Row(Pending, rows[id].generation + 1, Recoverable) else rows[id]
  }

  function Recovered(rows: map<nat, Row>, items: seq<Record>, k: Known): map<nat, Row> {
    Reset(rows, WantedIDs(items, k))
  }

  lemma {:induction false} RecoveredProgresses(rows: map<nat, Row>, items: seq<Record>, k: Known)
    ensures Progress(rows, Recovered(rows, items, k)) && Recovered(rows, items, k).Keys == rows.Keys
  {}

  lemma {:induction false} ResetTwice(rows: map<nat, Row>, a: set<nat>, b: set<nat>)
    ensures Reset(Reset(rows, a), b) == Reset(rows, a + b)
  {}

  lemma {:induction false} WantedTogether(a: seq<Record>, b: seq<Record>, k: Known)
    ensures WantedIDs(a + b, k) == WantedIDs(a, k) + WantedIDs(b, k)
  {}

  lemma {:induction false} RecoverMore(rows: map<nat, Row>, items: seq<Record>, start: nat, end: nat, k: Known)
    requires start <= end <= |items|
    ensures Recovered(Recovered(rows, items[..start], k), items[start..end], k) == Recovered(rows, items[..end], k)
  {
    hide Reset, WantedIDs;
    assert items[..end] == items[..start] + items[start..end];
    WantedTogether(items[..start], items[start..end], k);
    ResetTwice(rows, WantedIDs(items[..start], k), WantedIDs(items[start..end], k));
  }

  lemma {:induction false} RecoverNothing(rows: map<nat, Row>, items: seq<Record>, k: Known)
    ensures WantedIDs(items, k) == {} ==> Recovered(rows, items, k) == rows
  {}

  /** recoverAbandonedValidations: one update a chunk, so a failure leaves some chunks done. Updating a row again in a
      later chunk has no effect, because it is pending by then. */
  method RecoverAbandoned(items: seq<Record>, k: Known, chunkSize: nat, rows: map<nat, Row>)
    returns (ok: bool, after: map<nat, Row>)
    requires chunkSize > 0
    ensures ok ==> after == Recovered(rows, items, k)
    ensures exists n :: 0 <= n <= |items| && after == Recovered(rows, items[..n], k)
  {
    hide Recovered, WantedIDs;
    after := rows;
    var start := 0;
    assert WantedIDs(items[..0], k) == {} by { NobodyWanted(items[..0], k); }
    RecoverNothing(rows, items[..0], k);
    while start < |items|
      invariant start <= |items| && after == Recovered(rows, items[..start], k)
      decreases |items| - start
    {
      var end := if start + chunkSize < |items| then start + chunkSize else |items|;
      RecoverMore(rows, items, start, end, k);
      RecoverNothing(after, items[start..end], k);
      if |WantedIDs(items[start..end], k)| > 0 {
        var updated: bool, answered: bool := *, *;
        if !updated { return false, after; }
        after := Recovered(after, items[start..end], k);
        if !answered { return false, after; }
      }
      start := end;
    }
    assert items[..start] == items;
    return true, after;
  }

  lemma {:induction false} NobodyWanted(items: seq<Record>, k: Known)
    requires items == []
    ensures WantedIDs(items, k) == {}
  {}

  // ---------------------------------------------------------------- what resuming does to an item

  /** What becomes of a wanted item before the offset whose row exists. It is judged by its row exactly when its
      generation had advanced or its row was validating or abnormal; it goes back to a worker exactly when its row was
      validating or abnormal, or pending with an advanced generation; in every other case in which it is not
      judged by its row, it is reported as failed. */
  lemma {:induction false} ResumedIff(item: Record, items: seq<Record>, k: Known, rows: map<nat, Row>)
    requires item in items && Wanted(item, k) && item.resourceID in rows &&
             item.generation <= rows[item.resourceID].generation
    ensures var row, after := rows[item.resourceID], Recovered(rows, items, k);
            var advanced := item.generation < row.generation;
            var fate := FateOf(item, k, after);
            && (fate == ByStatus(item, after[item.resourceID]) <==>
                 advanced || row.status.Validating? || row.status.Abnormal?)
            && (fate == Stage1 <==> row.status.Validating? || row.status.Abnormal? || (row.status.Pending? && advanced))
            && (fate != ByStatus(item, after[item.resourceID]) ==> fate == Told(Fail(item.email, Recoverable)))
  {
    assert item.resourceID in WantedIDs(items, k);
  }

  /** The verdict on a wanted item whose generation had advanced, by the status its row had before the recovery: a
      success if and only if it was normal, a history scan if and only if identifying, an unrecoverable failure if and
      only if disabled or deleted, and otherwise a worker. */
  lemma {:induction false} VerdictIs(item: Record, items: seq<Record>, k: Known, rows: map<nat, Row>)
    requires item in items && item.email !in k.success && item.email !in k.skipped
    requires item.eligible && item.resourceID != 0 && item.resourceID in rows
    requires item.generation < rows[item.resourceID].generation
    ensures var status, fate := rows[item.resourceID].status, FateOf(item, k, Recovered(rows, items, k));
            && (fate == Told(Succeed(item.email)) <==> status.Normal?)
            && (fate == Stage2 <==> status.Identifying?)
            && (fate == Told(Fail(item.email, Unrecoverable)) <==> status.Disabled? || status.Deleted?)
            && (fate == Stage1 <==> status.Pending? || status.Validating? || status.Abnormal?)
  {
    assert item.resourceID in WantedIDs(items, k);
  }

  /** The other verdicts, and that of a row that became abnormal after the recovery: it is reported with the class of
      its last error. */
  lemma {:induction false} OtherVerdictsAre(item: Record, k: Known, rows: map<nat, Row>)
    ensures item.email in k.success ==> FateOf(item, k, rows) == Done
    ensures item.email !in k.success && (!item.eligible || item.resourceID == 0) ==>
              FateOf(item, k, rows) == Told(Fail(item.email, Unrecoverable))
    ensures item.email !in k.success && item.email in k.skipped && item.eligible && item.resourceID != 0 ==>
              FateOf(item, k, rows) == Told(Reject(item.email))
    ensures Wanted(item, k) && (item.resourceID !in rows || rows[item.resourceID].generation <= item.generation) ==>
              FateOf(item, k, rows) == Told(Fail(item.email, Recoverable))
    ensures Wanted(item, k) && item.resourceID in rows && rows[item.resourceID].generation > item.generation &&
            rows[item.resourceID].status.Abnormal? ==>
              FateOf(item, k, rows) == Told(Fail(item.email, rows[item.resourceID].failure))
  {}

  /** What the recovery does to each row. */
  lemma {:induction false} RecoveredIs(rows: map<nat, Row>, items: seq<Record>, k: Known, id: nat)
    requires id in rows
    ensures var after := Recovered(rows, items, k);
            && id in after
            && after[id] ==
               if (rows[id].status.Validating? || rows[id].status.Abnormal?) &&
                  exists item :: item in items && item.resourceID == id != 0 && item.eligible &&
                    item.email !in k.success && item.email !in k.skipped
               then Row(Pending, rows[id].generation + 1, Recoverable) else rows[id]
  {}

  /** The lists of the sorting hold exactly the items with that verdict, and what is to be reported of the others. */
  lemma {:induction false} JobsAre(items: seq<Record>, k: Known, seen: seq<map<nat, Row>>, item: Record, e: Event)
    requires |seen| == |items|
    ensures var j := JobsOf(items, k, seen);
            && (item in j.stage1 <==>
                 exists i :: 0 <= i < |items| && items[i] == item && FateOf(item, k, seen[i]) == Stage1)
            && (item in j.stage2 <==>
                 exists i :: 0 <= i < |items| && items[i] == item && FateOf(item, k, seen[i]) == Stage2)
            && (e in j.reported <==> exists i :: 0 <= i < |items| && FateOf(items[i], k, seen[i]) == Told(e))
    decreases |items|
  {
    hide FateOf;
    if items != [] {
      var n := |items| - 1;
      JobsAre(items[..n], k, seen[..n], item, e);
      assert forall i :: 0 <= i < n ==> items[..n][i] == items[i] && seen[..n][i] == seen[i];
      var before := JobsOf(items[..n], k, seen[..n]);
      assert JobsOf(items, k, seen) == Sorted(before, items[n], FateOf(items[n], k, seen[n]));
    }
  }

  lemma {:induction false} ToldOwn(item: Record, k: Known, rows: map<nat, Row>)
    ensures FateOf(item, k, rows).Told? ==> FateOf(item, k, rows).event.email == item.email
  {}

  /** After a resume, every mailbox that a killed run had validated is in the success ledger and in no other, whatever
      is recorded later. */
  lemma {:induction false} ValidatedIsRecorded(items: seq<Record>, p: Previous, skipped: set<string>,
                                               rows: map<nat, Row>, i: nat, chunkSize: nat, later: seq<Event>)
    requires chunkSize > 0 && i < |items| && Wanted(items[i], Known(p.success, skipped))
    requires forall a, b :: 0 <= a < b < |items| ==> items[a].email != items[b].email
    requires items[i].resourceID in rows && items[i].generation < rows[items[i].resourceID].generation
    requires rows[items[i].resourceID].status.Normal?
    ensures var k := Known(p.success, skipped);
            var after := Recovered(rows, items, k);
            var j := JobsOf(items, k, Seen(_ => after, |items|, chunkSize));
            var l := After(Opened(p), j.reported + later);
            && items[i].email in l.succeeded
            && items[i].email !in l.failed + l.recoverable + l.unrecoverable + l.rateLimited
  {
    hide JobsOf, Recovered, FateOf, After, Opened;
    var k, email := Known(p.success, skipped), items[i].email;
    var after := Recovered(rows, items, k);
    var seen := Seen(_ => after, |items|, chunkSize);
    var reported := JobsOf(items, k, seen).reported;
    VerdictIs(items[i], items, k, rows);
    JobsAre(items, k, seen, items[i], Succeed(email));
    assert seen[i] == after;
    assert Succeed(email) in reported;
    var n := FirstOf(reported, email);
    FoundFirst(reported, email, Succeed(email));
    JobsAre(items, k, seen, items[i], reported[n]);
    var m :| 0 <= m < |items| && FateOf(items[m], k, seen[m]) == Told(reported[n]);
    ToldOwn(items[m], k, seen[m]);
    assert m == i;
    var events := reported + later;
    assert events[n] == Succeed(email) && forall a :: 0 <= a < n ==> events[a] == reported[a];
    FirstSuccessCounts(p, events, n, email);
  }

  lemma {:induction false} FoundFirst(events: seq<Event>, email: string, e: Event)
    requires e in events && e.email == email
    ensures FirstOf(events, email) < |events|
  {
    var a :| 0 <= a < |events| && events[a] == e;
  }

  /** In freeze mode, an item before the saved offset is judged by its row alone, never taken for one that was not
      reached: an unfinished one goes back to a worker. */
  lemma {:induction false} ResumeKeepsWork(manifest: seq<Record>, k: Known, offset: nat, rows: map<nat, Row>, i: nat)
    requires FrozenUpTo(rows, manifest, k, offset) && i < offset <= |manifest|
    requires Wanted(manifest[i], k) && manifest[i].resourceID in rows
    ensures var after := Recovered(rows, manifest[..offset], k);
            FateOf(manifest[i], k, after) == ByStatus(manifest[i], after[manifest[i].resourceID])
  {
    assert manifest[..offset][i] == manifest[i];
    ResumedIff(manifest[i], manifest[..offset], k, rows);
  }

  /** Without freezing, a pending item that was handed out is reported as failed. */
  lemma {:induction false} NoFreezeLosesWork()
    ensures var item := Record("a@b", 1, true, 3);
            var k := Known({}, {});
            var rows := map[1 := Row(Pending, 3, Recoverable)];
            && Wanted(item, k) && Drawn(rows, [item])
            && FateOf(item, k, Recovered(rows, [item], k)) == Told(Fail("a@b", Recoverable))
  {
    var item := Record("a@b", 1, true, 3);
    ResumedIff(item, [item], Known({}, {}), map[1 := Row(Pending, 3, Recoverable)]);
  }

  // ---------------------------------------------------------------- every item is accounted for

  function Finished(items: seq<Record>, k: Known): nat {
    if items == [] then 0
    else Finished(items[..|items| - 1], k) + if items[|items| - 1].email in k.success then 1 else 0
  }

  lemma {:induction false} JobsCover(items: seq<Record>, k: Known, seen: seq<map<nat, Row>>)
    requires |seen| == |items|
    ensures var j := JobsOf(items, k, seen);
            && |j.stage1| + |j.stage2| + |j.reported| + Finished(items, k) == |items|
            && (forall item :: item in j.stage1 ==> Passes(item, k))
    decreases |items|
  {
    if items != [] {
      var n := |items| - 1;
      JobsCover(items[..n], k, seen[..n]);
    }
  }

  lemma {:induction false} PassingAll(items: seq<Record>, k: Known)
    requires forall item :: item in items ==> Passes(item, k)
    ensures Passing(items, k) == items && Reports(items, k, false) == []
    decreases |items|
  {
    if items != [] {
      PassingAll(items[..|items| - 1], k);
      assert items == items[..|items| - 1] + [items[|items| - 1]];
    }
  }

  lemma {:induction false} FeedCovers(items: seq<Record>, k: Known)
    ensures |WantedOf(items, k)| + |Reports(items, k, true)| + Finished(items, k) == |items|
    decreases |items|
  {
    if items != [] { FeedCovers(items[..|items| - 1], k); }
  }

  lemma {:induction false} FinishedSum(items: seq<Record>, n: nat, k: Known)
    requires n <= |items|
    ensures Finished(items, k) == Finished(items[..n], k) + Finished(items[n..], k)
    decreases |items|
  {
    if n == |items| {
      assert items[..n] == items && items[n..] == [];
    } else {
      var m := |items| - 1;
      FinishedSum(items[..m], n, k);
      assert items[..m][..n] == items[..n] && items[..m][n..] == items[n..][..m - n];
      assert items[n..][|items[n..]| - 1] == items[m];
    }
  }

  /** Sorting the items before the offset and then feeding, as the run does: what the workers get, what goes to
      the history scan, what is reported at once and what had succeeded before make up the manifest. So the
      final check, that outcomes and earlier successes number as many as the manifest, can pass. */
  lemma {:induction false} RunAccountsForAll(manifest: seq<Record>, k: Known, offset: nat, seen: seq<map<nat, Row>>)
    requires |seen| == offset <= |manifest|
    ensures var j := JobsOf(manifest[..offset], k, seen);
            var fed := Passing(j.stage1, k) + WantedOf(manifest[offset..], k);
            var told := j.reported + Reports(j.stage1, k, false) + Reports(manifest[offset..], k, true);
            |fed| + |j.stage2| + |told| + Finished(manifest, k) == |manifest|
  {
    JobsCover(manifest[..offset], k, seen);
    PassingAll(JobsOf(manifest[..offset], k, seen).stage1, k);
    FeedCovers(manifest[offset..], k);
    FinishedSum(manifest, offset, k);
  }

  function EmailsOf(items: seq<Record>): set<string> { set item | item in items :: item.email }

  function Unfinished(items: seq<Record>, k: Known): set<string> { EmailsOf(items) - k.success }

  lemma {:induction false} EmailsSnoc(items: seq<Record>, item: Record, events: seq<Event>, more: seq<Event>)
    ensures EmailsOf(items + [item]) == EmailsOf(items) + {item.email}
    ensures Emails(events + more) == Emails(events) + Emails(more)
    ensures EmailsOf([]) == {} && Emails([]) == {}
  {}

  lemma {:induction false} EmailsSum(a: seq<Record>, b: seq<Record>)
    ensures EmailsOf(a + b) == EmailsOf(a) + EmailsOf(b)
  {}

  /** Nobody is forgotten by the sorting, and nobody who had finished is bothered. */
  lemma {:induction false} JobsReach(items: seq<Record>, k: Known, seen: seq<map<nat, Row>>)
    requires |seen| == |items|
    ensures var j := JobsOf(items, k, seen);
            EmailsOf(j.stage1) + EmailsOf(j.stage2) + Emails(j.reported) == Unfinished(items, k)
    decreases |items|
  {
    hide FateOf, EmailsOf, Emails;
    if items == [] {
      EmailsSnoc([], Record("", 0, false, 0), [], []);
    } else {
      var n := |items| - 1;
      var j, fate := JobsOf(items[..n], k, seen[..n]), FateOf(items[n], k, seen[n]);
      JobsReach(items[..n], k, seen[..n]);
      assert items == items[..n] + [items[n]];
      EmailsSnoc(items[..n], items[n], [], []);
      FateNames(items[n], k, seen[n]);
      EmailsSnoc(j.stage1, items[n], j.reported, if fate.Told? then [fate.event] else []);
      EmailsSnoc(j.stage2, items[n], [], []);
      assert Unfinished(items, k) == Unfinished(items[..n], k) +
        if items[n].email in k.success then {} else {items[n].email};
    }
  }

  lemma {:induction false} FateNames(item: Record, k: Known, rows: map<nat, Row>)
    ensures FateOf(item, k, rows).Done? <==> item.email in k.success
    ensures FateOf(item, k, rows).Told? ==> Emails([FateOf(item, k, rows).event]) == {item.email}
  {}

  lemma {:induction false} FeedReaches(items: seq<Record>, k: Known)
    ensures EmailsOf(WantedOf(items, k)) + Emails(Reports(items, k, true)) == Unfinished(items, k)
    decreases |items|
  {
    hide EmailsOf, Emails;
    if items == [] {
      EmailsSnoc([], Record("", 0, false, 0), [], []);
    } else {
      var n := |items| - 1;
      FeedReaches(items[..n], k);
      assert items == items[..n] + [items[n]];
      EmailsSnoc(items[..n], items[n], Reports(items[..n], k, true), ReportOf(items[n], k, true));
      EmailsSnoc(WantedOf(items[..n], k), items[n], [], []);
      assert WantedOf(items, k) ==
        if Wanted(items[n], k) then WantedOf(items[..n], k) + [items[n]] else WantedOf(items[..n], k);
      assert Reports(items, k, true) == Reports(items[..n], k, true) + ReportOf(items[n], k, true);
      assert Emails(ReportOf(items[n], k, true)) ==
        if Wanted(items[n], k) || items[n].email in k.success then {} else {items[n].email} by {
        ReportNames(items[n], k);
      }
      assert Unfinished(items, k) == Unfinished(items[..n], k) +
        if items[n].email in k.success then {} else {items[n].email};
    }
  }

  lemma {:induction false} ReportNames(item: Record, k: Known)
    ensures Emails(ReportOf(item, k, true)) == if Wanted(item, k) || item.email in k.success then {} else {item.email}
  {}

  lemma {:induction false} FinishedIsRest(items: seq<Record>, k: Known)
    requires forall i, j :: 0 <= i < j < |items| ==> items[i].email != items[j].email
    ensures |Unfinished(items, k)| + Finished(items, k) == |items|
    decreases |items|
  {
    hide EmailsOf, Unfinished;
    if items == [] {
      NobodyUnfinished(k);
    } else {
      var n := |items| - 1;
      FinishedIsRest(items[..n], k);
      OneMoreUnfinished(items, k);
    }
  }

  lemma {:induction false} NobodyUnfinished(k: Known)
    ensures Unfinished([], k) == {}
  {}

  lemma {:induction false} OneMoreUnfinished(items: seq<Record>, k: Known)
    requires items != [] && forall i, j :: 0 <= i < j < |items| ==> items[i].email != items[j].email
    ensures var front, last := items[..|items| - 1], items[|items| - 1].email;
            |Unfinished(items, k)| == |Unfinished(front, k)| + if last in k.success then 0 else 1
  {
    var front, last := items[..|items| - 1], items[|items| - 1].email;
    assert items == front + [items[|items| - 1]];
    assert last !in EmailsOf(front);
    assert Unfinished(items, k) == Unfinished(front, k) + if last in k.success then {} else {last};
  }

  /** The final check of a run: when the items handed to workers and those sent to the history scan got outcomes, and
      nobody else but those reported at once did, then successes, failures and earlier successes number exactly as
      many as the manifest, whose emails are distinct. */
  lemma {:induction false} CountersReachManifest(manifest: seq<Record>, p: Previous, skipped: set<string>, offset: nat,
                                                 seen: seq<map<nat, Row>>, events: seq<Event>)
    requires |seen| == offset <= |manifest|
    requires forall i, j :: 0 <= i < j < |manifest| ==> manifest[i].email != manifest[j].email
    requires var k := Known(p.success, skipped);
             var j := JobsOf(manifest[..offset], k, seen);
             var fed := Passing(j.stage1, k) + WantedOf(manifest[offset..], k);
             var told := j.reported + Reports(j.stage1, k, false) + Reports(manifest[offset..], k, true);
             Emails(events) == EmailsOf(fed) + EmailsOf(j.stage2) + Emails(told)
    ensures var l := After(Opened(p), events);
            l.success + l.failure + Finished(manifest, Known(p.success, skipped)) == |manifest|
  {
    hide JobsOf, After, Opened, EmailsOf, Emails, WantedOf, Reports, Passing;
    var k := Known(p.success, skipped);
    var j := JobsOf(manifest[..offset], k, seen);
    JobsCover(manifest[..offset], k, seen);
    PassingAll(j.stage1, k);
    JobsReach(manifest[..offset], k, seen);
    FeedReaches(manifest[offset..], k);
    EmailsSum(j.stage1, WantedOf(manifest[offset..], k));
    EmailsSnoc([], Record("", 0, false, 0), j.reported, Reports(manifest[offset..], k, true));
    assert j.reported + [] == j.reported;
    EmailsSum(manifest[..offset], manifest[offset..]);
    assert manifest == manifest[..offset] + manifest[offset..];
    assert Unfinished(manifest, k) == Unfinished(manifest[..offset], k) + Unfinished(manifest[offset..], k);
    assert Emails(events) == Unfinished(manifest[..offset], k) + Unfinished(manifest[offset..], k);
    RunCountsMailboxes(p, events);
    FinishedIsRest(manifest, k);
  }

  // ---------------------------------------------------------------- any number of runs

  /** An item that an earlier run skipped and a later one retries is reported as failed when its row is still
      pending under the generation of the manifest. */
  lemma {:induction false} UnskippedIsNotReached()
    ensures var item := Record("a@b", 1, true, 3);
            var k, later := Known({}, {"a@b"}), Known({}, {});
            var rows := map[1 := Row(Pending, 3, Recoverable)];
            && FrozenUpTo(rows, [item], k, 1) && !Narrows(k, later) && Wanted(item, later)
            && FateOf(item, later, Recovered(rows, [item], later)) == Told(Fail("a@b", Recoverable))
  {
    assert "a@b" in {"a@b"};
    var item := Record("a@b", 1, true, 3);
    ResumedIff(item, [item], Known({}, {}), map[1 := Row(Pending, 3, Recoverable)]);
  }

  lemma {:induction false} FrozenForNarrower(rows: map<nat, Row>, manifest: seq<Record>, k: Known, fewer: Known, n: nat)
    requires FrozenUpTo(rows, manifest, k, n) && Narrows(k, fewer)
    ensures FrozenUpTo(rows, manifest, fewer, n)
  {}

  /** What all of these runs wanted: nobody whom one of them knew as finished or skipped. */
  function Ever(launches: seq<Known>): Known {
    if launches == [] then Known({}, {})
    else
      var before, last := Ever(launches[..|launches| - 1]), launches[|launches| - 1];
      Known(before.success + last.success, before.skipped + last.skipped)
  }

  lemma {:induction false} EverNarrows(launches: seq<Known>, n: nat)
    requires n < |launches|
    ensures Narrows(Ever(launches[..n]), Ever(launches[..n + 1])) && Narrows(launches[n], Ever(launches[..n + 1]))
  {
    assert launches[..n + 1][..n] == launches[..n];
  }

  lemma {:induction false} NotEver(launches: seq<Known>, item: Record)
    requires Usable(item) && !Wanted(item, Ever(launches))
    ensures exists m :: 0 <= m < |launches| && !Wanted(item, launches[m])
    decreases |launches|
  {
    if launches != [] {
      var n := |launches| - 1;
      if Wanted(item, launches[n]) {
        NotEver(launches[..n], item);
        var m :| 0 <= m < n && !Wanted(item, launches[..n][m]);
        assert launches[m] == launches[..n][m];
      }
    }
  }

  /** The item's row is gone, or an earlier worker or an administrator has brought it past validation. */
  predicate Settled(item: Record, rows: map<nat, Row>) {
    item.resourceID in rows ==>
      var status := rows[item.resourceID].status;
      status.Identifying? || status.Normal? || status.Disabled? || status.Deleted?
  }

  /** The item's row is pending and was never frozen. */
  predicate PassedOver(item: Record, rows: map<nat, Row>) {
    item.resourceID in rows && rows[item.resourceID].status.Pending? &&
      rows[item.resourceID].generation <= item.generation
  }

  /** Every item the last run wants was handed to a worker or did not need one, unless an earlier run did not want it
      and so did not freeze it. */
  ghost predicate NothingLost(manifest: seq<Record>, launches: seq<Known>, output: seq<Record>, table: map<nat, Row>)
    requires launches != []
  {
    forall i :: 0 <= i < |manifest| && Wanted(manifest[i], launches[|launches| - 1]) ==>
                  || manifest[i] in output || Settled(manifest[i], table)
                  || (PassedOver(manifest[i], table) &&
                    exists m :: 0 <= m < |launches| && !Wanted(manifest[i], launches[m]))
  }

  /** When no run wants what an earlier one did not, there is no exception. */
  lemma {:induction false} NarrowerLosesNothing(manifest: seq<Record>, launches: seq<Known>, output: seq<Record>,
                                                table: map<nat, Row>)
    requires launches != [] && NothingLost(manifest, launches, output, table)
    requires forall i, j :: 0 <= i < j < |launches| ==> Narrows(launches[i], launches[j])
    ensures forall i :: 0 <= i < |manifest| && Wanted(manifest[i], launches[|launches| - 1]) ==>
                          manifest[i] in output || Settled(manifest[i], table)
  {
    var n := |launches| - 1;
    forall i, m | 0 <= i < |manifest| && Wanted(manifest[i], launches[n]) && 0 <= m < |launches|
      ensures Wanted(manifest[i], launches[m])
    {
      assert m < n ==> Narrows(launches[m], launches[n]);
    }
  }

  lemma {:induction false} Stage1IsKept(items: seq<Record>, k: Known, seen: seq<map<nat, Row>>, i: nat)
    requires |seen| == |items| && i < |items| && FateOf(items[i], k, seen[i]).Stage1?
    ensures items[i] in JobsOf(items, k, seen).stage1
    decreases |items|
  {
    var n := |items| - 1;
    if i < n { Stage1IsKept(items[..n], k, seen[..n], i); }
  }

  /** After the rows before the offset are recovered, the items there sorted, and the rest fed, every wanted item is
      with a worker or settled, unless it was not always wanted and was passed over. */
  lemma {:induction false} NothingLeftBehind(manifest: seq<Record>, k: Known, ever: Known, offset: nat,
                                             rows: map<nat, Row>,
                                             chunkSize: nat, i: nat)
    requires offset <= |manifest| && chunkSize > 0 && i < |manifest| && Wanted(manifest[i], k)
    requires FrozenUpTo(rows, manifest, ever, offset) && Drawn(rows, manifest)
    ensures var after := Recovered(rows, manifest[..offset], k);
            var j := JobsOf(manifest[..offset], k, Seen(_ => after, offset, chunkSize));
            || manifest[i] in Passing(j.stage1, k) + WantedOf(manifest[offset..], k) || Settled(manifest[i], rows)
            || (PassedOver(manifest[i], rows) && !Wanted(manifest[i], ever))
  {
    hide JobsOf, Passing, Recovered, FateOf, WantedOf;
    var after := Recovered(rows, manifest[..offset], k);
    var seen := Seen(_ => after, offset, chunkSize);
    var j := JobsOf(manifest[..offset], k, seen);
    JobsCover(manifest[..offset], k, seen);
    PassingAll(j.stage1, k);
    if i < offset {
      if manifest[i].resourceID in rows {
        assert manifest[..offset][i] == manifest[i];
        ResumedIff(manifest[i], manifest[..offset], k, rows);
        if FateOf(manifest[i], k, after).Stage1? { Stage1IsKept(manifest[..offset], k, seen, i); }
      }
    } else {
      assert manifest[offset..][i - offset] == manifest[i];
      WantedAre(manifest[offset..], k, manifest[i]);
    }
  }

  /** Starting the runner again and again on one checkpoint, in freeze mode, each run stopping anywhere: when a
      run feeds to the end, every item it wants whose row it found pending, validating or abnormal was handed to a
      worker, except a pending one that an earlier run had passed over. table is what the last run found. */
  method Campaign(manifest: seq<Record>, launches: seq<Known>, chunkSize: nat, pendingCap: nat, drawn: map<nat, Row>)
    returns (finished: bool, output: seq<Record>, table: map<nat, Row>)
    requires chunkSize > 0 && pendingCap > 0 && Drawn(drawn, manifest)
    ensures finished ==> launches != [] && NothingLost(manifest, launches, output, table)
  {
    hide Drawn, FrozenUpTo, NothingLost, Narrows, Progress, Ever;
    finished, output, table := false, [], drawn;
    var offset: nat, rows := 0, drawn;
    NothingFrozen(rows, manifest, Ever(launches[..0]));
    for n := 0 to |launches|
      invariant offset <= |manifest| && Drawn(rows, manifest) && FrozenUpTo(rows, manifest, Ever(launches[..n]), offset)
      invariant finished ==> n > 0 && NothingLost(manifest, launches[..n], output, table)
    {
      ghost var ever := Ever(launches[..n + 1]);
      EverNarrows(launches, n);
      FrozenForNarrower(rows, manifest, Ever(launches[..n]), ever, offset);
      finished, output, table, offset, rows := Launch(manifest, launches[n], ever, chunkSize, pendingCap, offset, rows);
      if finished { LastLostNothing(manifest, launches, n, output, table); }
    }
    assert launches[..|launches|] == launches;
  }

  /** One run of the campaign. */
  method Launch(manifest: seq<Record>, k: Known, ghost ever: Known, chunkSize: nat, pendingCap: nat, from: nat,
                found: map<nat, Row>)
    returns (finished: bool, output: seq<Record>, table: map<nat, Row>, offset: nat, rows: map<nat, Row>)
    requires chunkSize > 0 && pendingCap > 0 && from <= |manifest| && Narrows(k, ever)
    requires Drawn(found, manifest) && FrozenUpTo(found, manifest, ever, from)
    ensures offset <= |manifest| && Drawn(rows, manifest) && FrozenUpTo(rows, manifest, ever, offset)
    ensures finished ==> forall i :: 0 <= i < |manifest| && Wanted(manifest[i], k) ==>
            KeptOrPassed(manifest[i], output, table, ever)
  {
    hide Drawn, FrozenUpTo, JobsOf, Seen, Passing, WantedOf, Wanted, Settled, Narrows, Progress, Recovered, PassedOver;
    finished, output, offset := false, [], from;
    table := Meanwhile(found);
    ProgressKeeps(found, table, manifest, ever, offset);
    DrawnStill(found, table, manifest);
    var ok;
    ok, rows := RecoverAbandoned(manifest[..offset], k, chunkSize, table);
    ghost var n :| 0 <= n <= offset && rows == Recovered(table, manifest[..offset][..n], k);
    RecoveredProgresses(table, manifest[..offset][..n], k);
    ProgressKeeps(table, rows, manifest, ever, offset);
    DrawnStill(table, rows, manifest);
    if !ok { return; }
    var recovered := rows;
    var jobs := ClassifyJobs(manifest[..offset], k, chunkSize, _ => recovered);
    if jobs.None? { return; }
    var feeder := new Feeder(manifest, k, ever, chunkSize, pendingCap, true, offset, rows);
    finished := feeder.FreezeAndFeed(jobs.value.stage1);
    output, offset, rows := feeder.output, feeder.savedOffset, feeder.rows;
    if finished {
      forall i | 0 <= i < |manifest| && Wanted(manifest[i], k) ensures KeptOrPassed(manifest[i], output, table, ever) {
        NothingLeftBehind(manifest, k, ever, from, table, chunkSize, i);
      }
    }
  }

  ghost predicate KeptOrPassed(item: Record, output: seq<Record>, table: map<nat, Row>, ever: Known) {
    item in output || Settled(item, table) || (PassedOver(item, table) && !Wanted(item, ever))
  }

  lemma {:induction false} LastLostNothing(manifest: seq<Record>, launches: seq<Known>, n: nat, output: seq<Record>,
                                           table: map<nat, Row>)
    requires n < |launches|
    requires forall i :: 0 <= i < |manifest| && Wanted(manifest[i], launches[n]) ==>
                           KeptOrPassed(manifest[i], output, table, Ever(launches[..n + 1]))
    ensures NothingLost(manifest, launches[..n + 1], output, table)
  {
    hide Ever, Settled, PassedOver;
    var soFar := launches[..n + 1];
    forall i | 0 <= i < |manifest| && Wanted(manifest[i], launches[n]) && !Wanted(manifest[i], Ever(soFar))
      ensures exists m :: 0 <= m < |soFar| && !Wanted(manifest[i], soFar[m])
    {
      NotEver(soFar, manifest[i]);
    }
  }

  lemma {:induction false} NothingFrozen(rows: map<nat, Row>, manifest: seq<Record>, k: Known)
    ensures FrozenUpTo(rows, manifest, k, 0)
  {}

  /** What happens to the table between two runs. */
  method Meanwhile(rows: map<nat, Row>) returns (after: map<nat, Row>)
    ensures Progress(rows, after)
  {
    var changes: map<nat, Row>, gone: set<nat> := *, *;
    after := map id | id in rows && id !in gone ::
      if id in changes && changes[id].generation >= rows[id].generation then changes[id] else rows[id];
  }
}
