/** The slot-bounded, checkpointed producer of the mailbox validation runner: it freezes manifest items in
    batches as slots allow, saves how far it came, and only then hands them to the workers. */
module FreezeFeed {
  import opened Ledgers

  datatype Record = Record(email: string, resourceID: nat, eligible: bool, generation: nat)

  datatype Status = Pending | Validating | Identifying | Normal | Abnormal | Disabled | Deleted

  /** A row of microsoft_resources; failure is what its last error message classifies as. */
  datatype Row = Row(status: Status, generation: nat, failure: FailureClass)

  /** The mailboxes that earlier runs finished, and those whose failure is not retried. */
  datatype Known = Known(success: set<string>, skipped: set<string>)

  predicate Passes(item: Record, k: Known) { item.email !in k.success && item.email !in k.skipped }

  predicate Usable(item: Record) { item.eligible && item.resourceID != 0 }

  predicate Wanted(item: Record, k: Known) { Passes(item, k) && Usable(item) }

  function Passing(items: seq<Record>, k: Known): seq<Record> {
    if items == [] then []
    else
      var last := items[|items| - 1];
      Passing(items[..|items| - 1], k) + if Passes(last, k) then [last] else []
  }

  function WantedOf(items: seq<Record>, k: Known): seq<Record> {
    if items == [] then []
    else
      var last := items[|items| - 1];
      WantedOf(items[..|items| - 1], k) + if Wanted(last, k) then [last] else []
  }

  /** What the tracker is told about an item that is not emitted; an item that succeeded before is passed over. */
  function ReportOf(item: Record, k: Known, checkUsable: bool): seq<Event> {
    if item.email in k.success then []
    else if item.email in k.skipped then [Reject(item.email)]
    else if checkUsable && !Usable(item) then [Fail(item.email, Unrecoverable)]
    else []
  }

  function Reports(items: seq<Record>, k: Known, checkUsable: bool): seq<Event> {
    if items == [] then []
    else Reports(items[..|items| - 1], k, checkUsable) + ReportOf(items[|items| - 1], k, checkUsable)
  }

  lemma {:induction false} OneMore(items: seq<Record>, start: nat, end: nat, k: Known)
    requires start <= end < |items|
    ensures WantedOf(items[start..end + 1], k) == WantedOf(items[start..end], k) +
            if Wanted(items[end], k) then [items[end]] else []
    ensures Passing(items[start..end + 1], k) == Passing(items[start..end], k) +
            if Passes(items[end], k) then [items[end]] else []
    ensures forall check ::
            Reports(items[start..end + 1], k, check) ==
            Reports(items[start..end], k, check) + ReportOf(items[end], k, check)
  {
    var s := items[start..end + 1];
    assert s[..|s| - 1] == items[start..end] && s[|s| - 1] == items[end];
  }

  lemma {:induction false} Joined(items: seq<Record>, start: nat, mid: nat, end: nat, k: Known, check: bool)
    requires start <= mid <= end <= |items|
    ensures WantedOf(items[start..end], k) == WantedOf(items[start..mid], k) + WantedOf(items[mid..end], k)
    ensures Reports(items[start..end], k, check) ==
            Reports(items[start..mid], k, check) + Reports(items[mid..end], k, check)
    decreases end
  {
    hide WantedOf, Reports, ReportOf, Wanted;
    if mid < end {
      Joined(items, start, mid, end - 1, k, check);
      OneMore(items, start, end - 1, k);
      OneMore(items, mid, end - 1, k);
    } else {
      assert items[mid..end] == [];
      NothingWanted(k);
    }
  }

  lemma {:induction false} NothingWanted(k: Known)
    ensures WantedOf([], k) == [] && Passing([], k) == [] && forall check :: Reports([], k, check) == []
  {}

  lemma {:induction false} WantedAre(items: seq<Record>, k: Known, item: Record)
    ensures item in WantedOf(items, k) <==> item in items && Wanted(item, k)
    ensures item in WantedOf(items, k) <==>
            && item in items && item.email !in k.success && item.email !in k.skipped
            && item.eligible && item.resourceID != 0
    decreases |items|
  {
    if items != [] {
      WantedAre(items[..|items| - 1], k, item);
      assert items == items[..|items| - 1] + [items[|items| - 1]];
    }
  }

  /** What is reported of the items that are not handed out: a rejection for each skipped one, and an unrecoverable
      failure for each that cannot be validated; nothing for one that succeeded before. */
  lemma {:induction false} ReportsAre(items: seq<Record>, k: Known, check: bool, e: Event)
    ensures e in Reports(items, k, check) <==>
            exists item :: item in items && item.email !in k.success &&
              if item.email in k.skipped then e == Reject(item.email)
              else check && (!item.eligible || item.resourceID == 0) && e == Fail(item.email, Unrecoverable)
    decreases |items|
  {
    if items != [] {
      var n := |items| - 1;
      ReportsAre(items[..n], k, check, e);
      assert items == items[..n] + [items[n]];
    }
  }

  /** Whatever is wanted under the second is wanted under the first. */
  predicate Narrows(k: Known, fewer: Known) { k.success <= fewer.success && k.skipped <= fewer.skipped + fewer.success }

  // ---------------------------------------------------------------- frozen items

  /** The items before n that are wanted have been frozen since the manifest was drawn up. */
  ghost predicate FrozenUpTo(rows: map<nat, Row>, manifest: seq<Record>, k: Known, n: nat) {
    forall i :: 0 <= i < n && i < |manifest| && Wanted(manifest[i], k) && manifest[i].resourceID in rows ==>
                  manifest[i].generation < rows[manifest[i].resourceID].generation
  }

  /** Generations never go back behind those in the manifest. */
  ghost predicate Drawn(rows: map<nat, Row>, manifest: seq<Record>) {
    forall i :: 0 <= i < |manifest| && manifest[i].resourceID in rows ==>
                  manifest[i].generation <= rows[manifest[i].resourceID].generation
  }

  /** What others may do to the table: rows may go, none returns, and generations do not decrease. */
  ghost predicate Progress(before: map<nat, Row>, after: map<nat, Row>) {
    forall id :: id in after ==> id in before && before[id].generation <= after[id].generation
  }

  lemma {:induction false} ProgressKeeps(before: map<nat, Row>, after: map<nat, Row>, manifest: seq<Record>, k: Known,
                                         n: nat)
    requires Progress(before, after) && FrozenUpTo(before, manifest, k, n)
    ensures FrozenUpTo(after, manifest, k, n)
  {}

  function Frozen(rows: map<nat, Row>, ids: set<nat>): map<nat, Row> {
    map id | id in rows :: if id in ids then Row(Pending, rows[id].generation + 1, Recoverable) else rows[id]
  }

  function IDs(batch: seq<Record>): set<nat> { set item | item in batch && Usable(item) :: item.resourceID }

  /** The ids one update names, in order and with repetitions. */
  function Named(batch: seq<Record>): seq<nat> {
    if batch == [] then []
    else
      var last := batch[|batch| - 1];
      Named(batch[..|batch| - 1]) + if Usable(last) then [last.resourceID] else []
  }

  predicate Unrepeated(ids: seq<nat>) { forall i, j :: 0 <= i < j < |ids| ==> ids[i] != ids[j] }

  /** Freezing what this run wants of a range reaches what every run so far wanted of it. */
  lemma {:induction false} FreezeReaches(rows: map<nat, Row>, manifest: seq<Record>, k: Known, ever: Known,
                                         start: nat, end: nat, batch: seq<Record>)
    requires start <= end <= |manifest| && batch == WantedOf(manifest[start..end], k) && IDs(batch) <= rows.Keys
    requires FrozenUpTo(rows, manifest, ever, start) && Drawn(rows, manifest) && Narrows(k, ever)
    ensures FrozenUpTo(Frozen(rows, IDs(batch)), manifest, ever, end)
  {
    forall i | 0 <= i < end && Wanted(manifest[i], ever) && manifest[i].resourceID in rows
      ensures var id := manifest[i].resourceID;
              id in rows && manifest[i].generation < Frozen(rows, IDs(batch))[id].generation
    {
      if i >= start {
        assert manifest[start..end][i - start] == manifest[i];
        WantedAre(manifest[start..end], k, manifest[i]);
        assert manifest[i].resourceID in IDs(batch);
      }
    }
  }

  // ---------------------------------------------------------------- the program

  datatype Select = Cancelled | Taken | Full

  class Feeder {
    const manifest: seq<Record>
    const known: Known
    ghost const ever: Known     // of what every run on this checkpoint wanted, the rows are frozen
    const chunkSize: nat
    const pendingCap: nat
    const freeze: bool          // !pendingNoFreeze
    var freezeOffset: nat
    var savedOffset: nat        // in the checkpoint file
    var rows: map<nat, Row>     // the database
    var slots: nat              // slots taken
    var released: nat           // emitted items whose slot was given back downstream
    var output: seq<Record>
    var reported: seq<Event>

    constructor (manifest: seq<Record>, known: Known, ghost ever: Known, chunkSize: nat, pendingCap: nat, freeze: bool,
                 offset: nat, rows: map<nat, Row>)
      requires chunkSize > 0 && pendingCap > 0 && offset <= |manifest| && Narrows(known, ever)
      requires Drawn(rows, manifest) && (freeze ==> FrozenUpTo(rows, manifest, ever, offset))
      ensures Valid() && Held() == 0 && freezeOffset == savedOffset == offset && output == [] && reported == []
      ensures this.manifest == manifest && this.known == known && this.ever == ever && this.freeze == freeze
    {
      this.manifest, this.known, this.ever, this.freeze := manifest, known, ever, freeze;
      this.chunkSize, this.pendingCap := chunkSize, pendingCap;
      freezeOffset, savedOffset, this.rows, slots, released, output, reported := offset, offset, rows, 0, 0, [], [];
    }

    /** Slots taken by the producer for items it has not emitted. */
    ghost function Held(): int
      reads this
    {
      slots - (|output| - released)
    }

    ghost predicate Valid()
      reads this
    {
      && chunkSize > 0 && savedOffset <= freezeOffset <= |manifest|
      && released <= |output| && Held() >= 0 && slots <= pendingCap
      && Drawn(rows, manifest) && Narrows(known, ever)
      && (freeze ==> FrozenUpTo(rows, manifest, ever, savedOffset))
    }

    /** Time passes: workers give slots back and update their rows. */
    method Others()
      requires Valid()
      modifies this`slots, this`released, this`rows
      ensures Valid() && Held() == old(Held()) && Progress(old(rows), rows)
    {
      hide FrozenUpTo, Drawn;
      var n: nat, changes: map<nat, Row>, gone: set<nat> := *, *, *;
      if n <= |output| - released { slots, released := slots - n, released + n; }
      var after := map id | id in rows && id !in gone ::
        if id in changes && changes[id].generation >= rows[id].generation then changes[id] else rows[id];
      assert Progress(rows, after);
      if freeze { ProgressKeeps(rows, after, manifest, ever, savedOffset); }
      assert Drawn(after, manifest) by { DrawnStill(rows, after, manifest); }
      rows := after;
    }

    /** Wait for a slot, or until the run is cancelled. */
    method AcquireSlot() returns (ok: bool)
      requires Valid()
      modifies this`slots, this`released, this`rows
      ensures Valid() && Held() == old(Held()) + (if ok then 1 else 0) && Progress(old(rows), rows)
    {
      Others();
      ok := *;
      if !ok || slots == pendingCap { return false; }
      slots := slots + 1;
    }

    /** Take a slot if there is one now. */
    method TrySlot() returns (select: Select)
      requires Valid()
      modifies this`slots, this`released, this`rows
      ensures Valid() && Held() == old(Held()) + (if select.Taken? then 1 else 0) && Progress(old(rows), rows)
    {
      Others();
      var cancelled: bool := *;
      if cancelled { return Cancelled; }
      if slots == pendingCap { return Full; }
      slots := slots + 1;
      return Taken;
    }

    method ReleaseSlots(n: nat)
      requires Valid() && n <= Held()
      modifies this`slots
      ensures Valid() && Held() == old(Held()) - n
    {
      slots := slots - n;
    }

    /** Hand an item to the workers, unless the run is cancelled first. */
    method Emit(item: Record) returns (ok: bool)
      requires Valid() && Held() > 0
      modifies this`output, this`slots, this`released, this`rows
      ensures Valid() && output == old(output) + if ok then [item] else []
      ensures Held() == old(Held()) - if ok then 1 else 0
    {
      ok := *;
      if ok { output := output + [item]; }
      Others();
    }

    /** The checks both gathering loops make before they need a slot. */
    method Check(item: Record) returns (wanted: bool)
      modifies this`reported
      ensures wanted == Wanted(item, known) && reported == old(reported) + ReportOf(item, known, true)
    {
      if item.email in known.success { return false; }
      if item.email in known.skipped {
        reported := reported + [Reject(item.email)];
        return false;
      }
      if !item.eligible || item.resourceID == 0 {
        reported := reported + [Fail(item.email, Unrecoverable)];
        return false;
      }
      return true;
    }

    /** One transaction; nothing of it is applied unless every row of the batch is there, once. A failure may
        also be a commit whose answer was lost. */
    method FreezeChunk(batch: seq<Record>) returns (ok: bool)
      requires Valid()
      modifies this`rows
      ensures Valid()
      ensures ok ==> IDs(batch) <= old(rows).Keys && rows == Frozen(old(rows), IDs(batch))
      ensures ok ==> Unrepeated(Named(batch))
      ensures ok ==> forall item :: item in batch && item.eligible && item.resourceID != 0 ==>
                && item.resourceID in old(rows) && rows[item.resourceID].status.Pending?
                && rows[item.resourceID].generation == old(rows)[item.resourceID].generation + 1
      ensures forall id :: id in rows <==> id in old(rows)
      ensures forall id :: id in rows && id !in IDs(batch) ==> rows[id] == old(rows)[id]
      ensures !ok ==> rows == old(rows) || (IDs(batch) <= old(rows).Keys && rows == Frozen(old(rows), IDs(batch)))
    {
      hide FrozenUpTo, Drawn;
      var ids: seq<nat>, i := [], 0;
      while i < |batch|
        invariant i <= |batch| && (forall id :: id in ids <==> id in IDs(batch[..i])) && ids == Named(batch[..i])
      {
        assert batch[..i + 1] == batch[..i] + [batch[i]] && batch[..i + 1][..i] == batch[..i];
        if batch[i].eligible && batch[i].resourceID != 0 { ids := ids + [batch[i].resourceID]; }
        i := i + 1;
      }
      assert batch[..|batch|] == batch;
      if ids == [] { assert Frozen(rows, IDs(batch)) == rows; return true; }
      var updated: bool, committed: bool, answered: bool := *, *, *;
      var matched := set id | id in ids && id in rows;
      if !updated || |matched| != |ids| || !committed { return false; }
      DistinctRows(ids, rows.Keys, matched);
      assert Progress(rows, Frozen(rows, IDs(batch)));
      DrawnStill(rows, Frozen(rows, IDs(batch)), manifest);
      if freeze { ProgressKeeps(rows, Frozen(rows, IDs(batch)), manifest, ever, savedOffset); }
      rows := Frozen(rows, IDs(batch));
      return answered;
    }

    method Save() returns (ok: bool)
      requires Valid() && (freeze ==> FrozenUpTo(rows, manifest, ever, freezeOffset))
      modifies this`savedOffset
      ensures Valid() && savedOffset == if ok then freezeOffset else old(savedOffset)
    {
      ok := *;
      if ok { savedOffset := freezeOffset; }
    }

    /** First part: the items of an earlier run that still need a worker. */
    method FeedResumed(resume: seq<Record>) returns (ok: bool)
      requires Valid() && Held() == 0
      modifies this`output, this`slots, this`released, this`rows, this`reported
      ensures Valid() && Held() == 0
      ensures output <= old(output) + Passing(resume, known)
      ensures reported <= old(reported) + Reports(resume, known, false)
      ensures ok ==> output == old(output) + Passing(resume, known)
      ensures ok ==> reported == old(reported) + Reports(resume, known, false)
    {
      hide FrozenUpTo, Drawn, Passing, Reports;
      NothingWanted(known);
      assert resume[0..0] == [];
      var attached: bool := *;
      if !attached { return false; }
      for i := 0 to |resume|
        invariant Valid() && Held() == 0
        invariant output == old(output) + Passing(resume[0..i], known)
        invariant reported == old(reported) + Reports(resume[0..i], known, false)
      {
        OneMore(resume, 0, i, known);
        PrefixOf(resume, i, known);
        PrefixOf(resume, i + 1, known);
        var item := resume[i];
        if item.email in known.success { continue; }
        if item.email in known.skipped {
          reported := reported + [Reject(item.email)];
          continue;
        }
        var acquired := AcquireSlot();
        if !acquired { return false; }
        var sent := Emit(item);
        if !sent {
          ReleaseSlots(1);
          return false;
        }
      }
      assert resume[0..|resume|] == resume;
      return true;
    }

    /** The batch from start on: the first wanted item is waited for. */
    method GatherFirst(start: nat) returns (ok: bool, batch: seq<Record>, next: nat)
      requires Valid() && Held() == 0 && start < |manifest|
      modifies this`slots, this`released, this`rows, this`reported
      ensures Valid() && Held() == (if ok then |batch| else 0) && |batch| <= 1
      ensures start < next <= |manifest|
      ensures reported == old(reported) + Reports(manifest[start..next], known, true)
      ensures ok ==> batch == WantedOf(manifest[start..next], known) && (batch == [] ==> next == |manifest|)
    {
      hide FrozenUpTo, Drawn, WantedOf, Reports, ReportOf, Wanted;
      NothingWanted(known);
      batch, next := [], start;
      assert manifest[start..start] == [];
      while next < |manifest| && |batch| == 0
        invariant Valid() && Held() == |batch| <= 1 && start <= next <= |manifest|
        invariant batch == WantedOf(manifest[start..next], known)
        invariant reported == old(reported) + Reports(manifest[start..next], known, true)
        invariant next == start ==> batch == []
        decreases |manifest| - next
      {
        OneMore(manifest, start, next, known);
        var item := manifest[next];
        next := next + 1;
        var wanted := Check(item);
        if !wanted { continue; }
        var acquired := AcquireSlot();
        if !acquired { return false, batch, next; }
        batch := batch + [item];
      }
      return true, batch, next;
    }

    /** Further items are taken while slots last. */
    method GatherMore(start: nat, first: seq<Record>, from: nat) returns (ok: bool, batch: seq<Record>, next: nat)
      requires Valid() && Held() == |first| <= 1 && start < from <= |manifest| &&
               first == WantedOf(manifest[start..from], known)
      modifies this`slots, this`released, this`rows, this`reported
      ensures Valid() && Held() == (if ok then |batch| else 0)
      ensures from <= next <= |manifest| && |batch| <= chunkSize && |batch| <= pendingCap
      ensures reported <= old(reported) + Reports(manifest[from..], known, true)
      ensures ok ==> batch == WantedOf(manifest[start..next], known)
      ensures ok ==> reported == old(reported) + Reports(manifest[from..next], known, true)
    {
      hide FrozenUpTo, Drawn, Narrows, WantedOf, Reports, ReportOf, Wanted, Passing, Passes;
      NothingWanted(known);
      var maxBatch := if chunkSize < pendingCap then chunkSize else pendingCap;
      batch, next := first, from;
      assert manifest[from..from] == [];
      while next < |manifest| && |batch| < maxBatch
        invariant Valid() && Held() == |batch| <= maxBatch && from <= next <= |manifest|
        invariant batch == WantedOf(manifest[start..next], known)
        invariant reported == old(reported) + Reports(manifest[from..next], known, true)
        decreases |manifest| - next
      {
        OneMore(manifest, start, next, known);
        OneMore(manifest, from, next, known);
        ReportedSoFar(manifest, from, next, known);
        var item := manifest[next];
        var wanted := Check(item);
        if !wanted {
          next := next + 1;
          continue;
        }
        NotReported(item, known);
        var select := TrySlot();
        if select.Cancelled? {
          ReleaseSlots(|batch|);
          return false, batch, next;
        }
        if select.Full? { break; }
        batch := batch + [item];
        next := next + 1;
      }
      ReportedSoFar(manifest, from, next, known);
      return true, batch, next;
    }

    /** Freeze the batch if it has to be, and save that everything before next is dealt with. */
    method Commit(start: nat, batch: seq<Record>, next: nat) returns (ok: bool)
      requires Valid() && Held() == |batch| && start == savedOffset == freezeOffset < next <= |manifest|
      requires batch == WantedOf(manifest[start..next], known)
      modifies this`slots, this`rows, this`freezeOffset, this`savedOffset
      ensures Valid() && Held() == (if ok then |batch| else 0)
      ensures savedOffset == if ok then next else start
      ensures ok ==> freezeOffset == next
    {
      hide FrozenUpTo, Drawn, WantedOf, Wanted;
      if |batch| > 0 {
        var attached: bool := *;
        if !attached {
          ReleaseSlots(|batch|);
          return false;
        }
        if freeze {
          ghost var before := rows;
          ok := FreezeChunk(batch);
          if !ok {
            ReleaseSlots(|batch|);
            return;
          }
          FreezeReaches(before, manifest, known, ever, start, next, batch);
        }
      } else if freeze {
        NothingToFreeze(rows, manifest, known, ever, start, next);
      }
      freezeOffset := next;
      ok := Save();
      if !ok { ReleaseSlots(|batch|); }
    }

    /** One round of the second part. */
    method FeedBatch() returns (ok: bool)
      requires Valid() && Held() == 0 && savedOffset == freezeOffset < |manifest|
      modifies this
      ensures Valid() && Held() == 0 && old(savedOffset) <= savedOffset
      ensures output <= old(output) + WantedOf(manifest[old(savedOffset)..savedOffset], known)
      ensures reported <= old(reported) + Reports(manifest[old(savedOffset)..], known, true)
      ensures ok ==>
        && old(savedOffset) < savedOffset == freezeOffset
        && output == old(output) + WantedOf(manifest[old(savedOffset)..savedOffset], known)
        && reported == old(reported) + Reports(manifest[old(savedOffset)..savedOffset], known, true)
    {
      hide FrozenUpTo, Drawn, WantedOf, Reports, Wanted;
      var start := freezeOffset;
      NothingWanted(known);
      assert manifest[start..start] == [];
      var batch, next;
      ok, batch, next := GatherFirst(start);
      ReportedSoFar(manifest, start, next, known);
      if !ok { return; }
      ghost var mid := next;
      Joined(manifest, start, mid, |manifest|, known, true);
      assert manifest[start..|manifest|] == manifest[start..] && manifest[mid..|manifest|] == manifest[mid..];
      ok, batch, next := GatherMore(start, batch, next);
      if !ok { return; }
      Joined(manifest, start, mid, next, known, true);
      ok := Commit(start, batch, next);
      if !ok { return; }
      ok := EmitBatch(batch);
    }

    method EmitBatch(batch: seq<Record>) returns (ok: bool)
      requires Valid() && Held() == |batch|
      modifies this
      ensures Valid() && Held() == 0
      ensures freezeOffset == old(freezeOffset) && savedOffset == old(savedOffset) && reported == old(reported)
      ensures output <= old(output) + batch
      ensures ok ==> output == old(output) + batch
    {
      for index := 0 to |batch|
        invariant Valid() && Held() == |batch| - index
        invariant freezeOffset == old(freezeOffset) && savedOffset == old(savedOffset) && reported == old(reported)
        invariant output == old(output) + batch[..index]
      {
        ok := Emit(batch[index]);
        if !ok {
          ReleaseSlots(|batch| - index);
          return;
        }
        assert batch[..index + 1] == batch[..index] + [batch[index]];
      }
      assert batch[..|batch|] == batch;
      return true;
    }

    /** The whole producer. A normal return has emitted exactly what still had to be done, in order; every
        return gives back the slots of what it did not emit, and nothing is emitted before the checkpoint
        covers it. */
    method FreezeAndFeed(resume: seq<Record>) returns (ok: bool)
      requires Valid() && Held() == 0 && savedOffset == freezeOffset
      modifies this
      ensures Valid() && Held() == 0 && old(savedOffset) <= savedOffset
      ensures output <= old(output) + Passing(resume, known) + WantedOf(manifest[old(savedOffset)..savedOffset], known)
      ensures ok ==>
        && savedOffset == freezeOffset == |manifest|
        && output == old(output) + Passing(resume, known) + WantedOf(manifest[old(freezeOffset)..], known)
        && reported == old(reported) + Reports(resume, known, false) +
             Reports(manifest[old(freezeOffset)..], known, true)
    {
      hide FrozenUpTo, Drawn, WantedOf, Reports, Passing, Wanted;
      ghost var first := freezeOffset;
      NothingWanted(known);
      assert manifest[first..first] == [];
      ok := FeedResumed(resume);
      if !ok { return; }
      while freezeOffset < |manifest|
        invariant Valid() && Held() == 0 && first <= savedOffset == freezeOffset
        invariant output == old(output) + Passing(resume, known) + WantedOf(manifest[first..savedOffset], known)
        invariant reported ==
                  old(reported) + Reports(resume, known, false) + Reports(manifest[first..savedOffset], known, true)
        decreases |manifest| - freezeOffset
      {
        ghost var mid := savedOffset;
        ok := FeedBatch();
        Joined(manifest, first, mid, savedOffset, known, true);
        if !ok { return; }
      }
      assert manifest[first..|manifest|] == manifest[first..];
      return true;
    }
  }

  lemma {:induction false} PrefixOf(items: seq<Record>, n: nat, k: Known)
    requires n <= |items|
    ensures Passing(items[0..n], k) <= Passing(items, k)
    ensures forall check :: Reports(items[0..n], k, check) <= Reports(items, k, check)
    decreases |items| - n
  {
    if n < |items| {
      PrefixOf(items, n + 1, k);
      OneMore(items, 0, n, k);
    } else {
      assert items[0..n] == items;
    }
  }

  lemma {:induction false} ReportedSoFar(items: seq<Record>, start: nat, n: nat, k: Known)
    requires start <= n <= |items|
    ensures Reports(items[start..n], k, true) <= Reports(items[start..], k, true)
  {
    Joined(items, start, n, |items|, k, true);
    assert items[start..|items|] == items[start..];
  }

  lemma {:induction false} NotReported(item: Record, k: Known)
    requires Wanted(item, k)
    ensures ReportOf(item, k, true) == []
  {}

  lemma {:induction false} NothingToFreeze(rows: map<nat, Row>, manifest: seq<Record>, k: Known, ever: Known,
                                           start: nat, end: nat)
    requires start <= end <= |manifest| && WantedOf(manifest[start..end], k) == []
    requires FrozenUpTo(rows, manifest, ever, start) && Narrows(k, ever)
    ensures FrozenUpTo(rows, manifest, ever, end)
  {
    forall i | start <= i < end ensures !Wanted(manifest[i], ever) {
      assert manifest[start..end][i - start] == manifest[i];
      WantedAre(manifest[start..end], k, manifest[i]);
    }
  }

  lemma {:induction false} DrawnStill(before: map<nat, Row>, after: map<nat, Row>, manifest: seq<Record>)
    requires Progress(before, after) && Drawn(before, manifest)
    ensures Drawn(after, manifest)
  {}

  lemma {:induction false} DistinctRows(ids: seq<nat>, keys: set<nat>, matched: set<nat>)
    requires matched == (set id | id in ids && id in keys)
    ensures |matched| <= |ids| && (|matched| == |ids| ==> forall id :: id in ids ==> id in keys)
    ensures |matched| == |ids| ==> Unrepeated(ids)
    decreases |ids|
  {
    if ids != [] {
      var rest := ids[1..];
      var m := set id | id in rest && id in keys;
      DistinctRows(rest, keys, m);
      assert matched == m + if ids[0] in keys then {ids[0]} else {};
    }
  }
}
