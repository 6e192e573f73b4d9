/** The paused alias queue drainer: one dispatcher hands listed tasks to workers through a bounded channel and
    learns from a second channel what became of them, under a cap on the tasks of a run. */
module QueueDrainer {
  import opened Options
  import opened Text

  type ID = string

  const DELETE_RETRY := 5_000  // milliseconds

  /** What a worker reports: the task was deleted from the queue, or it may be tried again at some time. */
  datatype Result = Result(id: ID, deleted: bool, retryAt: Option<int>)

  /** How far a worker is: idle, at work, done, or done and counted but not yet reported. */
  datatype Hand = Idle | Working(id: ID) | Done(result: Result) | Counted(result: Result)

  /** A task handed out, when, and the last report about it by then. */
  datatype Offer = Offer(id: ID, at: int, last: Option<Result>)

  /** What processing a task comes to: it has another type or no payload, it was processed, or it failed; then the run
      was cancelled, or its schedule was released for a retry, or that failed too. */
  datatype Processing = Unsupported | Processed | Cancelled | Released | NotReleased

  datatype Ending = Failed | Unpaused | CapReached | Emptied | Stopped | Running

  function Bag(h: Hand): multiset<ID> {
    match h
    case Idle => multiset{}
    case Working(id) => multiset{id}
    case Done(r) => multiset{r.id}
    case Counted(r) => multiset{r.id}
  }

  function HandBag(hands: seq<Hand>): multiset<ID> {
    if hands == [] then multiset{} else Bag(hands[0]) + HandBag(hands[1..])
  }

  function CountedIn(hands: seq<Hand>): nat {
    if hands == [] then 0 else (if hands[0].Counted? then 1 else 0) + CountedIn(hands[1..])
  }

  lemma {:induction false} HandChanges(hands: seq<Hand>, i: nat, h: Hand)
    requires i < |hands|
    ensures HandBag(hands[i := h]) + Bag(hands[i]) == HandBag(hands) + Bag(h)
    decreases i
  {
    hide Bag;
    var rest := hands[1..];
    if i == 0 {
      assert hands[i := h][1..] == rest;
      Swapped(Bag(h), HandBag(rest), HandBag(rest), Bag(hands[0]), Bag(hands[0]));
      Swapped(Bag(hands[0]), HandBag(rest), HandBag(rest), Bag(h), Bag(h));
    } else {
      assert hands[i := h][1..] == rest[i - 1 := h] && rest[i - 1] == hands[i];
      HandChanges(rest, i - 1, h);
      Swapped(Bag(hands[0]), HandBag(rest[i - 1 := h]), HandBag(rest), Bag(hands[i]), Bag(h));
    }
  }

  lemma {:induction false} Swapped(a: multiset<ID>, b: multiset<ID>, c: multiset<ID>, d: multiset<ID>, e: multiset<ID>)
    requires b + d == c + e
    ensures a + b + d == a + c + e && a + b == b + a
  {
    assert a + b + d == a + (b + d);
    assert a + c + e == a + (c + e);
  }

  lemma {:induction false} CountChanges(hands: seq<Hand>, i: nat, h: Hand)
    requires i < |hands|
    ensures CountedIn(hands[i := h]) + (if hands[i].Counted? then 1 else 0) == CountedIn(hands) +
            if h.Counted? then 1 else 0
    decreases i
  {
    var rest := hands[1..];
    if i == 0 {
      assert hands[i := h][1..] == rest;
    } else {
      assert hands[i := h][1..] == rest[i - 1 := h] && rest[i - 1] == hands[i];
      CountChanges(rest, i - 1, h);
    }
  }

  lemma {:induction false} HandIsIn(hands: seq<Hand>, i: nat)
    requires i < |hands|
    ensures Bag(hands[i]) <= HandBag(hands)
    decreases i
  {
    if i > 0 { HandIsIn(hands[1..], i - 1); }
  }

  lemma {:induction false} TwoHands(hands: seq<Hand>, i: nat, j: nat)
    requires i < j < |hands|
    ensures Bag(hands[i]) + Bag(hands[j]) <= HandBag(hands)
    decreases i
  {
    hide Bag;
    var rest := hands[1..];
    assert hands[j] == rest[j - 1] && HandBag(hands) == Bag(hands[0]) + HandBag(rest);
    if i == 0 {
      HandIsIn(rest, j - 1);
    } else {
      assert hands[i] == rest[i - 1];
      TwoHands(rest, i - 1, j - 1);
    }
  }

  function IDs(results: seq<Result>): seq<ID> { seq(|results|, i requires 0 <= i < |results| => results[i].id) }

  /** A task that was not deleted is offered again only when the time its last report named has passed. */
  predicate InTime(o: Offer) {
    o.last.Some? && !o.last.value.deleted ==> o.last.value.retryAt.Some? && o.last.value.retryAt.value <= o.at
  }

  /** One or the other, as every report says. */
  predicate Clear(r: Result) { r.deleted <==> r.retryAt.None? }

  /** Everything that is out: in a channel, with a worker, or lost with one. */
  function Out(work: seq<ID>, hands: seq<Hand>, results: seq<Result>, dropped: seq<ID>): multiset<ID> {
    multiset(work) + HandBag(hands) + multiset(IDs(results)) + multiset(dropped)
  }

  /** Every assigned task is in one place, and nothing else is out. */
  ghost predicate Placed(work: seq<ID>, hands: seq<Hand>, results: seq<Result>, dropped: seq<ID>, claimed: set<ID>) {
    Out(work, hands, results, dropped) == multiset(claimed)
  }

  ghost predicate ClearAll(results: seq<Result>, hands: seq<Hand>) {
    && (forall r :: r in results ==> Clear(r))
    && (forall h :: h in hands && (h.Done? || h.Counted?) ==> Clear(h.result))
  }

  /** The retry times are those of the last reports. */
  ghost predicate Remembered(retryAfter: map<ID, int>, last: map<ID, Result>) {
    && (forall id :: id in retryAfter <==> id in last && !last[id].deleted)
    && (forall id :: id in retryAfter ==> last[id].retryAt == Some(retryAfter[id]))
  }

  lemma {:induction false} RemembersOne(retryAfter: map<ID, int>, last: map<ID, Result>, r: Result)
    requires Remembered(retryAfter, last) && Clear(r)
    ensures r.retryAt.None? ==> Remembered(retryAfter - {r.id}, last[r.id := r])
    ensures r.retryAt.Some? ==> Remembered(retryAfter[r.id := r.retryAt.value], last[r.id := r])
  {}

  lemma {:induction false} Taken(work: seq<ID>, hands: seq<Hand>, results: seq<Result>, dropped: seq<ID>,
                                 claimed: set<ID>, i: nat)
    requires Placed(work, hands, results, dropped, claimed) && i < |hands| && hands[i].Idle? && work != []
    requires ClearAll(results, hands)
    ensures Placed(work[1..], hands[i := Working(work[0])], results, dropped, claimed)
    ensures CountedIn(hands[i := Working(work[0])]) == CountedIn(hands) &&
            ClearAll(results, hands[i := Working(work[0])])
  {
    hide HandBag, Clear;
    assert work == [work[0]] + work[1..];
    HandChanges(hands, i, Working(work[0]));
    CountChanges(hands, i, Working(work[0]));
    HandsKept(hands, i, Working(work[0]));
    assert multiset(work) == multiset{work[0]} + multiset(work[1..]);
    assert HandBag(hands[i := Working(work[0])]) == HandBag(hands) + multiset{work[0]};
  }

  lemma {:induction false} Worked(work: seq<ID>, hands: seq<Hand>, results: seq<Result>, dropped: seq<ID>,
                                  claimed: set<ID>, i: nat, h: Hand)
    requires Placed(work, hands, results, dropped, claimed) && i < |hands| && Bag(hands[i]) == Bag(h)
    requires ClearAll(results, hands) && (h.Done? || h.Counted? ==> Clear(h.result))
    ensures Placed(work, hands[i := h], results, dropped, claimed) && ClearAll(results, hands[i := h])
    ensures CountedIn(hands[i := h]) + (if hands[i].Counted? then 1 else 0) == CountedIn(hands) +
            if h.Counted? then 1 else 0
  {
    hide HandBag, Bag, Clear;
    HandChanges(hands, i, h);
    CountChanges(hands, i, h);
    HandsKept(hands, i, h);
    SameBag(HandBag(hands[i := h]), HandBag(hands), Bag(h));
  }

  lemma {:induction false} SameBag(a: multiset<ID>, b: multiset<ID>, c: multiset<ID>)
    requires a + c == b + c
    ensures a == b
  {
    forall x ensures a[x] == b[x] {
      assert (a + c)[x] == (b + c)[x];
    }
  }

  lemma {:induction false} Reported(work: seq<ID>, hands: seq<Hand>, results: seq<Result>, dropped: seq<ID>,
                                    claimed: set<ID>, i: nat)
    requires Placed(work, hands, results, dropped, claimed) && i < |hands| && hands[i].Counted? &&
             ClearAll(results, hands)
    ensures Placed(work, hands[i := Idle], results + [hands[i].result], dropped, claimed)
    ensures Placed(work, hands[i := Idle], results, dropped + [hands[i].result.id], claimed)
    ensures CountedIn(hands[i := Idle]) + 1 == CountedIn(hands)
    ensures ClearAll(results + [hands[i].result], hands[i := Idle])
  {
    hide HandBag, Clear;
    HandChanges(hands, i, Idle);
    CountChanges(hands, i, Idle);
    HandsKept(hands, i, Idle);
    var r := hands[i].result;
    assert hands[i] in hands;
    assert HandBag(hands) == HandBag(hands[i := Idle]) + multiset{r.id};
    assert IDs(results + [r]) == IDs(results) + [r.id];
    assert multiset(IDs(results + [r])) == multiset(IDs(results)) + multiset{r.id};
    assert multiset(dropped + [r.id]) == multiset(dropped) + multiset{r.id};
  }

  lemma {:induction false} Arrived(work: seq<ID>, hands: seq<Hand>, results: seq<Result>, dropped: seq<ID>,
                                   claimed: set<ID>)
    requires Placed(work, hands, results, dropped, claimed) && results != [] && ClearAll(results, hands)
    ensures Placed(work, hands, results[1..], dropped, claimed - {results[0].id})
    ensures results[0].id in claimed && Clear(results[0]) && ClearAll(results[1..], hands)
  {
    hide HandBag, Clear;
    var id := results[0].id;
    assert IDs(results) == [id] + IDs(results[1..]);
    assert Out(work, hands, results, dropped) == Out(work, hands, results[1..], dropped) + multiset{id};
    assert multiset(claimed) == multiset(claimed - {id}) + multiset{id} by { assert multiset(claimed)[id] >= 1; }
    SameBag(Out(work, hands, results[1..], dropped), multiset(claimed - {id}), multiset{id});
  }

  lemma {:induction false} Sent(work: seq<ID>, hands: seq<Hand>, results: seq<Result>, dropped: seq<ID>,
                                claimed: set<ID>, task: ID)
    requires Placed(work, hands, results, dropped, claimed) && task !in claimed
    ensures Placed(work + [task], hands, results, dropped, claimed + {task})
  {
    hide HandBag, IDs;
    assert multiset(claimed + {task}) == multiset(claimed) + multiset{task};
  }

  /** One of these tasks is to be handed out: it has an id, and when it was looked at its retry time had passed. */
  predicate OfferedBy(tasks: seq<ID>, times: seq<int>, retryAfter: map<ID, int>, id: ID)
    requires |times| == |tasks|
  {
    exists n :: 0 <= n < |tasks| && tasks[n] == id && !Blank(id) && (id in retryAfter ==> retryAfter[id] <= times[n])
  }

  lemma {:induction false} NothingOffered(retryAfter: map<ID, int>)
    ensures forall id :: !OfferedBy([], [], retryAfter, id)
  {}

  lemma {:induction false} OneMoreOffered(tasks: seq<ID>, i: nat, times: seq<int>, now: int, retryAfter: map<ID, int>)
    requires i < |tasks| && |times| == i
    ensures forall id :: OfferedBy(tasks[..i + 1], times + [now], retryAfter, id) <==>
              || OfferedBy(tasks[..i], times, retryAfter, id)
              || (id == tasks[i] && !Blank(id) && (id in retryAfter ==> retryAfter[id] <= now))
  {
    hide Blank;
    var more, later := tasks[..i + 1], times + [now];
    assert forall n :: 0 <= n < i ==> more[n] == tasks[..i][n] && later[n] == times[n];
    assert more[i] == tasks[i] && later[i] == now;
  }

  class Drainer {
    const bufferSize: nat
    const maxTasks: nat           // 0 for no limit
    var work: seq<ID>             // channels, each of capacity bufferSize
    var results: seq<Result>
    var hands: seq<Hand>          // the workers
    var claimed: set<ID>          // "assigned" in the program
    var retryAfter: map<ID, int>
    var processed: nat
    ghost var dropped: seq<ID>    // reports lost by workers that stopped
    ghost var last: map<ID, Result>
    ghost var applied: nat
    ghost var offers: seq<Offer>

    constructor (concurrency: nat, bufferSize: nat, maxTasks: nat)
      requires 1 <= concurrency <= bufferSize
      ensures Valid() && this.bufferSize == bufferSize && this.maxTasks == maxTasks && offers == [] &&
              |hands| == concurrency
    {
      this.bufferSize, this.maxTasks := bufferSize, maxTasks;
      work, results, hands, claimed, retryAfter, processed := [], [], seq(concurrency, _ => Idle), {}, map[], 0;
      dropped, last, applied, offers := [], map[], 0, [];
      new;
      AllIdle(concurrency);
    }

    ghost predicate Valid()
      reads this
    {
      && Placed(work, hands, results, dropped, claimed)
      && |claimed| <= bufferSize
      && processed == applied + |results| + CountedIn(hands) + |dropped|
      && |offers| == applied + |claimed|
      && (maxTasks > 0 ==> |offers| <= maxTasks)
      && (forall o :: o in offers ==> InTime(o))
      && Remembered(retryAfter, last) && ClearAll(results, hands)
    }

    /** No task is with two workers, or with a worker and in a channel; what is out fits every channel. */
    lemma Exclusive(i: nat, j: nat)
      requires Valid() && i < |hands| && hands[i].Working?
      ensures hands[i].id in claimed && hands[i].id !in work && hands[i].id !in IDs(results)
      ensures i < j < |hands| && hands[j].Working? ==> hands[i].id != hands[j].id
    {
      var id := hands[i].id;
      HandIsIn(hands, i);
      assert Bag(hands[i])[id] <= HandBag(hands)[id] <= Out(work, hands, results, dropped)[id] <= 1;
      if i < j < |hands| && hands[j].Working? {
        TwoHands(hands, i, j);
        assert (Bag(hands[i]) + Bag(hands[j]))[id] <= HandBag(hands)[id];
      }
    }

    lemma Fits()
      requires Valid()
      ensures claimed == {} ==> work == [] && processed == applied == |offers|
      ensures |work| <= |claimed| <= bufferSize && |results| + CountedIn(hands) + |dropped| <= |claimed|
      ensures processed <= |offers|
    {
      CountedAreOut(hands);
      assert |Out(work, hands, results, dropped)| == |claimed|;
    }

    // -------------------------------------------------------------- workers

    method Take(i: nat)
      requires Valid() && i < |hands|
      modifies this`work, this`hands
      ensures Valid() && |hands| == old(|hands|)
      ensures old(hands[i].Idle? && work != []) ==>
              hands == old(hands)[i := Working(old(work)[0])] && work == old(work)[1..]
      ensures !old(hands[i].Idle? && work != []) ==> hands == old(hands) && work == old(work)
    {
      hide Placed, CountedIn, ClearAll, Remembered, InTime;
      if !hands[i].Idle? || work == [] { return; }
      var task := work[0];
      Taken(work, hands, results, dropped, claimed, i);
      work, hands := work[1..], hands[i := Working(task)];
    }

    /** processAliasTask and the deletion after it. A report either says that the task is gone from the queue or
        names a time to try again, five seconds later: gone is what was processed, cannot be, or was released, if it
        could be deleted. */
    method Process(id: ID, outcome: Processing, deletes: bool, now: int) returns (result: Result)
      ensures result.id == id && Clear(result)
      ensures outcome == Unsupported || outcome == Processed || outcome == Released ==> result.deleted == deletes
      ensures outcome == Cancelled || outcome == NotReleased ==> !result.deleted
      ensures !result.deleted ==> result.retryAt == Some(now + 5_000)
      ensures result.deleted ==> result.retryAt == None
    {
      result := Result(id, false, None);
      match outcome {
        case Unsupported => result := result.(deleted := true);
        case Processed => result := result.(deleted := true);
        case Released => result := result.(deleted := true);
        case Cancelled => result := result.(retryAt := Some(now + DELETE_RETRY));
        case NotReleased => result := result.(retryAt := Some(now + DELETE_RETRY));
      }
      if result.deleted && !deletes {
        result := result.(deleted := false, retryAt := Some(now + DELETE_RETRY));
      }
    }

    method Finish(i: nat)
      requires Valid() && i < |hands|
      modifies this`hands
      ensures Valid() && |hands| == old(|hands|)
      ensures !old(hands[i].Working?) ==> hands == old(hands)
      ensures old(hands[i].Working?) ==>
        hands[i].Done? && hands[i].result.id == old(hands[i]).id && hands == old(hands)[i := hands[i]]
    {
      hide Placed, CountedIn, ClearAll, Remembered, InTime;
      if !hands[i].Working? { return; }
      var outcome: Processing, now: int, deletes: bool := *, *, *;
      var result := Process(hands[i].id, outcome, deletes, now);
      Worked(work, hands, results, dropped, claimed, i, Done(result));
      hands := hands[i := Done(result)];
    }

    method Count(i: nat)
      requires Valid() && i < |hands|
      modifies this`hands, this`processed
      ensures Valid() && |hands| == old(|hands|)
      ensures processed == old(processed) + if old(hands[i].Done?) then 1 else 0
    {
      hide Placed, CountedIn, ClearAll, Remembered, InTime;
      if !hands[i].Done? { return; }
      var result := hands[i].result;
      DoneIsClear(results, hands, i);
      Worked(work, hands, results, dropped, claimed, i, Counted(result));
      processed := processed + 1;
      hands := hands[i := Counted(result)];
    }

    /** Sending the report: the channel always has room, so only a cancelled run loses one. */
    method Report(i: nat, cancelled: bool)
      requires Valid() && i < |hands|
      modifies this`hands, this`results, this`dropped
      ensures Valid() && |hands| == old(|hands|)
      ensures old(hands[i].Counted?) && !cancelled ==>
              results == old(results) + [old(hands[i]).result] && hands[i].Idle?
      ensures !cancelled ==> dropped == old(dropped)
    {
      hide Placed, CountedIn, ClearAll, Remembered, InTime;
      if !hands[i].Counted? { return; }
      var result := hands[i].result;
      Fits();
      Reported(work, hands, results, dropped, claimed, i);
      ClearPart(results, result, hands[i := Idle]);
      if cancelled {
        dropped := dropped + [result.id];
      } else {
        results := results + [result];
      }
      hands := hands[i := Idle];
    }

    /** Any number of steps of any workers. */
    method Workers()
      requires Valid()
      modifies this`work, this`hands, this`processed, this`results, this`dropped
      ensures Valid() && |hands| == old(|hands|)
    {
      var steps: nat := *;
      while steps > 0
        invariant Valid() && |hands| == old(|hands|)
      {
        steps := steps - 1;
        var i: nat, step: nat, cancelled: bool := *, *, *;
        if i < |hands| {
          match step {
            case 0 => Take(i);
            case 1 => Finish(i);
            case 2 => Count(i);
            case _ => Report(i, cancelled);
          }
        }
      }
    }

    // -------------------------------------------------------------- the dispatcher

    method ApplyResult()
      requires Valid() && results != []
      modifies this`results, this`claimed, this`retryAfter, this`last, this`applied
      ensures Valid() && applied == old(applied) + 1
      ensures results == old(results)[1..] && claimed == old(claimed) - {old(results)[0].id} &&
              |claimed| < old(|claimed|)
      ensures last == old(last)[old(results)[0].id := old(results)[0]]
      ensures var r := old(results)[0];
              retryAfter ==
                if r.retryAt.Some? then old(retryAfter)[r.id := r.retryAt.value] else old(retryAfter) - {r.id}
    {
      hide Placed, CountedIn, ClearAll, InTime, Remembered;
      var result := results[0];
      Arrived(work, hands, results, dropped, claimed);
      RemembersOne(retryAfter, last, result);
      results := results[1..];
      claimed := claimed - {result.id};
      last := last[result.id := result];
      applied := applied + 1;
      if result.retryAt.None? {
        retryAfter := retryAfter - {result.id};
      } else {
        retryAfter := retryAfter[result.id := result.retryAt.value];
      }
    }

    method DrainResults()
      requires Valid()
      modifies this`work, this`hands, this`processed, this`results, this`dropped, this`claimed, this`retryAfter,
        this`last, this`applied
      ensures Valid() && |claimed| <= old(|claimed|)
    {
      Workers();
      while results != []
        invariant Valid() && |claimed| <= old(|claimed|)
        decreases |claimed|
      {
        ApplyResult();
        Workers();
      }
    }

    method Send(task: ID, now: int)
      requires Valid() && task !in claimed && |claimed| < bufferSize && (maxTasks > 0 ==> |offers| < maxTasks)
      requires task in retryAfter ==> retryAfter[task] <= now
      modifies this`work, this`claimed, this`offers
      ensures Valid() && work == old(work) + [task] && claimed == old(claimed) + {task}
      ensures offers == old(offers) + [Offer(task, now, if task in last then Some(last[task]) else None)]
    {
      hide Placed, CountedIn, ClearAll, Clear;
      Fits();
      Sent(work, hands, results, dropped, claimed, task);
      if |work| < bufferSize {
        work := work + [task];
        claimed := claimed + {task};
        offers := offers + [Offer(task, now, if task in last then Some(last[task]) else None)];
      } else {
        assert false;  // the channel always has room for a task that may be handed out
      }
    }

    /** Hand out listed tasks that are not out already and need not wait. times are the clock readings. */
    method OfferAll(tasks: seq<ID>, available: nat) returns (ghost times: seq<int>)
      requires Valid() && |tasks| <= available && |claimed| + available <= bufferSize
      requires maxTasks > 0 ==> |offers| + available <= maxTasks
      modifies this`work, this`hands, this`processed, this`results, this`dropped, this`claimed, this`offers
      ensures Valid() && old(claimed) <= claimed && old(offers) <= offers
      ensures |times| == |tasks|
      ensures forall id :: id in claimed <==> id in old(claimed) || OfferedBy(tasks, times, retryAfter, id)
    {
      hide Placed, CountedIn, ClearAll, Remembered, InTime, Blank, OfferedBy;
      times := [];
      NothingOffered(retryAfter);
      for i := 0 to |tasks|
        invariant Valid() && |claimed| + (|tasks| - i) <= bufferSize &&
                  (maxTasks > 0 ==> |offers| + (|tasks| - i) <= maxTasks)
        invariant old(claimed) <= claimed && old(offers) <= offers
        invariant |times| == i
        invariant forall id :: id in claimed <==> id in old(claimed) || OfferedBy(tasks[..i], times, retryAfter, id)
      {
        var task, now: int := tasks[i], *;
        OneMoreOffered(tasks, i, times, now, retryAfter);
        times := times + [now];
        Workers();
        if Blank(task) { continue; }
        if task in claimed { continue; }
        if task in retryAfter && now < retryAfter[task] { continue; }
        Send(task, now);
      }
      assert tasks[..|tasks|] == tasks;
    }

    /** The dispatcher's loop; every statement may be interleaved with steps of the workers. When it ends because
        the cap is reached, exactly that many tasks were handed out and processed. */
    method Drain(rounds: nat, exitWhenEmpty: bool) returns (ending: Ending)
      requires Valid()
      modifies this
      ensures Valid() && old(offers) <= offers
      ensures ending.CapReached? ==> 0 < maxTasks == processed == |offers| && claimed == {}
      ensures ending.Emptied? ==> claimed == {} && processed == |offers|
    {
      hide Placed, CountedIn, ClearAll, Remembered, InTime;
      for round := 0 to rounds
        invariant Valid() && old(offers) <= offers
      {
        DrainResults();
        var answered: bool, paused: bool, queued: nat := *, *, *;
        if !answered { return Failed; }
        if !paused { return Unpaused; }
        Fits();
        if maxTasks > 0 && processed >= maxTasks && |claimed| == 0 && |work| == 0 { return CapReached; }
        if exitWhenEmpty && queued == 0 && |claimed| == 0 && |work| == 0 { return Emptied; }
        var available: int := bufferSize - |claimed|;
        Workers();
        if maxTasks > 0 {
          var remaining: int := maxTasks - processed - |claimed|;
          if remaining < available { available := remaining; }
        }
        Workers();
        if available > 0 {
          var batchSize := if available < 200 then available else 200;
          var listed: bool, tasks: seq<ID> := *, *;
          if !listed { return Failed; }
          ghost var times := OfferAll(if |tasks| > batchSize then tasks[..batchSize] else tasks, available);
        }
        Workers();
        var stopped: bool, arrived: bool := *, *;
        if stopped { return Stopped; }
        if arrived && results != [] { ApplyResult(); }
      }
      return Running;
    }
  }

  lemma {:induction false} HandsKept(hands: seq<Hand>, i: nat, h: Hand)
    requires i < |hands|
    ensures forall g :: g in hands[i := h] ==> g in hands || g == h
  {}

  lemma {:induction false} DoneIsClear(results: seq<Result>, hands: seq<Hand>, i: nat)
    requires ClearAll(results, hands) && i < |hands| && hands[i].Done?
    ensures Clear(hands[i].result)
  {}

  lemma {:induction false} ClearPart(results: seq<Result>, result: Result, hands: seq<Hand>)
    requires ClearAll(results + [result], hands)
    ensures ClearAll(results, hands)
  {
    assert forall r :: r in results ==> r in results + [result];
  }

  lemma {:induction false} AllIdle(n: nat)
    ensures var hands := seq(n, _ => Idle); HandBag(hands) == multiset{} && CountedIn(hands) == 0
    decreases n
  {
    if n > 0 {
      assert seq(n, _ => Idle)[1..] == seq(n - 1, _ => Idle);
      AllIdle(n - 1);
    }
  }

  lemma {:induction false} CountedAreOut(hands: seq<Hand>)
    ensures CountedIn(hands) <= |HandBag(hands)|
    decreases |hands|
  {
    if hands != [] { CountedAreOut(hands[1..]); }
  }
}
