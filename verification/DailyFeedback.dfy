/** The chat plugin's feedback buffer: items bucketed by the day of their report, bounded per day and in days.
    Text arrives redacted, and dates are numbered days of the report's time zone. */
module DailyFeedback {

  const DAY := 86_400  // seconds

  datatype Kind = Feedback | Suggestion | Implicit | Unresolved

  datatype Item = Item(kind: Kind, text: string, at: int)

  datatype Bucket = Bucket(items: seq<Item>, dropped: nat, owner: string)

  const EMPTY := Bucket([], 0, "")

  // ---------------------------------------------------------------- report days

  /** A local time: a date and the seconds since its midnight. */
  datatype Local = Local(date: int, time: nat)

  predicate Proper(t: Local) { t.time < DAY }

  function Instant(t: Local): int { t.date * DAY + t.time }

  function NextReportAt(now: Local, reportTime: nat): Local {
    var result := Local(now.date, reportTime);
    if Instant(now) < Instant(result) then result else result.(date := now.date + 1)
  }

  function FeedbackDay(now: Local, reportTime: nat): int { now.date + if now.time >= reportTime then 1 else 0 }

  predicate Due(day: int, now: Local, reportTime: nat) { day <= now.date - if now.time < reportTime then 1 else 0 }

  /** What is collected now becomes due at the next report and not before. */
  lemma {:induction false} DueAtNextReport(added: Local, now: Local, reportTime: nat)
    requires Proper(added) && Proper(now) && reportTime < DAY
    ensures NextReportAt(added, reportTime) == Local(FeedbackDay(added, reportTime), reportTime)
    ensures Due(FeedbackDay(added, reportTime), now, reportTime) <==>
            Instant(NextReportAt(added, reportTime)) <= Instant(now)
    ensures Instant(added) < Instant(NextReportAt(added, reportTime)) <= Instant(added) + DAY
  {}

  // ---------------------------------------------------------------- one day

  /** A routed item goes only to a bucket of the same route, or to one that is still empty. */
  predicate Routes(b: Bucket, route: string) {
    route == "" || b.owner == route || (b.owner == "" && b.items == [])
  }

  function FirstImplicit(items: seq<Item>): (n: nat)
    ensures n <= |items|
    ensures forall i :: 0 <= i < n ==> !items[i].kind.Implicit?
    ensures n < |items| ==> items[n].kind.Implicit?
  {
    if items == [] || items[0].kind.Implicit? then 0 else 1 + FirstImplicit(items[1..])
  }

  function Added(b: Bucket, item: Item, route: string, max: nat): Bucket {
    var owner := if route != "" then route else b.owner;
    var n := FirstImplicit(b.items);
    if !Routes(b, route) then b
    else if |b.items| < max then Bucket(b.items + [item], b.dropped, owner)
    else if item.kind.Implicit? || n == |b.items| then b.(dropped := b.dropped + 1)
    else Bucket(b.items[..n] + b.items[n + 1..] + [item], b.dropped + 1, owner)
  }

  datatype Arrival = Arrival(item: Item, route: string)

  function After(arrivals: seq<Arrival>, max: nat): Bucket {
    if arrivals == [] then EMPTY
    else
      var n := |arrivals| - 1;
      Added(After(arrivals[..n], max), arrivals[n].item, arrivals[n].route, max)
  }

  /** The items that passed the route check, in order of arrival. */
  function Accepted(arrivals: seq<Arrival>, max: nat): seq<Item> {
    if arrivals == [] then []
    else
      var n := |arrivals| - 1;
      Accepted(arrivals[..n], max) +
        if Routes(After(arrivals[..n], max), arrivals[n].route) then [arrivals[n].item] else []
  }

  function Explicit(items: seq<Item>): seq<Item> {
    if items == [] then []
    else
      var n := |items| - 1;
      Explicit(items[..n]) + if items[n].kind.Implicit? then [] else [items[n]]
  }

  lemma {:induction false} ExplicitSum(a: seq<Item>, b: seq<Item>)
    ensures Explicit(a + b) == Explicit(a) + Explicit(b)
    decreases |b|
  {
    if b == [] {
      assert a + b == a;
    } else {
      var n := |b| - 1;
      assert (a + b)[..|a| + n] == a + b[..n];
      ExplicitSum(a, b[..n]);
    }
  }

  lemma {:induction false} ExplicitSize(items: seq<Item>)
    ensures |Explicit(items)| <= |items|
    ensures FirstImplicit(items) == |items| ==> Explicit(items) == items
    ensures FirstImplicit(items) < |items| ==> |Explicit(items)| < |items|
    decreases |items|
  {
    hide FirstImplicit;
    if items != [] {
      var n := |items| - 1;
      ExplicitSize(items[..n]);
      FirstImplicitSnoc(items);
      assert items == items[..n] + [items[n]];
    }
  }

  lemma {:induction false} FirstImplicitSnoc(items: seq<Item>)
    requires items != []
    ensures var n := |items| - 1;
            FirstImplicit(items) ==
              if FirstImplicit(items[..n]) < n || items[n].kind.Implicit? then FirstImplicit(items[..n]) else |items|
  {
    var n := |items| - 1;
    var m := FirstImplicit(items[..n]);
    assert forall i :: 0 <= i < n ==> items[..n][i] == items[i];
  }

  lemma {:induction false} EvictingImplicit(items: seq<Item>, n: nat)
    requires n < |items| && items[n].kind.Implicit?
    ensures Explicit(items[..n] + items[n + 1..]) == Explicit(items)
  {
    hide Explicit;
    ExplicitSum(items[..n], items[n + 1..]);
    ExplicitSum(items[..n], [items[n]]);
    ExplicitSum(items[..n] + [items[n]], items[n + 1..]);
    OneExplicit(items[n]);
    assert items == items[..n] + [items[n]] + items[n + 1..];
  }

  /** Every accepted item is kept or counted as dropped, at most max are kept, and the kept explicit items are
      the first ones to arrive, as many as fit. */
  lemma {:induction false} DayConserves(arrivals: seq<Arrival>, max: nat)
    requires max > 0
    ensures var b, accepted := After(arrivals, max), Accepted(arrivals, max);
            var explicit := Explicit(accepted);
            && |b.items| + b.dropped == |accepted| && |b.items| <= max
            && (b.dropped > 0 ==> |b.items| == max)
            && Explicit(b.items) == explicit[..if |explicit| < max then |explicit| else max]
    decreases |arrivals|
  {
    hide Explicit;
    if arrivals == [] {
      NothingConserves(max);
    } else {
      var n := |arrivals| - 1;
      DayConserves(arrivals[..n], max);
      var b, accepted := After(arrivals[..n], max), Accepted(arrivals[..n], max);
      AddedConserves(b, accepted, arrivals[n].item, arrivals[n].route, max);
      assert Accepted(arrivals, max) ==
        if Routes(b, arrivals[n].route) then accepted + [arrivals[n].item] else accepted;
    }
  }

  lemma {:induction false} NothingConserves(max: nat)
    ensures Conserves(EMPTY, [], max)
  {}

  ghost predicate Conserves(b: Bucket, accepted: seq<Item>, max: nat) {
    var explicit := Explicit(accepted);
    && |b.items| + b.dropped == |accepted| && |b.items| <= max && (b.dropped > 0 ==> |b.items| == max)
    && Explicit(b.items) == explicit[..if |explicit| < max then |explicit| else max]
  }

  lemma {:induction false} AddedConserves(b: Bucket, accepted: seq<Item>, item: Item, route: string, max: nat)
    requires Conserves(b, accepted, max) && max > 0
    ensures Conserves(Added(b, item, route, max), if Routes(b, route) then accepted + [item] else accepted, max)
  {
    hide Explicit;
    if Routes(b, route) {
      ExplicitSum(accepted, [item]);
      OneExplicit(item);
      ExplicitSize(b.items);
      ExplicitSize(accepted);
      var n := FirstImplicit(b.items);
      if |b.items| < max {
        ExplicitSum(b.items, [item]);
      } else if !item.kind.Implicit? && n < |b.items| {
        EvictingImplicit(b.items, n);
        ExplicitSum(b.items[..n] + b.items[n + 1..], [item]);
      }
    }
  }

  lemma {:induction false} OneExplicit(item: Item)
    ensures Explicit([item]) == if item.kind.Implicit? then [] else [item]
  {
    assert [item][..0] == [];
  }

  // ---------------------------------------------------------------- the buffer

  function BucketOf(days: map<int, Bucket>, day: int): Bucket { if day in days then days[day] else EMPTY }

  /** The item is kept: it passes the route check and there is room, or an implicit item makes room for it. */
  predicate Kept(b: Bucket, item: Item, route: string, max: nat) {
    Routes(b, route) && (|b.items| < max || (!item.kind.Implicit? && FirstImplicit(b.items) < |b.items|))
  }

  /** What adding an item does to the days. Other days are untouched unless they are pruned, and those pruned are older
      than all that stay. */
  ghost predicate AddStep(before: map<int, Bucket>, item: Item, now: Local, route: string, reportTime: nat,
                          maxItems: nat, maxDays: nat, after: map<int, Bucket>, added: bool) {
    var day := FeedbackDay(now, reportTime);
    var b := BucketOf(before, day);
    var all := before[day := Added(b, item, route, maxItems)];
    && (added <==> Kept(b, item, route, maxItems))
    && (forall d :: d in after ==> d in all && after[d] == all[d])
    && (!added ==> after == all)
    && (added ==> forall d, e :: d in all && d !in after && e in after ==> d < e)
    && (added ==> |after| == if |all| <= maxDays then |all| else maxDays)
  }

  lemma {:induction false} AddedIs(b: Bucket, item: Item, route: string, max: nat)
    requires |b.items| <= max
    ensures var owner, n := if route != "" then route else b.owner, FirstImplicit(b.items);
            && (!Routes(b, route) ==> Added(b, item, route, max) == b)
            && (Routes(b, route) && |b.items| < max ==>
                 Added(b, item, route, max) == Bucket(b.items + [item], b.dropped, owner))
            && (Routes(b, route) && |b.items| == max && (item.kind.Implicit? || n == max) ==>
                 Added(b, item, route, max) == b.(dropped := b.dropped + 1))
            && (Routes(b, route) && |b.items| == max && !item.kind.Implicit? && n < max ==>
                 Added(b, item, route, max) == Bucket(b.items[..n] + b.items[n + 1..] + [item], b.dropped + 1, owner))
            && |Added(b, item, route, max).items| <= max
  {}

  class Buffer {
    const maxItems: nat
    const maxDays: nat
    var days: map<int, Bucket>

    constructor (maxItems: nat, maxDays: nat)
      requires maxItems > 0 && maxDays > 0
      ensures this.maxItems == maxItems && this.maxDays == maxDays && days == map[]
    {
      this.maxItems, this.maxDays, days := maxItems, maxDays, map[];
    }

    /** add, for text that is not empty after redaction. */
    method Add(item: Item, now: Local, route: string, reportTime: nat) returns (added: bool)
      requires maxItems > 0 && maxDays > 0 && forall d :: d in days ==> |days[d].items| <= maxItems
      modifies this
      ensures AddStep(old(days), item, now, route, reportTime, maxItems, maxDays, days, added)
      ensures forall d :: d in days ==> |days[d].items| <= maxItems
    {
      hide Added, FirstImplicit, Kept, Routes;
      var day := FeedbackDay(now, reportTime);
      var bucket := if day in days then days[day] else EMPTY;
      days := days[day := bucket];
      var after;
      added, after := Put(bucket, item, route, maxItems);
      days := days[day := after];
      assert days == old(days)[day := after];
      if added { Prune(); }
    }

    /** What happens to the bucket of the day. */
    static method Put(before: Bucket, item: Item, route: string, maxItems: nat) returns (added: bool, bucket: Bucket)
      requires |before.items| <= maxItems
      ensures bucket == Added(before, item, route, maxItems) && |bucket.items| <= maxItems
      ensures added <==> Kept(before, item, route, maxItems)
      ensures route != "" && (if before.owner != "" then before.owner != route else before.items != []) ==>
        !added && bucket == before
      ensures route == "" && |before.items| < maxItems ==> added
      ensures added ==> bucket.owner == (if route != "" then route else before.owner) && item in bucket.items
    {
      hide Added;
      AddedIs(before, item, route, maxItems);
      bucket := before;
      if route != "" && bucket.owner != "" && route != bucket.owner { return false, bucket; }
      if route != "" && bucket.items != [] && bucket.owner == "" { return false, bucket; }
      if |bucket.items| >= maxItems {
        var n := FirstImplicit(bucket.items);
        if !item.kind.Implicit? && n < |bucket.items| {
          bucket := bucket.(items := bucket.items[..n] + bucket.items[n + 1..]);
        } else {
          return false, bucket.(dropped := bucket.dropped + 1);
        }
        bucket := bucket.(dropped := bucket.dropped + 1);
      }
      if route != "" { bucket := bucket.(owner := route); }
      bucket := bucket.(items := bucket.items + [item]);
      return true, bucket;
    }

    method Prune()
      requires maxDays > 0
      modifies this
      ensures forall d :: d in days ==> d in old(days) && days[d] == old(days)[d]
      ensures forall d, e :: d in old(days) && d !in days && e in days ==> d < e
      ensures |days| == if |old(days)| <= maxDays then |old(days)| else maxDays
    {
      while |days| > maxDays
        invariant forall d :: d in days ==> d in old(days) && days[d] == old(days)[d]
        invariant forall d, e :: d in old(days) && d !in days && e in days ==> d < e
        invariant |days| <= |old(days)| && (|days| == |old(days)| || |days| >= maxDays)
        decreases |days|
      {
        assert |days.Keys| == |days|;
        var oldest := Oldest(days.Keys);
        SizeWithout(days, oldest);
        days := days - {oldest};
      }
    }

    method Discard(day: int)
      modifies this
      ensures days == old(days) - {day}
    {
      days := days - {day};
    }
  }

  lemma {:induction false} SizeWithout(days: map<int, Bucket>, day: int)
    requires day in days
    ensures |days - {day}| == |days| - 1
  {
    assert (days - {day}).Keys == days.Keys - {day};
    assert |days.Keys - {day}| == |days.Keys| - 1;
    assert |(days - {day}).Keys| == |days - {day}| && |days.Keys| == |days|;
  }

  /** The smallest of the keys, as sorting would put it first. */
  method Oldest(keys: set<int>) returns (oldest: int)
    requires |keys| > 0
    ensures oldest in keys && forall d :: d in keys ==> oldest <= d
  {
    Nonempty(keys);
    oldest :| oldest in keys;
    var rest := keys - {oldest};
    while |rest| > 0
      invariant rest <= keys && oldest in keys && forall d :: d in keys && d !in rest ==> oldest <= d
    {
      Nonempty(rest);
      var d :| d in rest;
      rest := rest - {d};
      if d < oldest { oldest := d; }
    }
  }

  lemma {:induction false} Nonempty(keys: set<int>)
    requires |keys| > 0
    ensures exists d :: d in keys
  {
    if forall d :: d !in keys { assert false; }
  }

  // ---------------------------------------------------------------- runs of the buffer

  datatype Op = Adding(item: Item, now: Local, route: string, reportTime: nat) | Discarding(day: int)

  ghost predicate Step(before: map<int, Bucket>, op: Op, after: map<int, Bucket>, maxItems: nat, maxDays: nat) {
    match op
    case Adding(item, now, route, reportTime) =>
      exists added :: AddStep(before, item, now, route, reportTime, maxItems, maxDays, after, added)
    case Discarding(day) => after == before - {day}
  }

  ghost predicate Run(states: seq<map<int, Bucket>>, ops: seq<Op>, maxItems: nat, maxDays: nat) {
    && |states| == |ops| + 1 && states[0] == map[]
    && forall i :: 0 <= i < |ops| ==> Step(states[i], ops[i], states[i + 1], maxItems, maxDays)
  }

  predicate IsFor(op: Op, day: int) { op.Adding? && FeedbackDay(op.now, op.reportTime) == day }

  function ArrivalsOf(ops: seq<Op>, day: int): seq<Arrival> {
    if ops == [] then []
    else
      var n := |ops| - 1;
      ArrivalsOf(ops[..n], day) + if IsFor(ops[n], day) then [Arrival(ops[n].item, ops[n].route)] else []
  }

  /** The day has been in the buffer ever since its first arrival: it was neither pruned nor discarded. */
  ghost predicate Stayed(states: seq<map<int, Bucket>>, ops: seq<Op>, day: int)
    requires |states| == |ops| + 1
  {
    forall i, j :: 0 <= i < j <= |ops| && IsFor(ops[i], day) ==> day in states[j]
  }

  lemma {:induction false} StepOnDay(before: map<int, Bucket>, op: Op, after: map<int, Bucket>, maxItems: nat,
                                     maxDays: nat, day: int)
    requires Step(before, op, after, maxItems, maxDays)
    ensures day in after && IsFor(op, day) ==> after[day] == Added(BucketOf(before, day), op.item, op.route, maxItems)
    ensures day in after && !IsFor(op, day) ==> day in before && after[day] == before[day]
  {
    hide Added;
    if op.Adding? {
      var added :| AddStep(before, op.item, op.now, op.route, op.reportTime, maxItems, maxDays, after, added);
    }
  }

  /** In any run of adds and discards, over whatever days and report times: a day that stayed holds exactly what its own
      arrivals made of it, and a day nothing arrived for is not there. */
  lemma {:induction false} DayIsItsArrivals(states: seq<map<int, Bucket>>, ops: seq<Op>, maxItems: nat, maxDays: nat,
                                            day: int)
    requires Run(states, ops, maxItems, maxDays) && Stayed(states, ops, day)
    ensures BucketOf(states[|ops|], day) == After(ArrivalsOf(ops, day), maxItems)
    ensures day in states[|ops|] <==> exists i :: 0 <= i < |ops| && IsFor(ops[i], day)
    decreases |ops|
  {
    hide Step, Added;
    if ops != [] {
      var n := |ops| - 1;
      assert Step(states[n], ops[n], states[n + 1], maxItems, maxDays);
      PrefixStayed(states, ops, maxItems, maxDays, day);
      DayIsItsArrivals(states[..n + 1], ops[..n], maxItems, maxDays, day);
      assert states[..n + 1][n] == states[n];
      StepOnDay(states[n], ops[n], states[n + 1], maxItems, maxDays, day);
      assert forall i :: 0 <= i < n ==> ops[..n][i] == ops[i];
      if IsFor(ops[n], day) {
        AfterOne(ArrivalsOf(ops[..n], day), Arrival(ops[n].item, ops[n].route), maxItems);
      } else {
        assert ArrivalsOf(ops, day) == ArrivalsOf(ops[..n], day);
        if exists i :: 0 <= i < n && IsFor(ops[i], day) {
          var i :| 0 <= i < n && IsFor(ops[i], day);
          assert day in states[n + 1];
        }
      }
    }
  }

  lemma {:induction false} PrefixStayed(states: seq<map<int, Bucket>>, ops: seq<Op>, maxItems: nat, maxDays: nat,
                                        day: int)
    requires ops != [] && Run(states, ops, maxItems, maxDays) && Stayed(states, ops, day)
    ensures var n := |ops| - 1;
            Run(states[..n + 1], ops[..n], maxItems, maxDays) && Stayed(states[..n + 1], ops[..n], day)
  {
    hide Step, IsFor;
    var n := |ops| - 1;
    var someStates, someOps := states[..n + 1], ops[..n];
    forall i | 0 <= i < |someOps| ensures Step(someStates[i], someOps[i], someStates[i + 1], maxItems, maxDays) {
      assert Step(states[i], ops[i], states[i + 1], maxItems, maxDays);
    }
    forall i, j | 0 <= i < j <= n && IsFor(someOps[i], day) ensures day in someStates[j] {
      assert someOps[i] == ops[i] && someStates[j] == states[j];
    }
  }

  lemma {:induction false} AfterOne(arrivals: seq<Arrival>, a: Arrival, max: nat)
    ensures After(arrivals + [a], max) == Added(After(arrivals, max), a.item, a.route, max)
  {
    assert (arrivals + [a])[..|arrivals|] == arrivals;
  }

  /** So conservation holds of the buffer: what a day that stayed keeps and drops are its accepted arrivals, and it
      becomes due exactly at the report that each of its arrivals was collected for. */
  lemma {:induction false} BufferConserves(states: seq<map<int, Bucket>>, ops: seq<Op>, maxItems: nat, maxDays: nat,
                                           day: int)
    requires Run(states, ops, maxItems, maxDays) && Stayed(states, ops, day) && maxItems > 0 && day in states[|ops|]
    ensures var b, accepted := states[|ops|][day], Accepted(ArrivalsOf(ops, day), maxItems);
            var explicit := Explicit(accepted);
            && |b.items| + b.dropped == |accepted| && |b.items| <= maxItems
            && Explicit(b.items) == explicit[..if |explicit| < maxItems then |explicit| else maxItems]
    ensures forall i, now: Local ::
            0 <= i < |ops| && IsFor(ops[i], day) && Proper(now) && Proper(ops[i].now) && ops[i].reportTime < DAY ==>
              (Due(day, now, ops[i].reportTime) <==>
                Instant(NextReportAt(ops[i].now, ops[i].reportTime)) <= Instant(now))
  {
    DayIsItsArrivals(states, ops, maxItems, maxDays, day);
    DayConserves(ArrivalsOf(ops, day), maxItems);
    forall i, now: Local | 0 <= i < |ops| && IsFor(ops[i], day) && Proper(now) && Proper(ops[i].now) &&
      ops[i].reportTime < DAY
      ensures Due(day, now, ops[i].reportTime) <==> Instant(NextReportAt(ops[i].now, ops[i].reportTime)) <= Instant(now)
    {
      DueAtNextReport(ops[i].now, now, ops[i].reportTime);
    }
  }

  /** The loop a user of the buffer makes: its states are such a run. */
  method Use(ops: seq<Op>, maxItems: nat, maxDays: nat)
    returns (days: map<int, Bucket>, ghost states: seq<map<int, Bucket>>)
    requires maxItems > 0 && maxDays > 0
    ensures Run(states, ops, maxItems, maxDays) && days == states[|ops|]
  {
    hide AddStep;
    var buffer := new Buffer(maxItems, maxDays);
    states := [buffer.days];
    for n := 0 to |ops|
      invariant buffer.maxItems == maxItems && buffer.maxDays == maxDays
      invariant Run(states, ops[..n], maxItems, maxDays) && buffer.days == states[n]
      invariant forall d :: d in buffer.days ==> |buffer.days[d].items| <= maxItems
    {
      match ops[n] {
        case Adding(item, now, route, reportTime) =>
          var added := buffer.Add(item, now, route, reportTime);
        case Discarding(day) => buffer.Discard(day);
      }
      states := states + [buffer.days];
      assert forall i :: 0 <= i < n ==> ops[..n + 1][i] == ops[..n][i];
    }
    assert ops[..|ops|] == ops;
    days := buffer.days;
  }

  /** A day belongs to one conversation: the arrivals it kept that name one all name its owner. */
  lemma {:induction false} DayHasOneOwner(arrivals: seq<Arrival>, max: nat, i: nat)
    requires i < |arrivals| && arrivals[i].route != ""
    requires Kept(After(arrivals[..i], max), arrivals[i].item, arrivals[i].route, max)
    ensures After(arrivals, max).owner == arrivals[i].route
    decreases |arrivals|
  {
    hide Added;
    var n := |arrivals| - 1;
    if i < n {
      assert arrivals[..n][..i] == arrivals[..i] && arrivals[..n][i] == arrivals[i];
      DayHasOneOwner(arrivals[..n], max, i);
      OwnerStays(After(arrivals[..n], max), arrivals[n].item, arrivals[n].route, max);
    } else {
      RoutedOwns(After(arrivals[..n], max), arrivals[n].item, arrivals[n].route, max);
    }
  }

  lemma {:induction false} OwnerStays(b: Bucket, item: Item, route: string, max: nat)
    requires b.owner != ""
    ensures Added(b, item, route, max).owner == b.owner
  {}

  lemma {:induction false} RoutedOwns(b: Bucket, item: Item, route: string, max: nat)
    requires Kept(b, item, route, max) && route != ""
    ensures Added(b, item, route, max).owner == route
  {}
}
