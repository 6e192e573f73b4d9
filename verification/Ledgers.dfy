/** The outcome ledgers of the mailbox validation runner: who succeeded, who failed and how, carried over from
    earlier runs and updated by the first outcome each mailbox gets in this one. */
module Ledgers {

  datatype FailureClass = Recoverable | Unrecoverable | RateLimited

  datatype Event = Succeed(email: string) | Fail(email: string, kind: FailureClass) | Reject(email: string)

  datatype Ledger = Ledger(
    succeeded: set<string>, failed: set<string>,
    recoverable: set<string>, unrecoverable: set<string>, rateLimited: set<string>,
    seen: set<string>, success: nat, failure: nat)

  /** What earlier runs left in their files; the sets may overlap in any way. */
  datatype Previous = Previous(success: set<string>, recoverable: set<string>, unrecoverable: set<string>,
    rateLimited: set<string>)

  function Opened(p: Previous): Ledger {
    Ledger(p.success, p.recoverable + p.unrecoverable + p.rateLimited - p.success,
      p.recoverable - p.unrecoverable - p.rateLimited - p.success,
      p.unrecoverable - p.rateLimited - p.success,
      p.rateLimited - p.success, {}, 0, 0)
  }

  function Cleared(l: Ledger, email: string): Ledger {
    l.(failed := l.failed - {email}, recoverable := l.recoverable - {email},
    unrecoverable := l.unrecoverable - {email}, rateLimited := l.rateLimited - {email})
  }

  function Listed(l: Ledger, email: string, kind: FailureClass): Ledger {
    var m := l.(failed := l.failed + {email});
    match kind
    case Recoverable => m.(recoverable := m.recoverable + {email})
    case Unrecoverable => m.(unrecoverable := m.unrecoverable + {email})
    case RateLimited => m.(rateLimited := m.rateLimited + {email})
  }

  /** Only the first event of a mailbox that has not succeeded before has an effect. */
  function Recorded(l: Ledger, e: Event): Ledger {
    if e.email in l.succeeded || e.email in l.seen then l
    else
      var m := l.(seen := l.seen + {e.email});
      match e
      case Succeed(email) => Cleared(m, email).(succeeded := m.succeeded + {email}, success := m.success + 1)
      case Fail(email, kind) => Listed(Cleared(m, email), email, kind).(failure := m.failure + 1)
      case Reject(email) => (if email in m.failed then m else Listed(m, email, Recoverable)).(failure := m.failure + 1)
  }

  function After(l: Ledger, events: seq<Event>): Ledger {
    if events == [] then l else Recorded(After(l, events[..|events| - 1]), events[|events| - 1])
  }

  /** No other mailbox is affected. */
  predicate OnlyFor(before: Ledger, after: Ledger, email: string) {
    && before.succeeded - {email} == after.succeeded - {email} && before.failed - {email} == after.failed - {email}
    && before.recoverable - {email} == after.recoverable - {email} && before.seen - {email} == after.seen - {email}
    && before.unrecoverable - {email} == after.unrecoverable - {email}
    && before.rateLimited - {email} == after.rateLimited - {email}
  }

  class Tracker {
    var failed: set<string>
    var recoverable: set<string>
    var unrecoverable: set<string>
    var rateLimited: set<string>
    var succeeded: set<string>
    var seen: set<string>
    var success: nat
    var failure: nat

    ghost function View(): Ledger
      reads this
    {
      Ledger(succeeded, failed, recoverable, unrecoverable, rateLimited, seen, success, failure)
    }

    /** The later file wins over the earlier ones, and success over all. */
    constructor (previous: Previous)
      ensures View() == Opened(previous)
      ensures forall e :: e in previous.success ==> e in succeeded && e !in failed
      ensures forall e :: e in succeeded <==> e in previous.success
      ensures forall e :: e !in previous.success ==>
                (e in failed <==> e in previous.recoverable + previous.unrecoverable + previous.rateLimited)
      ensures forall e :: e !in previous.success ==>
                && (e in rateLimited <==> e in previous.rateLimited)
                && (e in unrecoverable <==> e in previous.unrecoverable && e !in previous.rateLimited)
                && (e in recoverable <==>
                     e in previous.recoverable && e !in previous.unrecoverable + previous.rateLimited)
      ensures seen == {} && success == 0 && failure == 0
    {
      succeeded, seen, success, failure := previous.success, {}, 0, 0;
      failed, recoverable, unrecoverable, rateLimited := {}, {}, {}, {};
      new;
      CarryRecoverable(previous.recoverable);
      CarryUnrecoverable(previous.unrecoverable);
      CarryRateLimited(previous.rateLimited);
      assert View() == Opened(previous);
    }

    method CarryRecoverable(previous: set<string>)
      modifies this`failed, this`recoverable
      ensures failed == old(failed) + (previous - succeeded) && recoverable == old(recoverable) + (previous - succeeded)
    {
      var rest := previous;
      while rest != {}
        invariant rest <= previous && failed == old(failed) + (previous - rest - succeeded)
        invariant recoverable == old(recoverable) + (previous - rest - succeeded)
      {
        var email :| email in rest;
        rest := rest - {email};
        if email !in succeeded {
          failed := failed + {email};
          recoverable := recoverable + {email};
        }
      }
    }

    method CarryUnrecoverable(previous: set<string>)
      modifies this`failed, this`recoverable, this`unrecoverable
      ensures failed == old(failed) + (previous - succeeded) && recoverable == old(recoverable) - (previous - succeeded)
      ensures unrecoverable == old(unrecoverable) + (previous - succeeded)
    {
      var rest := previous;
      while rest != {}
        invariant rest <= previous && failed == old(failed) + (previous - rest - succeeded)
        invariant recoverable == old(recoverable) - (previous - rest - succeeded)
        invariant unrecoverable == old(unrecoverable) + (previous - rest - succeeded)
      {
        var email :| email in rest;
        rest := rest - {email};
        if email !in succeeded {
          failed := failed + {email};
          recoverable := recoverable - {email};
          unrecoverable := unrecoverable + {email};
        }
      }
    }

    method CarryRateLimited(previous: set<string>)
      modifies this`failed, this`recoverable, this`unrecoverable, this`rateLimited
      ensures failed == old(failed) + (previous - succeeded) && recoverable == old(recoverable) - (previous - succeeded)
      ensures unrecoverable == old(unrecoverable) - (previous - succeeded)
      ensures rateLimited == old(rateLimited) + (previous - succeeded)
    {
      var rest := previous;
      while rest != {}
        invariant rest <= previous && failed == old(failed) + (previous - rest - succeeded)
        invariant recoverable == old(recoverable) - (previous - rest - succeeded)
        invariant unrecoverable == old(unrecoverable) - (previous - rest - succeeded)
        invariant rateLimited == old(rateLimited) + (previous - rest - succeeded)
      {
        var email :| email in rest;
        rest := rest - {email};
        if email !in succeeded {
          failed := failed + {email};
          recoverable := recoverable - {email};
          unrecoverable := unrecoverable - {email};
          rateLimited := rateLimited + {email};
        }
      }
    }

    method RecordSuccess(email: string)
      modifies this
      ensures View() == Recorded(old(View()), Succeed(email))
      ensures email in old(succeeded + seen) ==> View() == old(View())
      ensures email !in old(succeeded + seen) ==>
        && email in succeeded && email !in failed + recoverable + unrecoverable + rateLimited
        && success == old(success) + 1
      ensures OnlyFor(old(View()), View(), email) && failure == old(failure)
      ensures email in succeeded + seen
    {
      if email in succeeded { return; }
      if email in seen { return; }
      seen := seen + {email};
      failed := failed - {email};
      recoverable := recoverable - {email};
      unrecoverable := unrecoverable - {email};
      rateLimited := rateLimited - {email};
      succeeded := succeeded + {email};
      success := success + 1;
    }

    method RecordFailure(email: string, kind: FailureClass)
      modifies this
      ensures View() == Recorded(old(View()), Fail(email, kind))
      ensures email in old(succeeded + seen) ==> View() == old(View())
      ensures email !in old(succeeded + seen) ==>
        && email in failed && failure == old(failure) + 1
        && (email in recoverable <==> kind.Recoverable?) && (email in unrecoverable <==> kind.Unrecoverable?)
        && (email in rateLimited <==> kind.RateLimited?)
      ensures OnlyFor(old(View()), View(), email) && success == old(success) && succeeded == old(succeeded)
      ensures email in seen || email in succeeded
    {
      if email in succeeded { return; }
      if email in seen { return; }
      seen := seen + {email};
      failed := failed + {email};
      recoverable := recoverable - {email};
      unrecoverable := unrecoverable - {email};
      rateLimited := rateLimited - {email};
      match kind {
        case Unrecoverable => unrecoverable := unrecoverable + {email};
        case RateLimited => rateLimited := rateLimited + {email};
        case Recoverable => recoverable := recoverable + {email};
      }
      failure := failure + 1;
      assert failed == old(failed) - {email} + {email};
    }

    method RecordRejection(email: string)
      modifies this
      ensures View() == Recorded(old(View()), Reject(email))
      ensures succeeded == old(succeeded) && unrecoverable == old(unrecoverable) && rateLimited == old(rateLimited)
      ensures email in old(failed) ==> failed == old(failed) && recoverable == old(recoverable)
      ensures failure == old(failure) + if email in old(succeeded + seen) then 0 else 1
      ensures email !in old(succeeded + seen + failed) ==> email in failed && email in recoverable
      ensures OnlyFor(old(View()), View(), email) && success == old(success)
      ensures email in seen || email in succeeded
    {
      if email in succeeded { return; }
      if email in seen { return; }
      seen := seen + {email};
      if email !in failed {
        failed := failed + {email};
        recoverable := recoverable + {email};
      }
      failure := failure + 1;
    }
  }

  // ---------------------------------------------------------------- what every run keeps

  /** The four outcome sets are disjoint and failed is the union of the last three. */
  ghost predicate Apart(succeeded: set<string>, failed: set<string>, recoverable: set<string>,
                        unrecoverable: set<string>,
                        rateLimited: set<string>) {
    && succeeded !! failed
    && recoverable !! unrecoverable && recoverable !! rateLimited && unrecoverable !! rateLimited
    && failed == recoverable + unrecoverable + rateLimited
  }

  /** The counters count the mailboxes seen, none of which had succeeded before and each of which has an outcome. */
  ghost predicate Counts(l: Ledger, before: set<string>) {
    && l.success + l.failure == |l.seen|
    && l.seen !! before && before <= l.succeeded <= before + l.seen && l.seen <= l.succeeded + l.failed
    && l.success == |l.succeeded - before|
  }

  ghost predicate Sound(l: Ledger, before: set<string>) {
    Apart(l.succeeded, l.failed, l.recoverable, l.unrecoverable, l.rateLimited) && Counts(l, before)
  }

  lemma {:induction false} OpenedIsSound(p: Previous)
    ensures Sound(Opened(p), p.success)
  {
    assert p.success - p.success == {};
  }

  lemma {:induction false} RecordedIsSound(l: Ledger, e: Event, before: set<string>)
    requires Sound(l, before)
    ensures Sound(Recorded(l, e), before)
  {
    hide Apart, Counts, Recorded;
    if e.email !in l.succeeded && e.email !in l.seen {
      RecordedCounts(l, e, before);
      RecordedApart(l, e);
    } else {
      assert Recorded(l, e) == l by { NothingRecorded(l, e); }
    }
  }

  lemma {:induction false} NothingRecorded(l: Ledger, e: Event)
    ensures e.email in l.succeeded || e.email in l.seen ==> Recorded(l, e) == l
  {}

  lemma {:induction false} RecordedApart(l: Ledger, e: Event)
    requires Apart(l.succeeded, l.failed, l.recoverable, l.unrecoverable, l.rateLimited)
    requires e.email !in l.succeeded && e.email !in l.seen
    ensures var m := Recorded(l, e); Apart(m.succeeded, m.failed, m.recoverable, m.unrecoverable, m.rateLimited)
  {
    hide Apart;
    RemovedApart(l, e.email);
    if e.Fail? { ListedApart(Cleared(l, e.email), e.email); }
    if e.Reject? && e.email !in l.failed { ListedApart(l, e.email); }
  }

  lemma {:induction false} RemovedApart(l: Ledger, email: string)
    requires Apart(l.succeeded, l.failed, l.recoverable, l.unrecoverable, l.rateLimited)
    ensures var c := Cleared(l, email);
            && Apart(l.succeeded, c.failed, c.recoverable, c.unrecoverable, c.rateLimited)
            && Apart(l.succeeded + {email}, c.failed, c.recoverable, c.unrecoverable, c.rateLimited)
  {
    var c := Cleared(l, email);
    assert c.failed == c.recoverable + c.unrecoverable + c.rateLimited;
  }

  lemma {:induction false} ListedApart(l: Ledger, email: string)
    requires Apart(l.succeeded, l.failed, l.recoverable, l.unrecoverable, l.rateLimited)
    requires email !in l.failed && email !in l.succeeded
    ensures Apart(l.succeeded, l.failed + {email}, l.recoverable + {email}, l.unrecoverable, l.rateLimited)
    ensures Apart(l.succeeded, l.failed + {email}, l.recoverable, l.unrecoverable + {email}, l.rateLimited)
    ensures Apart(l.succeeded, l.failed + {email}, l.recoverable, l.unrecoverable, l.rateLimited + {email})
  {
    assert email !in l.recoverable && email !in l.unrecoverable && email !in l.rateLimited;
  }

  lemma {:induction false} RecordedCounts(l: Ledger, e: Event, before: set<string>)
    requires Counts(l, before) && e.email !in l.succeeded && e.email !in l.seen
    ensures Counts(Recorded(l, e), before)
  {
    hide Counts;
    if e.Succeed? {
      SuccessCounts(l, e.email, before, Recorded(l, e));
    } else {
      FailureCounts(l, e.email, before, Recorded(l, e));
    }
  }

  lemma {:induction false} SuccessCounts(l: Ledger, email: string, before: set<string>, m: Ledger)
    requires Counts(l, before) && email !in l.succeeded && email !in l.seen
    requires m.seen == l.seen + {email} && m.succeeded == l.succeeded + {email} && m.failed == l.failed - {email}
    requires m.success == l.success + 1 && m.failure == l.failure
    ensures Counts(m, before)
  {
    assert m.succeeded - before == (l.succeeded - before) + {email};
  }

  lemma {:induction false} FailureCounts(l: Ledger, email: string, before: set<string>, m: Ledger)
    requires Counts(l, before) && email !in l.succeeded && email !in l.seen
    requires m.seen == l.seen + {email} && m.succeeded == l.succeeded && l.failed <= m.failed && email in m.failed
    requires m.success == l.success && m.failure == l.failure + 1
    ensures Counts(m, before)
  {}

  /** Whatever overlaps earlier runs left, and in whatever order outcomes arrive. */
  lemma {:induction false} RunIsSound(p: Previous, events: seq<Event>)
    ensures Sound(After(Opened(p), events), p.success)
    decreases |events|
  {
    if events == [] {
      OpenedIsSound(p);
    } else {
      hide Sound, Opened, Recorded;
      RunIsSound(p, events[..|events| - 1]);
      RecordedIsSound(After(Opened(p), events[..|events| - 1]), events[|events| - 1], p.success);
    }
  }

  // ---------------------------------------------------------------- the first outcome decides

  datatype Standing = Unknown | Good | Bad(kind: FailureClass)

  function StandingOf(l: Ledger, email: string): Standing {
    if email in l.succeeded then Good
    else if email in l.recoverable then Bad(Recoverable)
    else if email in l.unrecoverable then Bad(Unrecoverable)
    else if email in l.rateLimited then Bad(RateLimited)
    else Unknown
  }

  /** What a mailbox's first event makes of where it stood: a rejection leaves an earlier failure as it was. */
  function Decides(was: Standing, e: Event): Standing {
    match e
    case Succeed(_) => Good
    case Fail(_, kind) => Bad(kind)
    case Reject(_) => if was.Bad? then was else Bad(Recoverable)
  }

  function FirstOf(events: seq<Event>, email: string): (n: nat)
    ensures n <= |events|
    ensures forall i :: 0 <= i < n ==> events[i].email != email
    ensures n < |events| ==> events[n].email == email
  {
    if events == [] || events[0].email == email then 0 else 1 + FirstOf(events[1..], email)
  }

  /** An earlier success stays; otherwise the first event decides, and without one nothing changes. */
  function Outcome(was: Standing, events: seq<Event>, email: string): Standing {
    if was.Good? || FirstOf(events, email) == |events| then was else Decides(was, events[FirstOf(events, email)])
  }

  /** Where a mailbox stands after a run depends on its first event alone. */
  lemma {:induction false} FirstEventDecides(p: Previous, events: seq<Event>, email: string)
    ensures StandingOf(After(Opened(p), events), email) == Outcome(StandingOf(Opened(p), email), events, email)
    ensures email in After(Opened(p), events).seen <==> email !in p.success && FirstOf(events, email) < |events|
    decreases |events|
  {
    if events == [] {
    } else {
      hide *;
      var rest, e := events[..|events| - 1], events[|events| - 1];
      FirstEventDecides(p, rest, email);
      assert events == rest + [e];
      AfterOne(p, events, email);
      OutcomeAppends(StandingOf(Opened(p), email), rest, e, email);
      OpenedGood(p, email);
    }
  }

  lemma {:induction false} AfterOne(p: Previous, events: seq<Event>, email: string)
    requires events != []
    ensures var l, e := After(Opened(p), events[..|events| - 1]), events[|events| - 1];
            var m := After(Opened(p), events);
            && StandingOf(m, email) ==
               (if e.email != email || StandingOf(l, email).Good? || email in l.seen then StandingOf(l, email)
                else Decides(StandingOf(l, email), e))
            && (email in m.seen <==> email in l.seen || (e.email == email && email !in l.succeeded))
            && (email in l.succeeded <==> email in p.success || (email in l.seen && StandingOf(l, email).Good?))
  {
    hide Opened, Sound, Recorded, Decides;
    var l := After(Opened(p), events[..|events| - 1]);
    RunIsSound(p, events[..|events| - 1]);
    SoundParts(l, p.success);
    SeenIsDecided(l, p.success, email);
    RecordedStanding(l, events[|events| - 1], email);
  }

  /** A mailbox whose first event is a success is in the success ledger afterwards and in no other. */
  lemma {:induction false} FirstSuccessCounts(p: Previous, events: seq<Event>, n: nat, email: string)
    requires n < |events| && events[n] == Succeed(email) && forall i :: 0 <= i < n ==> events[i].email != email
    ensures var l := After(Opened(p), events);
            email in l.succeeded && email !in l.failed + l.recoverable + l.unrecoverable + l.rateLimited
  {
    hide Opened, After, Sound;
    FirstEventDecides(p, events, email);
    assert FirstOf(events, email) == n;
    RunIsSound(p, events);
    SuccessIsApart(After(Opened(p), events), p.success);
  }

  lemma {:induction false} SuccessIsApart(l: Ledger, before: set<string>)
    requires Sound(l, before)
    ensures l.succeeded !! l.failed && l.failed == l.recoverable + l.unrecoverable + l.rateLimited
  {}

  /** A mailbox whose first event is a failure, and that had not succeeded before, is in the ledger of that class. */
  lemma {:induction false} FirstFailureCounts(p: Previous, events: seq<Event>, n: nat, email: string,
                                              kind: FailureClass)
    requires n < |events| && events[n] == Fail(email, kind) && forall i :: 0 <= i < n ==> events[i].email != email
    requires email !in p.success
    ensures var l := After(Opened(p), events);
            && email in l.failed && email !in l.succeeded
            && (email in l.recoverable <==> kind.Recoverable?) && (email in l.unrecoverable <==> kind.Unrecoverable?)
            && (email in l.rateLimited <==> kind.RateLimited?)
  {
    hide Opened, After, Sound, Apart;
    FirstEventDecides(p, events, email);
    assert FirstOf(events, email) == n;
    RunIsSound(p, events);
    OpenedGood(p, email);
    StandingIs(After(Opened(p), events), p.success, email);
  }

  lemma {:induction false} StandingIs(l: Ledger, before: set<string>, email: string)
    requires Sound(l, before) && StandingOf(l, email).Bad?
    ensures var kind := StandingOf(l, email).kind;
            && email in l.failed && email !in l.succeeded
            && (email in l.recoverable <==> kind.Recoverable?) && (email in l.unrecoverable <==> kind.Unrecoverable?)
            && (email in l.rateLimited <==> kind.RateLimited?)
  {}

  function Emails(events: seq<Event>): set<string> { set e | e in events :: e.email }

  /** The two counters add up to the number of different mailboxes reported, not counting earlier successes. */
  lemma {:induction false} RunCountsMailboxes(p: Previous, events: seq<Event>)
    ensures var l := After(Opened(p), events);
            l.seen == Emails(events) - p.success && l.success + l.failure == |Emails(events) - p.success|
  {
    hide Opened, Recorded, After, Outcome, StandingOf;
    var l := After(Opened(p), events);
    RunIsSound(p, events);
    forall email ensures email in l.seen <==> email in Emails(events) - p.success {
      FirstEventDecides(p, events, email);
      if email in Emails(events) { var i :| 0 <= i < |events| && events[i].email == email; }
    }
  }

  lemma {:induction false} OutcomeAppends(was: Standing, rest: seq<Event>, e: Event, email: string)
    ensures Outcome(was, rest + [e], email) ==
            if e.email != email || was.Good? || FirstOf(rest, email) < |rest| then Outcome(was, rest, email)
            else Decides(was, e)
    ensures FirstOf(rest + [e], email) < |rest| + 1 <==> FirstOf(rest, email) < |rest| || e.email == email
    ensures FirstOf(rest, email) == |rest| ==> Outcome(was, rest, email) == was
  {
    hide Decides;
    FirstIsFirst(rest, e, email);
  }

  lemma {:induction false} OpenedGood(p: Previous, email: string)
    ensures StandingOf(Opened(p), email).Good? <==> email in p.success
  {}

  lemma {:induction false} SeenIsDecided(l: Ledger, before: set<string>, email: string)
    requires Sound(l, before)
    ensures email in before ==> email in l.succeeded && email !in l.seen
    ensures email in l.succeeded ==> email in before || email in l.seen
  {}

  lemma {:induction false} FirstIsFirst(rest: seq<Event>, e: Event, email: string)
    ensures FirstOf(rest + [e], email) ==
            if FirstOf(rest, email) < |rest| then FirstOf(rest, email)
            else if e.email == email then |rest| else |rest| + 1
    ensures forall i :: 0 <= i < |rest| ==> (rest + [e])[i] == rest[i]
  {
    var n, m := FirstOf(rest, email), FirstOf(rest + [e], email);
    assert forall i :: 0 <= i < |rest| ==> (rest + [e])[i] == rest[i];
    assert (rest + [e])[|rest|] == e;
  }

  lemma {:induction false} SoundParts(l: Ledger, before: set<string>)
    requires Sound(l, before)
    ensures l.failed == l.recoverable + l.unrecoverable + l.rateLimited
  {}

  lemma {:induction false} RecordedStanding(l: Ledger, e: Event, email: string)
    requires l.failed == l.recoverable + l.unrecoverable + l.rateLimited
    ensures StandingOf(Recorded(l, e), email) ==
            if e.email != email || email in l.succeeded || email in l.seen then StandingOf(l, email)
            else Decides(StandingOf(l, email), e)
    ensures email in Recorded(l, e).seen <==> email in l.seen || (e.email == email && email !in l.succeeded)
  {
    if e.email in l.succeeded || e.email in l.seen {
    } else if e.Fail? {
      FailureStanding(l.(seen := l.seen + {e.email}), e.email, e.kind, email);
    }
  }

  lemma {:induction false} FailureStanding(l: Ledger, failing: string, kind: FailureClass, email: string)
    requires failing !in l.succeeded
    ensures StandingOf(Listed(Cleared(l, failing), failing, kind), email) ==
            if failing == email then Bad(kind) else StandingOf(l, email)
  {}

  // ---------------------------------------------------------------- skipping known failures

  function Skipped(p: Previous, retryRecoverable: bool, retryAll: bool): set<string> {
    if retryAll then {} else (p.unrecoverable + if retryRecoverable then {} else p.recoverable) - p.rateLimited
  }

  method ResumeErrorSkipSet(p: Previous, retryRecoverable: bool, retryAll: bool) returns (skipped: set<string>)
    ensures skipped == Skipped(p, retryRecoverable, retryAll)
  {
    skipped := {};
    if retryAll { return; }
    var rest := p.unrecoverable;
    while rest != {}
      invariant rest <= p.unrecoverable && skipped == p.unrecoverable - rest - p.rateLimited
    {
      var email :| email in rest;
      rest := rest - {email};
      if email !in p.rateLimited { skipped := skipped + {email}; }
    }
    if !retryRecoverable {
      rest := p.recoverable;
      while rest != {}
        invariant rest <= p.recoverable && skipped == p.unrecoverable + (p.recoverable - rest) - p.rateLimited
      {
        var email :| email in rest;
        rest := rest - {email};
        if email !in p.rateLimited { skipped := skipped + {email}; }
      }
    }
  }

  /** Of the mailboxes that have not succeeded, the skipped ones are exactly those whose ledger says
      unrecoverable, and, unless they are retried, those whose ledger says recoverable. */
  lemma {:induction false} SkippedIff(p: Previous, retryRecoverable: bool, email: string)
    requires email !in p.success
    ensures email in Skipped(p, retryRecoverable, false) <==>
              StandingOf(Opened(p), email) == Bad(Unrecoverable)
              || (StandingOf(Opened(p), email) == Bad(Recoverable) && !retryRecoverable)
    ensures email !in Skipped(p, retryRecoverable, true)
  {}

  /** Rejecting a skipped mailbox counts it and leaves all ledgers as they were. */
  lemma {:induction false} SkippingKeepsLedgers(p: Previous, retryRecoverable: bool, retryAll: bool, events: seq<Event>,
                                                email: string)
    requires email in Skipped(p, retryRecoverable, retryAll) && email !in p.success
    requires FirstOf(events, email) < |events| && events[FirstOf(events, email)] == Reject(email)
    ensures StandingOf(After(Opened(p), events), email) == StandingOf(Opened(p), email) != Unknown
  {
    FirstEventDecides(p, events, email);
    SkippedIsBad(p, retryRecoverable, retryAll, email);
  }

  lemma {:induction false} SkippedIsBad(p: Previous, retryRecoverable: bool, retryAll: bool, email: string)
    requires email in Skipped(p, retryRecoverable, retryAll) && email !in p.success
    ensures StandingOf(Opened(p), email).Bad?
  {}
}
