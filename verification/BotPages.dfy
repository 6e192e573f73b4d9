/** What it takes to cut a correct page out of several partial listings: each source has to bring either
    all its events or enough earlier ones. */
module BotPages {
  import opened BotCursor

  ghost predicate NoDup(s: seq<Event>) { forall i, j :: 0 <= i < j < |s| ==> s[i] != s[j] }

  ghost function Earlier(events: seq<Event>, e: Event): set<Event> {
    set x | x in events && Before(x.cursor, e.cursor)
  }

  /** events is a part of the log from which its first limit events can be cut: an event is missing only
      if at least limit earlier ones are there. */
  ghost predicate Sufficient(events: seq<Event>, log: set<Event>, limit: nat) {
    && NoDup(events)
    && (forall e :: e in events ==> e in log)
    && (forall e :: e in log && e !in events ==> |Earlier(events, e)| >= limit)
  }

  lemma {:induction false} SubsetSize<T>(a: set<T>, b: set<T>)
    requires a <= b
    ensures |a| <= |b|
  {
    if a != {} {
      var x :| x in a;
      SubsetSize(a - {x}, b - {x});
    }
  }

  /** The events of a sequence without repetitions. */
  lemma {:induction false} SizeOfDistinct(s: seq<Event>)
    requires NoDup(s)
    ensures |set x | x in s| == |s|
  {
    if s != [] {
      var t := s[..|s| - 1];
      SizeOfDistinct(t);
      assert s[|s| - 1] !in t;
      assert (set x | x in s) == (set x | x in t) + {s[|s| - 1]};
    }
  }

  lemma {:induction false} SizeOfSeq(s: seq<Event>)
    ensures |set x | x in s| <= |s|
  {
    if s != [] {
      var t := s[..|s| - 1];
      SizeOfSeq(t);
      assert (set x | x in s) == (set x | x in t) + {s[|s| - 1]};
    }
  }

  lemma {:induction false} EarlierGrows(a: seq<Event>, b: seq<Event>, e: Event)
    requires forall x :: x in a ==> x in b
    ensures |Earlier(a, e)| <= |Earlier(b, e)|
  {
    SubsetSize(Earlier(a, e), Earlier(b, e));
  }

  lemma {:induction false} SufficientTogether(a: seq<Event>, b: seq<Event>, logA: set<Event>, logB: set<Event>,
                                              limit: nat)
    requires Sufficient(a, logA, limit) && Sufficient(b, logB, limit) && logA !! logB
    ensures Sufficient(a + b, logA + logB, limit)
  {
    forall i, j | 0 <= i < j < |a + b| ensures (a + b)[i] != (a + b)[j] {
      if i < |a| <= j { assert a[i] in logA && b[j - |a|] in logB; }
    }
    forall e | e in logA + logB && e !in a + b ensures |Earlier(a + b, e)| >= limit {
      if e in logA { EarlierGrows(a, a + b, e); } else { EarlierGrows(b, a + b, e); }
    }
  }

  // ---------------------------------------------------------------- sorting

  /** No element is after its successor: what sort.Slice leaves behind. */
  ghost predicate InOrder(s: seq<Event>) { forall i, j :: 0 <= i < j < |s| ==> !Before(s[j].cursor, s[i].cursor) }

  lemma {:induction false} AppendKeepsOrder(s: seq<Event>, e: Event)
    requires InOrder(s) && forall x :: x in multiset(s) ==> !Before(e.cursor, x.cursor)
    ensures InOrder(s + [e])
  {
    forall i, j | 0 <= i < j < |s + [e]| ensures !Before((s + [e])[j].cursor, (s + [e])[i].cursor) {
      assert s[i] in multiset(s);
    }
  }

  function Insert(s: seq<Event>, e: Event): (r: seq<Event>)
    requires InOrder(s)
    ensures InOrder(r) && multiset(r) == multiset(s) + multiset{e}
  {
    if s == [] then [e]
    else
      var last := s[|s| - 1];
      var front := s[..|s| - 1];
      assert s == front + [last];
      if Before(e.cursor, last.cursor) then
        var r := Insert(front, e);
        AppendKeepsOrder(r, last);
        r + [last]
      else
        AppendKeepsOrder(s, e);
        s + [e]
  }

  function Sort(s: seq<Event>): (r: seq<Event>)
    ensures InOrder(r) && multiset(r) == multiset(s)
  {
    if s == [] then []
    else
      assert s == s[..|s| - 1] + [s[|s| - 1]];
      Insert(Sort(s[..|s| - 1]), s[|s| - 1])
  }

  function Truncate(s: seq<Event>, limit: nat): seq<Event> { if |s| > limit then s[..limit] else s }

  lemma {:induction false} SameElements(a: seq<Event>, b: seq<Event>)
    requires multiset(a) == multiset(b)
    ensures forall x :: x in a <==> x in b
  {
    forall x ensures x in a <==> x in b {
      assert x in a <==> x in multiset(a);
      assert x in b <==> x in multiset(b);
    }
  }

  lemma {:induction false} DistinctByCount(s: seq<Event>)
    ensures NoDup(s) <==> forall x :: multiset(s)[x] <= 1
  {
    if s != [] {
      var t, last := s[..|s| - 1], s[|s| - 1];
      DistinctByCount(t);
      assert s == t + [last];
      assert last in t <==> multiset(t)[last] >= 1;
      if NoDup(s) {
        assert last !in t;
        assert forall x :: multiset(s)[x] <= 1;
      } else if last !in t {
        assert !NoDup(t);
        var x :| multiset(t)[x] > 1;
        assert multiset(s)[x] > 1;
      } else {
        assert multiset(s)[last] > 1;
      }
    }
  }

  lemma {:induction false} SortedIsAscending(events: seq<Event>)
    requires NoDup(events) && forall e :: e in events ==> Genuine(e)
    ensures Ascending(Sort(events)) && forall e :: e in Sort(events) <==> e in events
  {
    var s := Sort(events);
    SameElements(s, events);
    DistinctByCount(s);
    DistinctByCount(events);
    forall i, j | 0 <= i < j < |s| ensures Before(s[i].cursor, s[j].cursor) {
      assert s[i] in events && s[j] in events;
      if s[i].cursor == s[j].cursor { SameCursorSameEvent(s[i], s[j]); }
    }
  }

  lemma {:induction false} EarlierInSorted(s: seq<Event>, n: nat, e: Event)
    requires Ascending(s) && n <= |s| && e !in s && |Earlier(s, e)| >= n
    requires forall x :: x in s ==> x.cursor != e.cursor
    ensures forall x :: x in s[..n] ==> Before(x.cursor, e.cursor)
  {
    forall i | 0 <= i < n ensures Before(s[i].cursor, e.cursor) {
      if !Before(s[i].cursor, e.cursor) {
        assert Before(e.cursor, s[i].cursor) by { assert s[i] in s; }
        var early := set x | x in s[..i];
        assert Earlier(s, e) <= early;
        SubsetSize(Earlier(s, e), early);
        SizeOfSeq(s[..i]);
        assert false;
      }
    }
  }

  /** Sorting and cutting a sufficient listing gives the page. */
  lemma {:induction false} CutIsPage(events: seq<Event>, log: set<Event>, limit: nat)
    requires Sufficient(events, log, limit) && forall e :: e in log ==> Genuine(e)
    ensures IsPage(Truncate(Sort(events), limit), log, limit)
  {
    var s := Sort(events);
    SortedIsAscending(events);
    var page := Truncate(s, limit);
    forall e | e in log && e !in page ensures |page| == limit && forall x :: x in page ==> Before(x.cursor, e.cursor) {
      if e in s {
        var i :| 0 <= i < |s| && s[i] == e;
        assert i >= limit by { assert forall j :: 0 <= j < |page| ==> page[j] == s[j] && page[j] in page; }
      } else {
        assert Earlier(s, e) == Earlier(events, e);
        forall x | x in s ensures x.cursor != e.cursor {
          if x.cursor == e.cursor { SameCursorSameEvent(x, e); }
        }
        SubsetSize(Earlier(s, e), set x | x in s);
        SizeOfSeq(s);
        assert |s| >= limit;
        EarlierInSorted(s, limit, e);
        assert page == s[..limit];
      }
    }
  }

  lemma {:induction false} PageIsSufficient(page: seq<Event>, log: set<Event>, limit: nat)
    requires IsPage(page, log, limit)
    ensures Sufficient(page, log, limit)
  {
    forall e | e in log && e !in page ensures |Earlier(page, e)| >= limit {
      assert Earlier(page, e) == set x | x in page;
      SizeOfDistinct(page);
    }
  }
}
