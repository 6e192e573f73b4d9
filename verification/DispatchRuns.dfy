/** Every run of the dispatcher together with its workers: no two workers share a recovery key, no item
    is lost or duplicated, keys are served fairly and in order, and retries wait. */
module DispatchRuns {
  import opened Options
  import opened Text
  import opened DispatchSteps

  // ---------------------------------------------------------------- runs

  /** The dispatcher together with its environment: the items out with workers, and the history of
      items that arrived, that were handed out for the first time, and that finished without a retry.
      retries counts, for each key, the retried items waiting at the front of its bucket. */
  datatype World = World(
    t: Table,
    open: bool,
    out: map<Key, Item>,
    arrived: seq<Item>,
    first: seq<Item>,
    finished: seq<Item>,
    retries: map<Key, nat>)

  /** One case of the select statement, with the clock values that case reads. */
  datatype Event =
    | Arrive(item: Item, now: int)
    | Close
    | Finish(c: Completion, nowDefault: int, nowAdd: int)
    | Offer
    | Wake(now: int)

  const Start := World(Empty, true, map[], [], [], [], map[])

  function Retries(w: World, k: Key): nat { if k in w.retries then w.retries[k] else 0 }

  function AfterArrive(w: World, item: Item, now: int): World {
    w.(t := Enqueue(w.t, item, false, now), arrived := w.arrived + [Keyed(item)])
  }

  function AfterFinish(w: World, c: Completion, nowDefault: int, nowAdd: int): World {
    var u := w.(t := Complete(w.t, c, nowDefault, nowAdd), out := w.out - {c.activeKey});
    var k := RetryItem(c).recoveryKey;
    if c.retry then u.(retries := w.retries[k := Retries(w, k) + 1])
    else u.(finished := w.finished + [c.item])
  }

  function AfterOffer(w: World): World
    requires w.t.ready != [] && Bucket(w.t, w.t.ready[0]) != []
  {
    var k := w.t.ready[0];
    var item := Bucket(w.t, k)[0];
    var u := w.(t := Send(w.t), out := w.out[k := item]);
    if Retries(w, k) > 0 then u.(retries := w.retries[k := Retries(w, k) - 1])
    else u.(first := w.first + [item])
  }

  /** What can happen next. A worker reports each item it was given once, under the key it was given it
      for, possibly with another recovery key. */
  ghost predicate Step(w: World, e: Event, w': World) {
    match e
    case Arrive(item, now) => w.open && w' == AfterArrive(w, item, now)
    case Close => w.open && w' == w.(open := false)
    case Finish(c, nowDefault, nowAdd) =>
      && c.activeKey in w.out && Identity(c.item) == Identity(w.out[c.activeKey])
      && w' == AfterFinish(w, c, nowDefault, nowAdd)
    case Offer => w.t.ready != [] && Bucket(w.t, w.t.ready[0]) != [] && w' == AfterOffer(w)
    case Wake(now) => Wakes(w.t, now, w'.t) && w' == w.(t := w'.t)
  }

  ghost predicate Run(ws: seq<World>, es: seq<Event>) {
    && |ws| == |es| + 1
    && forall i :: 0 <= i < |es| ==> Step(ws[i], es[i], ws[i + 1])
  }

  // ---------------------------------------------------------------- conservation

  function Ids(items: seq<Item>): (ids: seq<(string, nat)>)
    ensures |ids| == |items|
  {
    seq(|items|, i requires 0 <= i < |items| => Identity(items[i]))
  }

  /** All accounts held in a table of queues. */
  ghost function Content(m: map<Key, seq<Item>>): multiset<(string, nat)> {
    if m == map[] then multiset{}
    else
      var k :| k in m;
      multiset(Ids(m[k])) + Content(m - {k})
  }

  ghost function Singles(out: map<Key, Item>): map<Key, seq<Item>> { map k | k in out :: [out[k]] }

  ghost function Outside(out: map<Key, Item>): multiset<(string, nat)> { Content(Singles(out)) }

  lemma {:induction false} ContentAt(m: map<Key, seq<Item>>, k: Key)
    requires k in m
    ensures Content(m) == multiset(Ids(m[k])) + Content(m - {k})
    decreases |m|
  {
    hide Ids;
    var j :| j in m && Content(m) == multiset(Ids(m[j])) + Content(m - {j});
    if j != k {
      ContentAt(m - {j}, k);
      ContentAt(m - {k}, j);
      assert m - {j} - {k} == m - {k} - {j};
    }
  }

  lemma {:induction false} ContentWith(m: map<Key, seq<Item>>, k: Key, queue: seq<Item>)
    ensures Content(m[k := queue]) == multiset(Ids(queue)) + Content(m - {k})
  {
    ContentAt(m[k := queue], k);
    assert m[k := queue] - {k} == m - {k};
  }

  lemma {:induction false} OutsideWith(out: map<Key, Item>, k: Key, item: Item)
    requires k !in out
    ensures Outside(out[k := item]) == Outside(out) + multiset{Identity(item)}
  {
    hide Content;
    var m := Singles(out);
    assert Singles(out[k := item]) == m[k := [item]];
    ContentWith(m, k, [item]);
    assert m - {k} == m;
    IdsOne(item);
  }

  lemma {:induction false} OutsideWithout(out: map<Key, Item>, k: Key)
    requires k in out
    ensures Outside(out) == Outside(out - {k}) + multiset{Identity(out[k])}
  {
    OutsideWith(out - {k}, k, out[k]);
    assert (out - {k})[k := out[k]] == out;
  }

  lemma {:induction false} IdsOne(item: Item)
    ensures multiset(Ids([item])) == multiset{Identity(item)}
  {
    assert Ids([item]) == [Identity(item)];
  }

  lemma {:induction false} IdsConcat(a: seq<Item>, b: seq<Item>)
    ensures Ids(a + b) == Ids(a) + Ids(b)
    ensures multiset(Ids(a + b)) == multiset(Ids(a)) + multiset(Ids(b))
  {
    assert Ids(a + b) == Ids(a) + Ids(b);
  }

  lemma {:induction false} ContentSplit(t: Table, k: Key)
    ensures Content(t.buckets) == multiset(Ids(Bucket(t, k))) + Content(t.buckets - {k})
  {
    if k in t.buckets {
      ContentAt(t.buckets, k);
    } else {
      assert t.buckets - {k} == t.buckets;
    }
  }

  /** Queueing an item touches one bucket, and one end of it. */
  lemma {:induction false} EnqueueEffect(t: Table, item: Item, front: bool, now: int)
    ensures var u, it := Enqueue(t, item, front, now), Keyed(item);
            && u.active == t.active
            && Bucket(u, it.recoveryKey) ==
                 (if front then [it] + Bucket(t, it.recoveryKey) else Bucket(t, it.recoveryKey) + [it])
            && (forall x :: x != it.recoveryKey ==> Bucket(u, x) == Bucket(t, x))
            && Content(u.buckets) == Content(t.buckets) + multiset{Identity(item)}
  {
    hide Blank, Keyed, Content;
    var it := Keyed(item);
    var k := it.recoveryKey;
    var queue := if front then [it] + Bucket(t, k) else Bucket(t, k) + [it];
    assert Enqueue(t, item, front, now).buckets == t.buckets[k := queue];
    ContentSplit(t, k);
    ContentWith(t.buckets, k, queue);
    assert multiset(Ids(queue)) == multiset(Ids(Bucket(t, k))) + multiset{Identity(item)} by {
      IdsConcat([it], Bucket(t, k));
      IdsConcat(Bucket(t, k), [it]);
      IdsOne(it);
    }
  }

  lemma {:induction false} BlockEffect(t: Table, k: Key, until: int)
    ensures Block(t, k, until).buckets == t.buckets && Block(t, k, until).active == t.active
    ensures forall x :: Bucket(Block(t, k, until), x) == Bucket(t, x)
  {}

  lemma {:induction false} CompleteEffect(t: Table, c: Completion, nowDefault: int, nowAdd: int)
    ensures var u, it := Complete(t, c, nowDefault, nowAdd), Keyed(RetryItem(c));
            && u.active == t.active - {c.activeKey}
            && (c.retry ==> Bucket(u, it.recoveryKey) == [it] + Bucket(t, it.recoveryKey))
            && (forall x :: !c.retry || x != it.recoveryKey ==> Bucket(u, x) == Bucket(t, x))
            && Content(u.buckets) == Content(t.buckets) + (if c.retry then multiset{Identity(c.item)} else multiset{})
  {
    hide Blank, Keyed, Content, Block, Enqueue;
    var u := t.(active := t.active - {c.activeKey});
    if c.retry {
      var it := RetryItem(c);
      var at := if c.retryAt.None? then nowDefault + RETRY_DELAY else c.retryAt.value;
      EnqueueEffect(u, it, true, nowAdd);
      var v := Enqueue(u, it, true, nowAdd);
      BlockEffect(v, c.activeKey, at);
      BlockEffect(Block(v, c.activeKey, at), it.recoveryKey, at);
    }
  }

  lemma {:induction false} SendEffect(t: Table)
    requires t.ready != [] && Bucket(t, t.ready[0]) != []
    ensures var u, k := Send(t), t.ready[0];
            && u.active == t.active + {k}
            && Bucket(u, k) == Bucket(t, k)[1..]
            && (forall x :: x != k ==> Bucket(u, x) == Bucket(t, x))
            && Content(t.buckets) == Content(u.buckets) + multiset{Identity(Bucket(t, k)[0])}
  {
    hide Content;
    var k := t.ready[0];
    var queue := t.buckets[k];
    ContentSplit(t, k);
    assert queue == [queue[0]] + queue[1..];
    IdsConcat([queue[0]], queue[1..]);
    IdsOne(queue[0]);
    if queue[1..] != [] { ContentWith(t.buckets, k, queue[1..]); } else { assert Ids(queue[1..]) == []; }
  }

  // ---------------------------------------------------------------- what every run keeps

  function OfKey(items: seq<Item>, k: Key): seq<Item> {
    if items == [] then []
    else OfKey(items[..|items| - 1], k) + (if items[|items| - 1].recoveryKey == k then [items[|items| - 1]] else [])
  }

  ghost predicate Conserved(w: World) {
    multiset(Ids(w.arrived)) == Content(w.t.buckets) + Outside(w.out) + multiset(Ids(w.finished))
  }

  /** Behind the retried items, the bucket of k holds exactly the arrivals under k that were never
      handed out, in arrival order. */
  ghost predicate InOrder(w: World, k: Key) {
    && Retries(w, k) <= |Bucket(w.t, k)|
    && OfKey(w.first, k) + Bucket(w.t, k)[Retries(w, k)..] == OfKey(w.arrived, k)
  }

  ghost predicate Inv(w: World) {
    && Valid(w.t)
    && w.t.active == w.out.Keys
    && (forall k :: k in w.out ==> !Blank(k))
    && Conserved(w)
    && (forall k :: InOrder(w, k))
  }

  lemma {:induction false} StepConserves(w: World, e: Event, w': World)
    requires Inv(w) && Step(w, e, w')
    ensures Conserved(w') && w'.t.active == w'.out.Keys
  {
    hide Enqueue, Complete, Send, Content, Outside, Blank, Keyed, Ids, InOrder, Valid;
    match e {
      case Arrive(item, now) =>
        EnqueueEffect(w.t, item, false, now);
        IdsConcat(w.arrived, [Keyed(item)]);
        IdsOne(Keyed(item));
      case Close =>
      case Finish(c, nowDefault, nowAdd) => FinishConserves(w, c, nowDefault, nowAdd, w');
      case Offer => OfferConserves(w, w');
      case Wake(now) =>
    }
  }

  lemma {:induction false} FinishConserves(w: World, c: Completion, nowDefault: int, nowAdd: int, w': World)
    requires Inv(w) && Step(w, Finish(c, nowDefault, nowAdd), w')
    ensures Conserved(w') && w'.t.active == w'.out.Keys
  {
    hide Enqueue, Complete, Send, Content, Outside, Blank, Keyed, Ids, InOrder, Valid;
    OutsideWithout(w.out, c.activeKey);
    CompleteEffect(w.t, c, nowDefault, nowAdd);
    IdsConcat(w.finished, [c.item]);
    IdsOne(c.item);
  }

  lemma {:induction false} OfferConserves(w: World, w': World)
    requires Inv(w) && Step(w, Offer, w')
    ensures Conserved(w') && w'.t.active == w'.out.Keys
  {
    hide Enqueue, Complete, Send, Content, Outside, Blank, Keyed, Ids, InOrder, Valid;
    SendKeeps(w.t);
    SendEffect(w.t);
    OutsideWith(w.out, w.t.ready[0], Bucket(w.t, w.t.ready[0])[0]);
  }

  lemma {:induction false} OfKeySnoc(items: seq<Item>, item: Item, k: Key)
    ensures OfKey(items + [item], k) == OfKey(items, k) + (if item.recoveryKey == k then [item] else [])
  {
    assert (items + [item])[..|items|] == items;
  }

  lemma {:induction false} SequenceFacts<T>(done: seq<T>, queue: seq<T>, n: nat, x: T)
    requires n <= |queue|
    ensures done + (queue + [x])[n..] == done + queue[n..] + [x]
    ensures ([x] + queue)[n + 1..] == queue[n..]
    ensures n > 0 ==> queue[1..][n - 1..] == queue[n..]
    ensures n == 0 && queue != [] ==> done + [queue[0]] + queue[1..][n..] == done + queue[n..]
  {}

  lemma {:induction false} OfferKeepsOrder(w: World, w': World, k: Key)
    requires Valid(w.t) && InOrder(w, k) && Step(w, Offer, w')
    ensures InOrder(w', k)
  {
    hide Send, Content, Ids, Valid, Blank, OfKey, Bucket;
    HeadHasKey(w.t);
    SendEffect(w.t);
    var j := w.t.ready[0];
    var head := Bucket(w.t, j)[0];
    OfKeySnoc(w.first, head, k);
    if j == k {
      SequenceFacts(OfKey(w.first, k), Bucket(w.t, k), Retries(w, k), head);
    } else {
      assert Retries(w', k) == Retries(w, k) && Bucket(w'.t, k) == Bucket(w.t, k);
      assert OfKey(w'.first, k) == OfKey(w.first, k);
    }
  }

  lemma {:induction false} StepKeepsOrder(w: World, e: Event, w': World, k: Key)
    requires Inv(w) && Step(w, e, w')
    ensures InOrder(w', k)
  {
    hide Enqueue, Complete, Send, Content, Outside, Blank, Keyed, Ids, Conserved, OfKey, Bucket, Valid;
    assert InOrder(w, k);
    match e {
      case Arrive(item, now) =>
        EnqueueEffect(w.t, item, false, now);
        OfKeySnoc(w.arrived, Keyed(item), k);
        SequenceFacts(OfKey(w.first, k), Bucket(w.t, k), Retries(w, k), Keyed(item));
      case Close =>
      case Finish(c, nowDefault, nowAdd) =>
        CompleteEffect(w.t, c, nowDefault, nowAdd);
        RetryIsKeyed(c);
        SequenceFacts(OfKey(w.first, k), Bucket(w.t, k), Retries(w, k), RetryItem(c));
      case Offer => OfferKeepsOrder(w, w', k);
      case Wake(now) =>
        assert Bucket(w'.t, k) == Bucket(w.t, k) by { WakesEffect(w.t, now, w'.t, k); }
    }
  }

  lemma {:induction false} WakesEffect(t: Table, now: int, u: Table, k: Key)
    requires Wakes(t, now, u)
    ensures Bucket(u, k) == Bucket(t, k)
  {}

  /** A retried item always has a usable key: its worker's key is never blank. */
  lemma {:induction false} RetryIsKeyed(c: Completion)
    requires !Blank(c.activeKey)
    ensures Keyed(RetryItem(c)) == RetryItem(c)
  {
    hide Blank;
  }

  lemma {:induction false} StepKeepsValid(w: World, e: Event, w': World)
    requires Inv(w) && Step(w, e, w')
    ensures Valid(w'.t) && forall k :: k in w'.out ==> !Blank(k)
  {
    hide Enqueue, Complete, Blank, Keyed, Conserved, InOrder, Wakes, Content, Outside, Ids, Send;
    match e {
      case Arrive(item, now) => EnqueueKeeps(w.t, item, false, now, {});
      case Close =>
      case Finish(c, nowDefault, nowAdd) => CompleteKeeps(w.t, c, nowDefault, nowAdd);
      case Offer => SendKeeps(w.t);
      case Wake(now) => WakesKeeps(w.t, now, w'.t);
    }
  }

  lemma {:induction false} StepKeeps(w: World, e: Event, w': World)
    requires Inv(w) && Step(w, e, w')
    ensures Inv(w')
  {
    hide Step, Conserved, InOrder, Valid, Blank;
    StepConserves(w, e, w');
    StepKeepsValid(w, e, w');
    forall k ensures InOrder(w', k) { StepKeepsOrder(w, e, w', k); }
  }

  lemma {:induction false} StartIsValid()
    ensures Inv(Start)
  {
    assert Ids([]) == [];
    assert Singles(map[]) == map[];
  }

  lemma {:induction false} RunKeeps(ws: seq<World>, es: seq<Event>)
    requires Run(ws, es) && ws[0] == Start
    ensures forall i :: 0 <= i < |ws| ==> Inv(ws[i])
    decreases |es|
  {
    hide Step;
    hide Inv;
    if es == [] {
      StartIsValid();
    } else {
      var n := |es| - 1;
      assert Step(ws[n], es[n], ws[n + 1]);
      RunKeeps(ws[..n + 1], es[..n]);
      assert ws[..n + 1][n] == ws[n];
      StepKeeps(ws[n], es[n], ws[n + 1]);
    }
  }

  // ---------------------------------------------------------------- consequences

  /** The guards of the defensive rescan and of the stale-block cleanup are never met, and while work
      is left some case of the select is always enabled or will be when the timer fires. */
  lemma {:induction false} NeverStuck(w: World)
    requires Inv(w)
    ensures !(w.t.ready == [] && w.t.active == {} && w.t.blocked == map[] && w.t.buckets != map[])
    ensures forall k :: k in w.t.blocked ==> Bucket(w.t, k) != []
    ensures w.t.buckets != map[] || w.out != map[] ==> w.t.ready != [] || w.out != map[] || w.t.blocked != map[]
  {
    hide Blank, Conserved, InOrder;
    if w.t.buckets != map[] {
      var k :| k in w.t.buckets;
      assert k in w.t.readySet || k in w.out || k in w.t.blocked;
    }
  }

  /** Whatever else is out with workers, a blocked key whose time has come is ready after the release, unless it is
      itself with a worker, and is no longer blocked. */
  lemma {:induction false} TimerMakesProgress(w: World, k: Key, now: int, w': World)
    requires Inv(w) && Step(w, Wake(now), w')
    requires k in w.t.blocked && w.t.blocked[k] <= now
    ensures k !in w'.t.blocked && (k in w'.t.ready || k in w'.out)
  {
    hide Conserved, InOrder, Blank, Wakes, ValidBut;
    WakesAreDue(w.t, now, w'.t);
    WakesKeeps(w.t, now, w'.t);
    ReadyListed(w'.t);
  }

  lemma {:induction false} ReadyListed(t: Table)
    requires Valid(t)
    ensures forall k :: k in t.ready <==> k in t.readySet
  {
    hide Blank;
  }

  /** No arrival waits without a reason: its key is ready, or with a worker, or held past the time it arrived. */
  lemma {:induction false} ArrivalIsReady(w: World, item: Item, now: int, w': World)
    requires Step(w, Arrive(item, now), w')
    ensures var k := Keyed(item).recoveryKey;
            || k in w'.t.readySet || k in w.t.active
            || (k in w.t.blocked && now < w.t.blocked[k] && k in w'.t.blocked && w'.t.blocked[k] == w.t.blocked[k])
  {
    hide Keyed;
    KeyedIsNotEmpty(item);
  }

  lemma {:induction false} KeyedIsNotEmpty(item: Item)
    ensures Keyed(item).recoveryKey != ""
  {
    BlankEmpty();
  }

  /** Nor does the work of a key whose worker has finished. */
  lemma {:induction false} FinishedIsReady(w: World, c: Completion, nowDefault: int, nowAdd: int, w': World)
    requires Inv(w) && Step(w, Finish(c, nowDefault, nowAdd), w') && !c.retry
    ensures var k := c.activeKey;
            && k !in w'.t.active
            && (k in w.t.buckets ==> k in w'.t.readySet || (k in w'.t.blocked && nowAdd < w'.t.blocked[k]))
  {
    BlankEmpty();
    hide Conserved, InOrder, Blank;
  }

  /** An item goes to a worker under its own key, and never while that key is out. */
  lemma {:induction false} OfferIsExclusive(w: World, w': World)
    requires Inv(w) && Step(w, Offer, w')
    ensures var k := w.t.ready[0];
            k !in w.out && w'.out == w.out[k := Bucket(w.t, k)[0]] && w'.out[k].recoveryKey == k
  {
    hide Send, Conserved, InOrder, Blank;
    HeadHasKey(w.t);
    SendKeeps(w.t);
  }

  /** The uncancelled return: every arrived item finished without a retry exactly once, and the items
      of each key were first handed out in arrival order. */
  lemma {:induction false} ReturnMeansFinished(w: World)
    requires Inv(w)
    requires !w.open && w.t.active == {} && w.t.buckets == map[]
    ensures multiset(Ids(w.arrived)) == multiset(Ids(w.finished))
    ensures forall k :: OfKey(w.first, k) == OfKey(w.arrived, k)
  {
    hide Blank, Valid, OfKey;
    assert w.out == map[];
    assert Singles(w.out) == map[];
    forall k ensures OfKey(w.first, k) == OfKey(w.arrived, k) {
      assert InOrder(w, k);
      assert OfKey(w.first, k) + [] == OfKey(w.first, k);
    }
  }

  // ---------------------------------------------------------------- fairness

  ghost predicate ReadyWithin(t: Table, k: Key, i: int) { exists p :: 0 <= p <= i && p < |t.ready| && t.ready[p] == k }

  lemma {:induction false} WithoutKeepsPlace(s: seq<Key>, k: Key, p: nat)
    requires p < |s| && s[p] != k
    ensures exists q :: 0 <= q <= p && q < |Without(s, k)| && Without(s, k)[q] == s[p]
  {
    if s[0] == k {
      assert Without(s, k)[p - 1] == s[p];
    } else if p == 0 {
      assert Without(s, k)[0] == s[0];
    } else {
      WithoutKeepsPlace(s[1..], k, p - 1);
      var q :| 0 <= q <= p - 1 && q < |Without(s[1..], k)| && Without(s[1..], k)[q] == s[p];
      assert Without(s, k)[q + 1] == s[p];
    }
  }

  lemma {:induction false} AddReadyKeepsPlace(t: Table, j: Key, now: int, k: Key, i: int)
    requires ReadyWithin(t, k, i)
    ensures ReadyWithin(AddReady(t, j, now), k, i)
  {
    var p :| 0 <= p <= i && p < |t.ready| && t.ready[p] == k;
    assert AddReady(t, j, now).ready[p] == k;
  }

  lemma {:induction false} BlockKeepsPlace(t: Table, j: Key, until: int, k: Key, i: int)
    requires ReadyWithin(t, k, i) && k in Block(t, j, until).readySet
    ensures ReadyWithin(Block(t, j, until), k, i)
  {
    var p :| 0 <= p <= i && p < |t.ready| && t.ready[p] == k;
    var u := Block(t, j, until);
    if u.ready == t.ready {
      assert u.ready[p] == k;
    } else {
      assert k != j;
      WithoutKeepsPlace(t.ready, j, p);
    }
  }

  /** One step: a key that stays ready never moves back, and every send moves it forward by one. */
  lemma {:induction false} StepKeepsPlace(w: World, e: Event, w': World, k: Key, i: int)
    requires Inv(w) && Step(w, e, w') && ReadyWithin(w.t, k, i) && k in w'.t.readySet
    ensures ReadyWithin(w'.t, k, if e.Offer? then i - 1 else i)
  {
    hide Conserved, InOrder, Blank, Keyed, AddReady, Block, Content, Ids;
    match e {
      case Arrive(item, now) =>
        var it := Keyed(item);
        var queue := Bucket(w.t, it.recoveryKey) + [it];
        var u := w.t.(buckets := w.t.buckets[it.recoveryKey := queue]);
        assert ReadyWithin(u, k, i);
        AddReadyKeepsPlace(u, it.recoveryKey, now, k, i);
      case Close =>
      case Finish(c, nowDefault, nowAdd) => CompleteKeepsPlace(w.t, c, nowDefault, nowAdd, k, i);
      case Offer =>
        SendKeeps(w.t);
        var p :| 0 <= p <= i && p < |w.t.ready| && w.t.ready[p] == k;
        assert w'.t.ready[p - 1] == k;
      case Wake(now) =>
        var p :| 0 <= p <= i && p < |w.t.ready| && w.t.ready[p] == k;
        assert w'.t.ready[p] == w'.t.ready[..|w.t.ready|][p];
    }
  }

  lemma {:induction false} BlockShrinksReady(t: Table, j: Key, until: int)
    ensures Block(t, j, until).readySet <= t.readySet
  {}

  lemma {:induction false} CompleteKeepsPlace(t: Table, c: Completion, nowDefault: int, nowAdd: int, k: Key, i: int)
    requires ReadyWithin(t, k, i) && k in Complete(t, c, nowDefault, nowAdd).readySet
    ensures ReadyWithin(Complete(t, c, nowDefault, nowAdd), k, i)
  {
    hide Blank, Keyed, AddReady, Block;
    var u := t.(active := t.active - {c.activeKey});
    assert ReadyWithin(u, k, i);
    if c.retry {
      var item := RetryItem(c);
      var at := if c.retryAt.None? then nowDefault + RETRY_DELAY else c.retryAt.value;
      var it := Keyed(item);
      var u' := u.(buckets := u.buckets[it.recoveryKey := [it] + Bucket(u, it.recoveryKey)]);
      assert ReadyWithin(u', k, i);
      AddReadyKeepsPlace(u', it.recoveryKey, nowAdd, k, i);
      var v := Enqueue(u, item, true, nowAdd);
      BlockShrinksReady(Block(v, c.activeKey, at), item.recoveryKey, at);
      BlockKeepsPlace(v, c.activeKey, at, k, i);
      BlockKeepsPlace(Block(v, c.activeKey, at), item.recoveryKey, at, k, i);
    } else {
      AddReadyKeepsPlace(u, c.activeKey, nowAdd, k, i);
    }
  }

  function Offers(es: seq<Event>): nat {
    if es == [] then 0 else (if es[0].Offer? then 1 else 0) + Offers(es[1..])
  }

  /** Bounded bypass: while a ready key stays ready, at most the keys ahead of it are served. */
  lemma {:induction false} BoundedBypass(ws: seq<World>, es: seq<Event>, k: Key, i: int)
    requires Run(ws, es) && (forall j :: 0 <= j < |ws| ==> Inv(ws[j]))
    requires ReadyWithin(ws[0].t, k, i)
    requires forall j :: 0 <= j < |ws| ==> k in ws[j].t.readySet
    ensures Offers(es) <= i
    decreases |es|
  {
    hide Inv, Step;
    if es != [] {
      assert Step(ws[0], es[0], ws[1]);
      StepKeepsPlace(ws[0], es[0], ws[1], k, i);
      BoundedBypass(ws[1..], es[1..], k, if es[0].Offer? then i - 1 else i);
    }
  }

  // ---------------------------------------------------------------- retries wait

  ghost predicate Held(t: Table, k: Key, until: int) { k in t.blocked && t.blocked[k] >= until }

  /** Every clock reading of the event is before the given time. */
  predicate Before(e: Event, until: int) {
    match e
    case Arrive(_, now) => now < until
    case Finish(_, _, nowAdd) => nowAdd < until
    case Wake(now) => now < until
    case _ => true
  }

  lemma {:induction false} AddReadyKeepsHold(t: Table, j: Key, now: int, k: Key, until: int)
    requires Held(t, k, until) && now < until
    ensures Held(AddReady(t, j, now), k, until)
  {}

  lemma {:induction false} BlockKeepsHold(t: Table, j: Key, at: int, k: Key, until: int)
    ensures Held(t, k, until) ==> Held(Block(t, j, at), k, until)
    ensures j != "" && Bucket(t, j) != [] ==> Held(Block(t, j, at), j, at)
  {}

  lemma {:induction false} EnqueueKeepsHold(t: Table, item: Item, front: bool, now: int, k: Key, until: int)
    requires Held(t, k, until) && now < until
    ensures Held(Enqueue(t, item, front, now), k, until)
  {
    hide Blank, Keyed, AddReady;
    var j := Keyed(item).recoveryKey;
    var queue := if front then [Keyed(item)] + Bucket(t, j) else Bucket(t, j) + [Keyed(item)];
    AddReadyKeepsHold(t.(buckets := t.buckets[j := queue]), j, now, k, until);
  }

  lemma {:induction false} StepKeepsHold(w: World, e: Event, w': World, k: Key, until: int)
    requires Step(w, e, w') && Held(w.t, k, until) && Before(e, until)
    ensures Held(w'.t, k, until)
  {
    hide Blank, Keyed, AddReady, Block, Enqueue;
    match e {
      case Arrive(item, now) => EnqueueKeepsHold(w.t, item, false, now, k, until);
      case Close =>
      case Finish(c, nowDefault, nowAdd) =>
        var u := w.t.(active := w.t.active - {c.activeKey});
        if c.retry {
          var at := if c.retryAt.None? then nowDefault + RETRY_DELAY else c.retryAt.value;
          EnqueueKeepsHold(u, RetryItem(c), true, nowAdd, k, until);
          var v := Enqueue(u, RetryItem(c), true, nowAdd);
          BlockKeepsHold(v, c.activeKey, at, k, until);
          BlockKeepsHold(Block(v, c.activeKey, at), RetryItem(c).recoveryKey, at, k, until);
        } else {
          AddReadyKeepsHold(u, c.activeKey, nowAdd, k, until);
        }
      case Offer =>
      case Wake(now) =>
    }
  }

  /** A retry installs its delay on the key it is queued under, and on the key it came back from if that
      key still has work. */
  lemma {:induction false} RetryIsHeld(w: World, c: Completion, nowDefault: int, nowAdd: int, w': World)
    requires Inv(w) && Step(w, Finish(c, nowDefault, nowAdd), w') && c.retry
    ensures var at := if c.retryAt.None? then nowDefault + RETRY_DELAY else c.retryAt.value;
            && Held(w'.t, RetryItem(c).recoveryKey, at)
            && (Bucket(w'.t, c.activeKey) != [] ==> Held(w'.t, c.activeKey, at))
  {
    hide Keyed, Valid, InOrder, Conserved, AddReady, Block, Enqueue, Content;
    RetryIsKeyed(c);
    var item := RetryItem(c);
    var k := item.recoveryKey;
    assert c.activeKey != "" && k != "" by { BlankEmpty(); }
    hide Blank;
    var at := if c.retryAt.None? then nowDefault + RETRY_DELAY else c.retryAt.value;
    var u := w.t.(active := w.t.active - {c.activeKey});
    EnqueueEffect(u, item, true, nowAdd);
    var v := Enqueue(u, item, true, nowAdd);
    BlockEffect(v, c.activeKey, at);
    BlockEffect(Block(v, c.activeKey, at), k, at);
    BlockKeepsHold(v, c.activeKey, at, c.activeKey, at);
    BlockKeepsHold(Block(v, c.activeKey, at), k, at, c.activeKey, at);
  }

  ghost predicate BlockedUntil(t: Table, u: Table, k: Key, at: int) {
    && k in u.blocked && at <= u.blocked[k]
    && (u.blocked[k] == at || (k in t.blocked && u.blocked[k] == t.blocked[k]))
  }

  /** Where a retried item goes: to the front of the bucket of its key, or of the key it came back from if it has
      none, which waits until the time the worker named, or five seconds, and no longer. */
  lemma {:induction false} RetryIsQueued(w: World, c: Completion, nowDefault: int, nowAdd: int, w': World)
    requires Inv(w) && Step(w, Finish(c, nowDefault, nowAdd), w') && c.retry
    ensures var k := if Blank(c.item.recoveryKey) then c.activeKey else c.item.recoveryKey;
            var at := if c.retryAt.None? then nowDefault + 5_000 else c.retryAt.value;
            && Bucket(w'.t, k) == [c.item.(recoveryKey := k)] + Bucket(w.t, k)
            && BlockedUntil(w.t, w'.t, k, at) && k !in w'.t.readySet
            && (Bucket(w'.t, c.activeKey) != [] ==> BlockedUntil(w.t, w'.t, c.activeKey, at))
            && c.activeKey !in w'.t.active
  {
    hide Keyed, Valid, InOrder, Conserved, Block, Enqueue, Content;
    RetryIsKeyed(c);
    assert c.activeKey != "" && RetryItem(c).recoveryKey != "" by { BlankEmpty(); }
    hide Blank;
    var at := if c.retryAt.None? then nowDefault + 5_000 else c.retryAt.value;
    CompleteEffect(w.t, c, nowDefault, nowAdd);
    var u := w.t.(active := w.t.active - {c.activeKey});
    EnqueueBlocks(u, RetryItem(c), true, nowAdd);
    EnqueueEffect(u, RetryItem(c), true, nowAdd);
    BlocksAre(u, Enqueue(u, RetryItem(c), true, nowAdd), c.activeKey, RetryItem(c).recoveryKey, at);
  }

  /** Blocking two keys, one after the other. */
  lemma {:induction false} BlocksAre(t: Table, v: Table, j: Key, k: Key, at: int)
    requires j != "" && k != "" && Bucket(v, k) != []
    requires forall x :: x in v.blocked ==> x in t.blocked && v.blocked[x] == t.blocked[x]
    ensures var u := Block(Block(v, j, at), k, at);
            && BlockedUntil(t, u, k, at) && k !in u.readySet
            && (Bucket(u, j) != [] ==> BlockedUntil(t, u, j, at))
  {
    hide Block;
    BlockEffect(v, j, at);
    BlockIs(v, j, at);
    BlockEffect(Block(v, j, at), k, at);
    BlockIs(Block(v, j, at), k, at);
  }

  lemma {:induction false} EnqueueBlocks(t: Table, item: Item, front: bool, now: int)
    ensures forall k :: k in Enqueue(t, item, front, now).blocked ==>
              k in t.blocked && Enqueue(t, item, front, now).blocked[k] == t.blocked[k]
  {}

  lemma {:induction false} BlockIs(t: Table, k: Key, at: int)
    requires k != ""
    ensures var u := Block(t, k, at);
            && (forall j :: j != k ==> (j in u.blocked <==> j in t.blocked))
            && (forall j :: j != k && j in t.blocked ==> u.blocked[j] == t.blocked[j])
            && (Bucket(t, k) == [] ==> u == t)
            && (Bucket(t, k) != [] ==> BlockedUntil(t, u, k, at) && k !in u.readySet)
  {}

  /** No item of a delayed key is handed out before the clock has passed the delay. */
  lemma {:induction false} RetryHonoured(ws: seq<World>, es: seq<Event>, k: Key, until: int)
    requires Run(ws, es) && (forall j :: 0 <= j < |ws| ==> Inv(ws[j]))
    requires Held(ws[0].t, k, until)
    requires forall j :: 0 <= j < |es| ==> Before(es[j], until)
    ensures forall j :: 0 <= j < |es| && es[j].Offer? ==> ws[j].t.ready != [] && ws[j].t.ready[0] != k
    decreases |es|
  {
    hide Inv, Step;
    if es != [] {
      assert Step(ws[0], es[0], ws[1]);
      if es[0].Offer? { HeldIsNotOffered(ws[0], ws[1], k, until); }
      StepKeepsHold(ws[0], es[0], ws[1], k, until);
      assert ws[1..][0] == ws[1];
      RetryHonoured(ws[1..], es[1..], k, until);
      forall j | 0 <= j < |es| && es[j].Offer? ensures ws[j].t.ready != [] && ws[j].t.ready[0] != k {
        if j > 0 { assert es[1..][j - 1] == es[j] && ws[1..][j - 1] == ws[j]; }
      }
    }
  }

  lemma {:induction false} HeldIsNotOffered(w: World, w': World, k: Key, until: int)
    requires Inv(w) && Step(w, Offer, w') && Held(w.t, k, until)
    ensures w.t.ready != [] && w.t.ready[0] != k
  {
    hide Blank, Conserved, InOrder, Send;
    assert w.t.ready[0] in w.t.readySet;
  }
}
