/** What every run of the load alerter keeps: alerts are confirmed, one per episode, and not lost; and the
    local cache skips only what it may. */
module LoadAlerterRuns {
  import opened LoadAlerter
  import opened Options

  /** The alerter, the stored state, every sample so far, and the positions of the samples that raised an
      alert that was stored. */
  datatype World = World(a: Local, redis: State, history: seq<Sample>, fired: seq<nat>)

  /** One observation, or the stored state running out of its time to live. */
  datatype Input = Tick(s: Sample, w: Answers) | Expire

  const START := World(FRESH, EMPTY, [], [])

  predicate Raises(x: World, s: Sample, w: Answers) {
    Passes(x.a, x.redis, s, w) && Fires(Loaded(Noticed(x.a, s), x.redis), s)
  }

  function Next(x: World, input: Input): World {
    match input
    case Expire => x.(redis := EMPTY)
    case Tick(s, w) =>
      var (a, redis) := Observed(x.a, x.redis, s, w);
      World(a, redis, x.history + [s], if Raises(x, s, w) then x.fired + [|x.history|] else x.fired)
  }

  function Run(x: World, inputs: seq<Input>): World
    decreases |inputs|
  {
    if inputs == [] then x else Run(Next(x, inputs[0]), inputs[1..])
  }

  ghost predicate Chronological(h: seq<Sample>) { forall i, j :: 0 <= i < j < |h| ==> h[i].at <= h[j].at }

  // ---------------------------------------------------------------- confirmation

  ghost predicate OverloadedFrom(h: seq<Sample>, i: nat) { forall j :: i <= j < |h| ==> Overloaded(h[j]) }

  /** Some sample of that time began an overload that lasts to the end of the history. */
  ghost predicate OverloadedSince(h: seq<Sample>, t: int) {
    exists i :: 0 <= i < |h| && h[i].at == t && OverloadedFrom(h, i)
  }

  /** The sample at n ends an unbroken overload of at least ten minutes. */
  ghost predicate Confirmed(h: seq<Sample>, n: nat)
    requires n < |h|
  {
    exists i :: 0 <= i <= n && h[i].at + CONFIRM_WINDOW <= h[n].at && OverloadedFrom(h[..n + 1], i)
  }

  ghost predicate Sound(x: World) {
    && (x.redis == x.a.cached || x.redis == EMPTY)
    && (x.redis.since.Some? && !x.a.interrupted ==> OverloadedSince(x.history, x.redis.since.value))
    && (forall n :: n in x.fired ==> n < |x.history| && Confirmed(x.history, n))
  }

  lemma {:induction false} SinceExtends(h: seq<Sample>, t: int, s: Sample)
    requires OverloadedSince(h, t) && Overloaded(s)
    ensures OverloadedSince(h + [s], t)
  {
    var i :| 0 <= i < |h| && h[i].at == t && OverloadedFrom(h, i);
    assert (h + [s])[i].at == t && OverloadedFrom(h + [s], i);
  }

  lemma {:induction false} ConfirmedExtends(h: seq<Sample>, s: Sample, n: nat)
    requires n < |h| && Confirmed(h, n)
    ensures Confirmed(h + [s], n)
  {
    var i :| 0 <= i <= n && h[i].at + CONFIRM_WINDOW <= h[n].at && OverloadedFrom(h[..n + 1], i);
    assert (h + [s])[..n + 1] == h[..n + 1];
    assert (h + [s])[i].at + CONFIRM_WINDOW <= (h + [s])[n].at;
  }

  lemma {:induction false} RaisedIsConfirmed(x: World, s: Sample, w: Answers)
    requires Sound(x) && Raises(x, s, w)
    ensures Confirmed(x.history + [s], |x.history|)
  {
    var h := x.history + [s];
    var t := x.redis.since.value;
    var i :| 0 <= i < |x.history| && x.history[i].at == t && OverloadedFrom(x.history, i);
    assert h[..|x.history| + 1] == h;
    assert h[i].at + CONFIRM_WINDOW <= h[|x.history|].at && OverloadedFrom(h, i);
  }

  /** Where the start of a stored overload comes from: this sample, or the same start as before. */
  lemma {:induction false} SinceComesFrom(a: Local, redis: State, s: Sample, w: Answers)
    requires w.uuid != "" && (redis == a.cached || redis == EMPTY)
    ensures var (b, r) := Observed(a, redis, s, w);
            && (r == b.cached || r == EMPTY)
            && (r.since.Some? && !b.interrupted ==>
                 Overloaded(s) && (r.since.value == s.at || (redis.since == r.since && !a.interrupted)))
  {}

  lemma {:induction false} TickKeepsSound(x: World, s: Sample, w: Answers)
    requires Sound(x) && w.uuid != ""
    ensures Sound(Next(x, Tick(s, w)))
  {
    hide Observed, Passes, Fires, Confirmed, OverloadedSince, Overloaded, Raises;
    var y := Next(x, Tick(s, w));
    SinceComesFrom(x.a, x.redis, s, w);
    if y.redis.since.Some? && !y.a.interrupted {
      if x.redis.since == y.redis.since && !x.a.interrupted {
        SinceExtends(x.history, y.redis.since.value, s);
      } else {
        StartsNow(x.history, s);
      }
    }
    forall n | n in y.fired ensures n < |y.history| && Confirmed(y.history, n) {
      if n in x.fired { ConfirmedExtends(x.history, s, n); } else { RaisedIsConfirmed(x, s, w); }
    }
  }

  lemma {:induction false} StartsNow(h: seq<Sample>, s: Sample)
    requires Overloaded(s)
    ensures OverloadedSince(h + [s], s.at)
  {
    assert (h + [s])[|h|] == s && OverloadedFrom(h + [s], |h|);
  }

  lemma {:induction false} RunKeepsSound(x: World, inputs: seq<Input>)
    requires Sound(x) && forall i :: i in inputs && i.Tick? ==> i.w.uuid != ""
    ensures Sound(Run(x, inputs))
    decreases |inputs|
  {
    hide Sound, Observed, Raises;
    if inputs != [] {
      assert inputs[0] in inputs;
      if inputs[0].Tick? { TickKeepsSound(x, inputs[0].s, inputs[0].w); } else { ExpiryKeepsSound(x); }
      RunKeepsSound(Next(x, inputs[0]), inputs[1..]);
    }
  }

  lemma {:induction false} ExpiryKeepsSound(x: World)
    requires Sound(x)
    ensures Sound(Next(x, Expire))
  {}

  /** In any run from the start, whatever Redis does and even if the stored state expires, an alert is
      raised only when every sample of the preceding ten minutes, and one at least that old, was valid and
      at or above the lowest threshold. */
  lemma {:induction false} AlertsAreConfirmed(inputs: seq<Input>, n: nat)
    requires forall i :: i in inputs && i.Tick? ==> i.w.uuid != ""
    requires var end := Run(START, inputs);
             n in end.fired && n < |end.history| && Chronological(end.history)
    ensures var h := Run(START, inputs).history;
            && (forall j :: 0 <= j <= n && h[j].at > h[n].at - 600_000 ==> h[j].valid && h[j].cpu >= 80.0)
            && (exists i :: 0 <= i <= n && h[i].at <= h[n].at - 600_000 && h[i].valid && h[i].cpu >= 80.0)
  {
    RunKeepsSound(START, inputs);
    var h := Run(START, inputs).history;
    var i :| 0 <= i <= n && h[i].at + CONFIRM_WINDOW <= h[n].at && OverloadedFrom(h[..n + 1], i);
    forall j | 0 <= j <= n && (h[j].at > h[n].at - CONFIRM_WINDOW || j == i) ensures Overloaded(h[j]) {
      assert j >= i;
      assert h[..n + 1][j] == h[j];
    }
  }

  // ---------------------------------------------------------------- one alert per episode

  ghost predicate DipBetween(h: seq<Sample>, i: int, j: int) {
    exists k :: i < k < j && 0 <= k < |h| && !Overloaded(h[k])
  }

  ghost predicate OncePerEpisode(x: World) {
    && (forall n :: n in x.fired ==> n < |x.history|)
    && (forall k :: 0 <= k < |x.fired| - 1 ==> DipBetween(x.history, x.fired[k], x.fired[k + 1]))
    && (x.fired != [] && !DipBetween(x.history, x.fired[|x.fired| - 1], |x.history|) ==>
         x.redis.episode != "" && !x.a.interrupted)
  }

  lemma {:induction false} DipExtends(h: seq<Sample>, s: Sample, i: int, j: int)
    requires DipBetween(h, i, j)
    ensures DipBetween(h + [s], i, j) && DipBetween(h + [s], i, j + 1)
  {
    var k :| i < k < j && 0 <= k < |h| && !Overloaded(h[k]);
    assert !Overloaded((h + [s])[k]);
  }

  /** While an episode is open and the load stays up, an observation keeps it open and raises nothing; an
      observation that raises an alert opens one. */
  lemma {:induction false} EpisodeStaysOpen(x: World, s: Sample, w: Answers)
    requires w.uuid != "" && Overloaded(s)
    ensures var (b, r) := Observed(x.a, x.redis, s, w);
            && (x.redis.episode != "" && !x.a.interrupted ==> r.episode != "" && !b.interrupted && !Raises(x, s, w))
            && (Raises(x, s, w) ==> r.episode != "" && !b.interrupted)
  {}

  lemma {:induction false} TickKeepsOnce(x: World, s: Sample, w: Answers)
    requires OncePerEpisode(x) && w.uuid != ""
    ensures OncePerEpisode(Next(x, Tick(s, w)))
  {
    hide Observed, Passes, Overloaded, Fires;
    var y := Next(x, Tick(s, w));
    var h, n := x.history, |x.history|;
    if x.fired != [] { assert x.fired[|x.fired| - 1] in x.fired; }
    if Overloaded(s) {
      EpisodeStaysOpen(x, s, w);
    } else {
      NoAlertInADip(x, s, w);
      if x.fired != [] { DipNow(h, s, x.fired[|x.fired| - 1]); }
    }
    forall k | 0 <= k < |x.fired| - 1 ensures DipBetween(y.history, x.fired[k], x.fired[k + 1]) {
      DipExtends(h, s, x.fired[k], x.fired[k + 1]);
    }
    if x.fired != [] && DipBetween(h, x.fired[|x.fired| - 1], n) { DipExtends(h, s, x.fired[|x.fired| - 1], n); }
  }

  lemma {:induction false} DipNow(h: seq<Sample>, s: Sample, i: int)
    requires !Overloaded(s) && i < |h|
    ensures DipBetween(h + [s], i, |h| + 1)
  {
    assert (h + [s])[|h|] == s;
  }

  lemma {:induction false} NoAlertInADip(x: World, s: Sample, w: Answers)
    requires !Overloaded(s)
    ensures !Raises(x, s, w)
  {}

  /** In any run in which the stored state does not expire, between two alerts the load dipped. */
  lemma {:induction false} OneAlertPerEpisode(x: World, inputs: seq<Input>)
    requires OncePerEpisode(x) && forall i :: i in inputs ==> i.Tick? && i.w.uuid != ""
    ensures OncePerEpisode(Run(x, inputs))
    decreases |inputs|
  {
    hide OncePerEpisode, Observed, Raises;
    if inputs != [] {
      assert inputs[0] in inputs;
      TickKeepsOnce(x, inputs[0].s, inputs[0].w);
      OneAlertPerEpisode(Next(x, inputs[0]), inputs[1..]);
    }
  }

  lemma {:induction false} StartHasNoAlert()
    ensures OncePerEpisode(START)
  {}

  /** So from the start, two alerts of a run are always separated by a dip, also when the dip could not be stored. */
  lemma {:induction false} AlertsAreSeparated(inputs: seq<Input>, m: nat, n: nat)
    requires forall i :: i in inputs ==> i.Tick? && i.w.uuid != ""
    requires m < n < |Run(START, inputs).fired|
    ensures var end := Run(START, inputs); DipBetween(end.history, end.fired[m], end.fired[n])
    ensures forall k :: k in Run(START, inputs).fired ==> k < |Run(START, inputs).history|
    decreases n
  {
    StartHasNoAlert();
    OneAlertPerEpisode(START, inputs);
    hide Run;
    var end := Run(START, inputs);
    assert DipBetween(end.history, end.fired[n - 1], end.fired[n]);
    if m < n - 1 {
      AlertsAreSeparated(inputs, m, n - 1);
      FiredInOrder(START, inputs);
      DipWithin(end.history, end.fired[m], end.fired[n - 1], end.fired[n]);
    }
  }

  lemma {:induction false} DipWithin(h: seq<Sample>, i: int, j: int, l: int)
    requires DipBetween(h, i, j) && j <= l
    ensures DipBetween(h, i, l)
  {}

  ghost predicate InOrder(x: World) {
    && (forall n :: n in x.fired ==> n < |x.history|)
    && (forall i, j :: 0 <= i < j < |x.fired| ==> x.fired[i] < x.fired[j])
  }

  lemma {:induction false} FiredInOrder(x: World, inputs: seq<Input>)
    requires InOrder(x)
    ensures InOrder(Run(x, inputs))
    decreases |inputs|
  {
    if inputs != [] {
      NextInOrder(x, inputs[0]);
      FiredInOrder(Next(x, inputs[0]), inputs[1..]);
    }
  }

  lemma {:induction false} NextInOrder(x: World, input: Input)
    requires InOrder(x)
    ensures InOrder(Next(x, input))
  {
    hide Observed, Raises;
    forall i | 0 <= i < |x.fired| ensures x.fired[i] < |x.history| { assert x.fired[i] in x.fired; }
  }

  // ---------------------------------------------------------------- delivery

  /** No send of the alert failed in a pass of this observation; there may have been nobody to send it to. */
  ghost predicate LetGo(x: World, e: Alert, s: Sample, w: Answers) {
    && Passes(x.a, x.redis, s, w) && Sends(Noticed(x.a, s), x.redis, s, w.uuid) && !w.usersFail
    && forall u :: u in w.users ==> (e, u) in w.delivered
  }

  /** A stored or raised alert goes exactly when it is let go and the second store succeeds. */
  lemma {:induction false} PendingUntilDelivered(x: World, s: Sample, w: Answers, e: Alert)
    requires w.uuid != ""
    requires e in x.redis.pending || (Raises(x, s, w) && e == Alert(w.uuid, Highest(s.cpu, THRESHOLDS), s.cpu, s.at))
    ensures e in Next(x, Tick(s, w)).redis.pending <==> !LetGo(x, e, s, w) || w.secondStoreFails
  {}

  /** The world before the k-th input of a run. */
  function At(x: World, inputs: seq<Input>, k: nat): World
    requires k <= |inputs|
  {
    Run(x, inputs[..k])
  }

  ghost predicate LetGoAt(x: World, inputs: seq<Input>, k: nat, e: Alert)
    requires k < |inputs|
  {
    inputs[k].Tick? && LetGo(At(x, inputs, k), e, inputs[k].s, inputs[k].w)
  }

  /** There were users to tell in the pass at the k-th input, and the alert was sent to each of them. */
  ghost predicate DeliveredAt(x: World, inputs: seq<Input>, k: nat, e: Alert)
    requires k < |inputs|
  {
    LetGoAt(x, inputs, k, e) && inputs[k].w.users != []
  }

  lemma {:induction false} RunAfterOne(x: World, inputs: seq<Input>, k: nat)
    requires inputs != [] && k <= |inputs| - 1
    ensures At(x, inputs, k + 1) == At(Next(x, inputs[0]), inputs[1..], k)
  {
    assert inputs[..k + 1][0] == inputs[0] && inputs[..k + 1][1..] == inputs[1..][..k];
  }

  lemma {:induction false} AtIsRun(x: World, inputs: seq<Input>, k: nat)
    requires k <= |inputs|
    ensures Run(At(x, inputs, k), inputs[k..]) == Run(x, inputs)
    decreases k
  {
    if k == 0 {
      assert inputs[0..] == inputs;
    } else {
      RunAfterOne(x, inputs, k - 1);
      AtIsRun(Next(x, inputs[0]), inputs[1..], k - 1);
      assert inputs[1..][k - 1..] == inputs[k..];
    }
  }

  /** An alert pending at some time is pending at the end of the run, or was let go in a pass of it. */
  lemma {:induction false} PendingOrDelivered(x: World, inputs: seq<Input>, e: Alert)
    requires e in x.redis.pending && forall i :: i in inputs ==> i.Tick? && i.w.uuid != ""
    ensures e in Run(x, inputs).redis.pending || exists k :: 0 <= k < |inputs| && LetGoAt(x, inputs, k, e)
    decreases |inputs|
  {
    hide LetGo, Observed, Raises;
    if inputs != [] {
      var y := Next(x, inputs[0]);
      assert inputs[0] in inputs;
      PendingUntilDelivered(x, inputs[0].s, inputs[0].w, e);
      if e in y.redis.pending {
        PendingOrDelivered(y, inputs[1..], e);
        if exists k :: 0 <= k < |inputs[1..]| && LetGoAt(y, inputs[1..], k, e) {
          var k :| 0 <= k < |inputs[1..]| && LetGoAt(y, inputs[1..], k, e);
          RunAfterOne(x, inputs, k);
          assert LetGoAt(x, inputs, k + 1, e);
        }
      } else {
        assert inputs[..0] == [];
        assert LetGoAt(x, inputs, 0, e);
      }
    }
  }

  /** What becomes of an alert raised by the k-th sample of a run: it is pending at the end of the run, or it was sent
      to all users in one pass from then on, or a pass found no enabled super administrator to send it to. */
  lemma {:induction false} RaisedIsNotLost(inputs: seq<Input>, k: nat)
    requires k < |inputs| && forall i :: i in inputs ==> i.Tick? && i.w.uuid != ""
    requires Raises(At(START, inputs, k), inputs[k].s, inputs[k].w)
    ensures var s, w := inputs[k].s, inputs[k].w;
            var e := Alert(w.uuid, Highest(s.cpu, THRESHOLDS), s.cpu, s.at);
            || e in Run(START, inputs).redis.pending
            || (exists j :: k <= j < |inputs| && DeliveredAt(START, inputs, j, e))
            || (exists j :: k <= j < |inputs| && LetGoAt(START, inputs, j, e) && inputs[j].w.users == [])
  {
    hide LetGo, Observed, Raises, Highest, Run, At, Next;
    var x, s, w := At(START, inputs, k), inputs[k].s, inputs[k].w;
    var e := Alert(w.uuid, Highest(s.cpu, THRESHOLDS), s.cpu, s.at);
    PendingUntilDelivered(x, s, w, e);
    assert inputs[k] == Tick(s, w);
    if e in Next(x, inputs[k]).redis.pending {
      NextIsAt(START, inputs, k);
      PendingFrom(inputs, k + 1, e);
    } else {
      assert LetGoAt(START, inputs, k, e);
    }
    if e !in Run(START, inputs).redis.pending {
      var j :| k <= j < |inputs| && LetGoAt(START, inputs, j, e);
      assert DeliveredAt(START, inputs, j, e) || inputs[j].w.users == [];
    }
  }

  /** With nobody to tell, an alert is raised and forgotten without a single send. */
  lemma {:induction false} AlertMayGoUnsent()
    ensures var w := Answers(Acquired, false, false, false, [], {}, false, "e");
            var first, second := Sample(true, 85.0, 0), Sample(true, 85.0, CONFIRM_WINDOW);
            var inputs := [Tick(first, w), Tick(second, w)];
            Run(START, inputs).fired == [1] && Run(START, inputs).redis.pending == []
  {
    var w := Answers(Acquired, false, false, false, [], {}, false, "e");
    var first, second := Sample(true, 85.0, 0), Sample(true, 85.0, CONFIRM_WINDOW);
    var inputs := [Tick(first, w), Tick(second, w)];
    var x := Next(START, inputs[0]);
    assert x.fired == [] && x.redis == State("", Some(0), None, []);
    var y := Next(x, inputs[1]);
    assert y.fired == [1];
    assert Undelivered([Alert("e", Highest(85.0, THRESHOLDS), 85.0, CONFIRM_WINDOW)], w) == [];
    assert inputs[1..] == [Tick(second, w)] && inputs[1..][1..] == [];
    assert Run(START, inputs) == Run(x, inputs[1..]) == Run(y, []) == y;
  }

  lemma {:induction false} PendingFrom(inputs: seq<Input>, k: nat, e: Alert)
    requires k <= |inputs| && e in At(START, inputs, k).redis.pending
    requires forall i :: i in inputs ==> i.Tick? && i.w.uuid != ""
    ensures e in Run(START, inputs).redis.pending || exists j :: k <= j < |inputs| && LetGoAt(START, inputs, j, e)
  {
    hide LetGo, Run, At;
    var x, rest := At(START, inputs, k), inputs[k..];
    PendingOrDelivered(x, rest, e);
    AtIsRun(START, inputs, k);
    if exists j :: 0 <= j < |rest| && LetGoAt(x, rest, j, e) {
      var j :| 0 <= j < |rest| && LetGoAt(x, rest, j, e);
      AtLater(START, inputs, k, j);
      assert LetGoAt(START, inputs, k + j, e);
    }
  }

  lemma {:induction false} AtLater(x: World, inputs: seq<Input>, k: nat, j: nat)
    requires k + j <= |inputs|
    ensures At(At(x, inputs, k), inputs[k..], j) == At(x, inputs, k + j)
  {
    AtIsRun(x, inputs[..k + j], k);
    assert inputs[..k + j][..k] == inputs[..k] && inputs[..k + j][k..] == inputs[k..][..j];
  }

  lemma {:induction false} NextIsAt(x: World, inputs: seq<Input>, k: nat)
    requires k < |inputs|
    ensures At(x, inputs, k + 1) == Next(At(x, inputs, k), inputs[k])
  {
    AtLater(x, inputs, k, 1);
    assert inputs[k..][..1] == [inputs[k]];
    var one := [inputs[k]];
    assert one[0] == inputs[k] && one[1..] == [];
    assert Run(At(x, inputs, k), one) == Run(Next(At(x, inputs, k), inputs[k]), one[1..]);
  }

  // ---------------------------------------------------------------- the cache

  /** The refresh test is exact: outside the Redis back-off, Redis is asked if and only if the cache is not
      yet filled or due, an interruption is remembered, a delivery is ready, or the sample would change the
      cached state. */
  lemma {:induction false} RefreshIsExact(a: Local, s: Sample, uuid: string)
    requires uuid != ""
    ensures ShouldRefresh(a, s) <==>
            && !BackedOff(a, s.at)
            && (a.interrupted || !a.initialized || s.at >= a.refreshAt || Ready(a.cached, s.at) ||
                 Applied(a.cached, s, uuid) != a.cached)
    ensures BackedOff(a, s.at) <==> a.redisRetryAt.Some? && s.at < a.redisRetryAt.value
    ensures Ready(a.cached, s.at) <==>
            a.cached.pending != [] && (a.cached.nextRetry.None? || s.at >= a.cached.nextRetry.value)
  {}

  /** A failure of Redis stops all requests for a minute, and no longer: from then on the next observation asks again
      whenever there is a reason to. */
  lemma {:induction false} FailureBacksOff(a: Local, redis: State, s: Sample, w: Answers, next: Sample, uuid: string)
    requires ShouldRefresh(Noticed(a, s), s) && uuid != ""
    requires w.lock.LockFailed? || (w.lock.Acquired? && w.loadFails)
             || (w.lock.Acquired? && MustStore(Noticed(a, s), redis, s, w.uuid) && w.storeFails)
             || (w.lock.Acquired? && Sends(Noticed(a, s), redis, s, w.uuid) && !w.usersFail && w.secondStoreFails)
    ensures var (b, r) := Observed(a, redis, s, w);
            && (!Passes(a, redis, s, w) ==> r == redis) && b.redisRetryAt == Some(s.at + 60_000)
            && (next.at < s.at + 60_000 ==> !ShouldRefresh(b, next))
            && (next.at >= s.at + 60_000 &&
                (b.interrupted || !b.initialized || Applied(b.cached, next, uuid) != b.cached) ==>
                  ShouldRefresh(b, next))
  {}

  /** What a pass leaves for the next ones: the cache is good for a minute, and alerts that could not all be sent are
      tried again after a minute. */
  lemma {:induction false} PassSchedules(a: Local, redis: State, s: Sample, w: Answers)
    requires Passes(a, redis, s, w)
    ensures var (b, r) := Observed(a, redis, s, w);
            && b.refreshAt == s.at + 60_000 && b.initialized && !b.interrupted
            && (Sends(Noticed(a, s), redis, s, w.uuid) && r.pending != [] ==> r.nextRetry == Some(s.at + 60_000))
  {}

  /** What a sample does to the stored state: below 80 it ends the episode, and a first one at or above starts the
      clock; ten minutes later it opens an episode with an alert, and while one is open nothing happens. */
  lemma {:induction false} AppliedIs(st: State, s: Sample, uuid: string)
    ensures var r := Applied(st, s, uuid);
            && (!s.valid || s.cpu < 80.0 ==> r == st.(episode := "", since := None))
            && (s.valid && s.cpu >= 80.0 ==>
                  && (st.episode != "" ==> r == st)
                  && (st.episode == "" && st.since.None? ==> r == st.(since := Some(s.at)))
                  && (st.episode == "" && st.since.Some? && s.at < st.since.value + 600_000 ==> r == st)
                  && (st.episode == "" && st.since.Some? && s.at >= st.since.value + 600_000 ==>
                        && r.episode == uuid && r.since.None? && |r.pending| == |st.pending| + 1
                        && r.pending[..|st.pending|] == st.pending
                        && r.pending[|st.pending|] == Alert(uuid, Highest(s.cpu, THRESHOLDS), s.cpu, s.at)))
  {}

  /** An overload of ten minutes is noticed: if the clock was started then and Redis works, the sample raises an
      alert, which is stored or sent. */
  lemma {:induction false} LongOverloadRaises(x: World, t: int, s: Sample, w: Answers)
    requires x.redis.episode == "" && x.redis.since == Some(t) && x.a.cached == x.redis && !x.a.interrupted
    requires x.a.redisRetryAt.None? || x.a.redisRetryAt.value <= s.at
    requires s.valid && s.cpu >= 80.0 && s.at >= t + 600_000
    requires w.uuid != "" && w.lock.Acquired? && !w.loadFails && !w.storeFails
    ensures Raises(x, s, w) && Next(x, Tick(s, w)).fired == x.fired + [|x.history|]
    ensures Next(x, Tick(s, w)).redis.episode == w.uuid
  {}

  /** So while the cache is right, skipping loses nothing. */
  lemma {:induction false} SkipIsHarmless(x: World, s: Sample, w: Answers)
    requires w.uuid != "" && x.a.cached == x.redis
    requires !ShouldRefresh(Noticed(x.a, s), s) && !BackedOff(x.a, s.at)
    ensures Applied(x.redis, s, w.uuid) == x.redis && !Ready(x.redis, s.at) && !x.a.interrupted
    ensures Next(x, Tick(s, w)).redis == x.redis && Next(x, Tick(s, w)).a == x.a
  {}

  /** The cache is right in every run without expiry. */
  lemma {:induction false} CacheAgrees(x: World, inputs: seq<Input>)
    requires x.a.cached == x.redis && forall i :: i in inputs ==> i.Tick?
    ensures Run(x, inputs).a.cached == Run(x, inputs).redis
    decreases |inputs|
  {
    if inputs != [] {
      assert inputs[0] in inputs;
      CacheAgrees(Next(x, inputs[0]), inputs[1..]);
    }
  }

  /** The thresholds. */
  lemma {:induction false} ThresholdIs(cpu: real)
    ensures Highest(cpu, THRESHOLDS) ==
            if cpu < 80.0 then 0.0 else if cpu < 90.0 then 80.0 else if cpu < 95.0 then 90.0
            else if cpu < 96.0 then 95.0 else if cpu < 97.0 then 96.0 else if cpu < 98.0 then 97.0
            else if cpu < 99.0 then 98.0 else if cpu < 100.0 then 99.0 else 100.0
  {
    HighestIsReached(cpu);
    assert 80.0 in THRESHOLDS && 90.0 in THRESHOLDS && 95.0 in THRESHOLDS && 96.0 in THRESHOLDS;
    assert 97.0 in THRESHOLDS && 98.0 in THRESHOLDS && 99.0 in THRESHOLDS && 100.0 in THRESHOLDS;
  }

  /** The threshold named in an alert is the highest one reached. */
  lemma {:induction false} HighestIsReached(cpu: real)
    ensures cpu < 80.0 ==> Highest(cpu, THRESHOLDS) == 0.0
    ensures cpu >= 80.0 ==> Highest(cpu, THRESHOLDS) in THRESHOLDS && Highest(cpu, THRESHOLDS) <= cpu
    ensures forall t :: t in THRESHOLDS && t <= cpu ==> t <= Highest(cpu, THRESHOLDS)
  {
    assert THRESHOLDS[0..] == THRESHOLDS;
    if cpu >= 80.0 { HighestFrom(cpu, 0); }
  }

  lemma {:induction false} HighestFrom(cpu: real, i: nat)
    requires i < |THRESHOLDS| && cpu >= THRESHOLDS[i]
    ensures var top := Highest(cpu, THRESHOLDS[i..]);
            top in THRESHOLDS && top <= cpu &&
              forall k :: i <= k < |THRESHOLDS| && THRESHOLDS[k] <= cpu ==> THRESHOLDS[k] <= top
    decreases |THRESHOLDS| - i
  {
    var rest := THRESHOLDS[i..];
    assert THRESHOLDS[i] in THRESHOLDS;
    if |rest| > 1 && cpu >= rest[1] {
      assert rest[1..] == THRESHOLDS[i + 1..];
      HighestFrom(cpu, i + 1);
    }
  }
}
