/** The system load alerter: a hysteresis state machine kept in Redis, with a local cache that skips most
    round trips and remembers dips in load that Redis could not be told about. */
module LoadAlerter {
  import opened Options

  const CONFIRM_WINDOW := 600_000  // milliseconds: ten minutes
  const RETRY_INTERVAL := 60_000
  const REFRESH_INTERVAL := 60_000
  const THRESHOLDS: seq<real> := [80.0, 90.0, 95.0, 96.0, 97.0, 98.0, 99.0, 100.0]

  /** BackgroundLoadSnapshot, as far as alerts depend on it. */
  datatype Sample = Sample(valid: bool, cpu: real, at: int)

  datatype Alert = Alert(episode: string, threshold: real, cpu: real, at: int)

  /** systemLoadAlertState; an absent time is Go's zero time. */
  datatype State = State(episode: string, since: Option<int>, nextRetry: Option<int>, pending: seq<Alert>)

  const EMPTY := State("", None, None, [])

  datatype Lock = Acquired | Busy | LockFailed

  /** What Redis, the user directory and the mail service answer during one observation. */
  datatype Answers = Answers(lock: Lock, loadFails: bool, storeFails: bool, usersFail: bool, users: seq<string>,
                             delivered: set<(Alert, string)>, secondStoreFails: bool, uuid: string)

  predicate Overloaded(s: Sample) { s.valid && s.cpu >= THRESHOLDS[0] }

  predicate InEpisode(st: State) { st.episode != "" || st.since.Some? }

  function Reset(st: State): State { st.(episode := "", since := None) }

  /** The highest threshold reached, or 0. */
  function Highest(cpu: real, thresholds: seq<real>): real {
    if thresholds == [] || cpu < thresholds[0] then 0.0
    else if |thresholds| > 1 && cpu >= thresholds[1] then Highest(cpu, thresholds[1..])
    else thresholds[0]
  }

  function Applied(st: State, s: Sample, uuid: string): State {
    if !Overloaded(s) then Reset(st)
    else if st.episode != "" then st
    else if st.since.None? then st.(since := Some(s.at))
    else if s.at < st.since.value + CONFIRM_WINDOW then st
    else st.(episode := uuid, since := None,
      pending := st.pending + [Alert(uuid, Highest(s.cpu, THRESHOLDS), s.cpu, s.at)])
  }

  /** The pass that turns a sample into an alert. */
  predicate Fires(st: State, s: Sample) {
    Overloaded(s) && st.episode == "" && st.since.Some? && s.at >= st.since.value + CONFIRM_WINDOW
  }

  predicate Changes(st: State, s: Sample) {
    if !Overloaded(s) then InEpisode(st)
    else st.episode == "" && (st.since.None? || s.at >= st.since.value + CONFIRM_WINDOW)
  }

  predicate Ready(st: State, at: int) { st.pending != [] && (st.nextRetry.None? || at >= st.nextRetry.value) }

  /** The fields of the alerter object. */
  datatype Local = Local(initialized: bool, cached: State, refreshAt: int, redisRetryAt: Option<int>, interrupted: bool)

  const FRESH := Local(false, EMPTY, 0, None, false)

  predicate BackedOff(a: Local, at: int) { a.redisRetryAt.Some? && at < a.redisRetryAt.value }

  function Noticed(a: Local, s: Sample): Local {
    if !Overloaded(s) && InEpisode(a.cached) then a.(interrupted := true) else a
  }

  predicate ShouldRefresh(a: Local, s: Sample) {
    if BackedOff(a, s.at) then false
    else if a.interrupted then true
    else if !a.initialized || s.at >= a.refreshAt then true
    else if Ready(a.cached, s.at) then true
    else if !Overloaded(s) then InEpisode(a.cached)
    else if a.cached.episode != "" then false
    else a.cached.since.None? || s.at >= a.cached.since.value + CONFIRM_WINDOW
  }

  function BackOff(a: Local, at: int): Local { a.(redisRetryAt := Some(at + RETRY_INTERVAL)) }

  function Cached(a: Local, st: State, at: int): Local {
    a.(initialized := true, cached := st, refreshAt := at + REFRESH_INTERVAL, redisRetryAt := None)
  }

  /** The state a pass works on: what Redis holds, with a remembered interruption taken into account. */
  function Loaded(a: Local, redis: State): State { if a.interrupted then Reset(redis) else redis }

  /** The state a pass wants to store first. */
  function Prepared(a: Local, redis: State, s: Sample, uuid: string): State {
    var st := Applied(Loaded(a, redis), s, uuid);
    if Ready(st, s.at) then st.(nextRetry := Some(s.at + RETRY_INTERVAL)) else st
  }

  predicate MustStore(a: Local, redis: State, s: Sample, uuid: string) {
    var st := Prepared(a, redis, s, uuid);
    st != redis || InEpisode(st) || st.pending != []
  }

  predicate Sends(a: Local, redis: State, s: Sample, uuid: string) { Ready(Applied(Loaded(a, redis), s, uuid), s.at) }

  function Undelivered(pending: seq<Alert>, answers: Answers): (rest: seq<Alert>)
    ensures forall e :: e in rest <==> e in pending && exists u :: u in answers.users && (e, u) !in answers.delivered
  {
    if pending == [] then []
    else (if exists u :: u in answers.users && (pending[0], u) !in answers.delivered then [pending[0]] else [])
         + Undelivered(pending[1..], answers)
  }

  /** Does this observation get as far as replacing the stored state? */
  predicate Passes(a: Local, redis: State, s: Sample, w: Answers) {
    var b := Noticed(a, s);
    && ShouldRefresh(b, s) && w.lock.Acquired? && !w.loadFails
    && !(MustStore(b, redis, s, w.uuid) && w.storeFails)
  }

  function Observed(a: Local, redis: State, s: Sample, w: Answers): (Local, State) {
    var b := Noticed(a, s);
    if !ShouldRefresh(b, s) then (b, redis)
    else if w.lock.LockFailed? then (BackOff(b, s.at), redis)
    else if w.lock.Busy? then (b, redis)
    else if w.loadFails then (BackOff(b, s.at), redis)
    else
      var st := Prepared(b, redis, s, w.uuid);
      if MustStore(b, redis, s, w.uuid) && w.storeFails then (BackOff(b, s.at), redis)
      else
        var c := Cached(b.(interrupted := false), st, s.at);
        if !Sends(b, redis, s, w.uuid) || w.usersFail then (c, st)
        else
          var rest := Undelivered(st.pending, w);
          var after := st.(pending := rest, nextRetry := if rest == [] then None else st.nextRetry);
          if w.secondStoreFails then (BackOff(c, s.at), st) else (Cached(c, after, s.at), after)
  }

  // ---------------------------------------------------------------- the program

  method Threshold(cpu: real) returns (highest: real)
    ensures highest == Highest(cpu, THRESHOLDS)
  {
    highest := 0.0;
    for i := 0 to |THRESHOLDS|
      invariant highest == if i == 0 then 0.0 else THRESHOLDS[i - 1]
      invariant i > 0 ==> cpu >= THRESHOLDS[i - 1]
      invariant Highest(cpu, THRESHOLDS) ==
                if i == 0 then Highest(cpu, THRESHOLDS) else Highest(cpu, THRESHOLDS[i - 1..])
    {
      if cpu < THRESHOLDS[i] { break; }
      highest := THRESHOLDS[i];
      assert i > 0 ==> THRESHOLDS[i - 1..][1..] == THRESHOLDS[i..];
    }
  }

  class Alerter {
    var initialized: bool
    var cached: State
    var refreshAt: int
    var redisRetryAt: Option<int>
    var interrupted: bool
    var redis: State  // the value under this host's key

    function View(): Local
      reads this
    {
      Local(initialized, cached, refreshAt, redisRetryAt, interrupted)
    }

    constructor ()
      ensures View() == FRESH && redis == EMPTY
    {
      initialized, cached, refreshAt, redisRetryAt, interrupted := false, EMPTY, 0, None, false;
      redis := EMPTY;
    }

    method Refresh(st: State, at: int)
      modifies this
      ensures View() == Cached(old(View()), st, at) && redis == old(redis)
    {
      initialized := true;
      cached := st;
      refreshAt := at + REFRESH_INTERVAL;
      redisRetryAt := None;
    }

    /** apply, with resetEpisode inlined. */
    static method Apply(st: State, s: Sample, uuid: string) returns (after: State, changed: bool)
      ensures after == Applied(st, s, uuid) && changed == Changes(st, s)
    {
      after := st;
      if !Overloaded(s) {
        changed := InEpisode(st);
        if changed { after := after.(episode := "", since := None); }
        return;
      }
      if st.episode != "" { return after, false; }
      if st.since.None? {
        return after.(since := Some(s.at)), true;
      }
      if s.at < st.since.value + CONFIRM_WINDOW { return after, false; }
      var threshold := Threshold(s.cpu);
      after := after.(episode := uuid, since := None);
      after := after.(pending := after.pending + [Alert(uuid, threshold, s.cpu, s.at)]);
      changed := true;
    }

    /** Sends every pending alert to every user; those with a failed send remain. */
    static method Deliver(pending: seq<Alert>, w: Answers) returns (remaining: seq<Alert>)
      ensures remaining == Undelivered(pending, w)
    {
      remaining := [];
      for i := 0 to |pending|
        invariant Undelivered(pending, w) == remaining + Undelivered(pending[i..], w)
      {
        var failed := false;
        for j := 0 to |w.users|
          invariant failed <==> exists k :: 0 <= k < j && (pending[i], w.users[k]) !in w.delivered
        {
          if (pending[i], w.users[j]) !in w.delivered { failed := true; }
        }
        assert failed <==> exists u :: u in w.users && (pending[i], u) !in w.delivered;
        if failed { remaining := remaining + [pending[i]]; }
      }
    }

    method Observe(s: Sample, w: Answers)
      requires w.uuid != ""
      modifies this
      ensures (View(), redis) == Observed(old(View()), old(redis), s, w)
    {
      if !Overloaded(s) && InEpisode(cached) {
        interrupted := true;
      }
      if !ShouldRefresh(View(), s) { return; }
      if w.lock.LockFailed? {
        redisRetryAt := Some(s.at + RETRY_INTERVAL);
        return;
      }
      if w.lock.Busy? { return; }
      if w.loadFails {
        redisRetryAt := Some(s.at + RETRY_INTERVAL);
        return;
      }
      var st, changed := redis, false;
      if interrupted {
        changed := InEpisode(st);
        st := Reset(st);
      }
      var applied;
      st, applied := Apply(st, s, w.uuid);
      changed := applied || changed;
      var ready := Ready(st, s.at);
      if ready {
        st := st.(nextRetry := Some(s.at + RETRY_INTERVAL));
        changed := true;
      }
      StoreWhenChanged(old(View()), redis, s, w.uuid);
      if changed || st.episode != "" || st.since.Some? || st.pending != [] {
        if w.storeFails {
          redisRetryAt := Some(s.at + RETRY_INTERVAL);
          return;
        }
        redis := st;
      }
      interrupted := false;
      Refresh(st, s.at);
      if !ready || w.usersFail { return; }
      var remaining := Deliver(st.pending, w);
      st := st.(pending := remaining);
      if |remaining| == 0 { st := st.(nextRetry := None); }
      if w.secondStoreFails {
        redisRetryAt := Some(s.at + RETRY_INTERVAL);
        return;
      }
      redis := st;
      Refresh(st, s.at);
    }
  }

  /** The change flags of the code say exactly whether the state differs from what Redis holds, up to a
      state that is stored anyway. */
  lemma {:induction false} StoreWhenChanged(a: Local, redis: State, s: Sample, uuid: string)
    requires uuid != ""
    ensures var b := Noticed(a, s);
            var changed := Changes(Loaded(b, redis), s) || (b.interrupted && InEpisode(redis)) ||
              Sends(b, redis, s, uuid);
            MustStore(b, redis, s, uuid) <==>
              changed || InEpisode(Prepared(b, redis, s, uuid)) || Prepared(b, redis, s, uuid).pending != []
  {}
}
