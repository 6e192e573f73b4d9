/** The per-key token bucket that limits inbound WebSocket frames, over the reals. */
module FrameBudget {

  const BURST := 30.0      // botWebSocketFrameBurst
  const PER_MINUTE := 600  // botWebSocketFramesPerMinute

  datatype Budget = Budget(tokens: real, last: real)

  datatype Frame = Frame(key: nat, now: real)

  function Min(a: real, b: real): real { if a < b then a else b }

  /** Tokens that key can use at the given time. */
  function Available(frames: map<nat, Budget>, key: nat, now: real): real {
    if key in frames then Min(BURST, frames[key].tokens + (now - frames[key].last) * (PER_MINUTE as real) / 60.0)
    else BURST
  }

  function Take(frames: map<nat, Budget>, f: Frame): (map<nat, Budget>, bool) {
    var tokens := Available(frames, f.key, f.now);
    if tokens < 1.0 then (frames[f.key := Budget(tokens, f.now)], false)
    else (frames[f.key := Budget(tokens - 1.0, f.now)], true)
  }

  class Limiter {
    var frames: map<nat, Budget>

    method TakeFrame(keyID: nat, now: real) returns (granted: bool)
      modifies this
      ensures (frames, granted) == Take(old(frames), Frame(keyID, now))
      ensures granted <==> Available(old(frames), keyID, now) >= 1.0
    {
      var budget := if keyID in frames then frames[keyID] else Budget(BURST, now);
      var elapsed := now - budget.last;
      budget := budget.(tokens := Min(BURST, budget.tokens + elapsed * (PER_MINUTE as real) / 60.0));
      budget := budget.(last := now);
      if budget.tokens < 1.0 {
        frames := frames[keyID := budget];
        return false;
      }
      budget := budget.(tokens := budget.tokens - 1.0);
      frames := frames[keyID := budget];
      return true;
    }
  }

  // ---------------------------------------------------------------- runs

  /** Times never go back, from the last recorded one of every key on. */
  ghost predicate Chronological(frames: map<nat, Budget>, calls: seq<Frame>) {
    && (forall i, j :: 0 <= i < j < |calls| ==> calls[i].now <= calls[j].now)
    && (forall k :: k in frames && calls != [] ==> frames[k].last <= calls[0].now)
  }

  ghost predicate InRange(frames: map<nat, Budget>) { forall k :: k in frames ==> 0.0 <= frames[k].tokens <= BURST }

  /** Frames of key granted over a series of calls. */
  function Granted(frames: map<nat, Budget>, calls: seq<Frame>, key: nat): nat
    decreases |calls|
  {
    if calls == [] then 0
    else
      var (after, granted) := Take(frames, calls[0]);
      (if granted && calls[0].key == key then 1 else 0) + Granted(after, calls[1..], key)
  }

  function Final(frames: map<nat, Budget>, calls: seq<Frame>): map<nat, Budget>
    decreases |calls|
  {
    if calls == [] then frames else Final(Take(frames, calls[0]).0, calls[1..])
  }

  lemma {:induction false} TokensStayInRange(frames: map<nat, Budget>, calls: seq<Frame>)
    requires Chronological(frames, calls) && InRange(frames)
    ensures InRange(Final(frames, calls))
    decreases |calls|
  {
    if calls != [] {
      TokensStayInRange(Take(frames, calls[0]).0, calls[1..]);
    }
  }

  /** In any window, a key is granted at most what it has at the start plus ten frames for each second. */
  lemma {:induction false} RateBound(frames: map<nat, Budget>, calls: seq<Frame>, key: nat)
    requires Chronological(frames, calls) && InRange(frames) && calls != []
    ensures Granted(frames, calls, key) as real
         <= Available(frames, key, calls[0].now) + 10.0 * (calls[|calls| - 1].now - calls[0].now)
    decreases |calls|
  {
    var after := Take(frames, calls[0]).0;
    if |calls| > 1 {
      RateBound(after, calls[1..], key);
      assert calls[1..][|calls| - 2] == calls[|calls| - 1];
    }
  }

  lemma {:induction false} WindowBound(frames: map<nat, Budget>, calls: seq<Frame>, key: nat, i: nat, j: nat)
    requires Chronological(frames, calls) && InRange(frames) && i < j <= |calls|
    ensures Granted(Final(frames, calls[..i]), calls[i..j], key) as real <= 30.0 +
            10.0 * (calls[j - 1].now - calls[i].now)
  {
    TokensStayInRange(frames, calls[..i]);
    LastIsPast(frames, calls, i);
    RateBound(Final(frames, calls[..i]), calls[i..j], key);
  }

  lemma {:induction false} LastIsPast(frames: map<nat, Budget>, calls: seq<Frame>, i: nat)
    requires Chronological(frames, calls) && i < |calls|
    ensures Chronological(Final(frames, calls[..i]), calls[i..])
    decreases |calls|
  {
    if i > 0 {
      LastIsPast(Take(frames, calls[0]).0, calls[1..], i - 1);
      assert calls[..i][0] == calls[0] && calls[..i][1..] == calls[1..][..i - 1] && calls[1..][i - 1..] == calls[i..];
    } else {
      assert calls[i..] == calls;
    }
  }

  /** Other keys have no effect: a key's grants are those of its own frames alone. */
  function Own(calls: seq<Frame>, key: nat): seq<Frame> {
    if calls == [] then [] else (if calls[0].key == key then [calls[0]] else []) + Own(calls[1..], key)
  }

  lemma {:induction false} KeysAreIndependent(frames: map<nat, Budget>, other: map<nat, Budget>, calls: seq<Frame>,
                                              key: nat)
    requires key in frames <==> key in other
    requires key in frames ==> frames[key] == other[key]
    ensures Granted(frames, calls, key) == Granted(other, Own(calls, key), key)
    decreases |calls|
  {
    if calls != [] {
      if calls[0].key == key {
        assert Own(calls, key)[0] == calls[0] && Own(calls, key)[1..] == Own(calls[1..], key);
        KeysAreIndependent(Take(frames, calls[0]).0, Take(other, calls[0]).0, calls[1..], key);
      } else {
        assert Own(calls, key) == Own(calls[1..], key);
        KeysAreIndependent(Take(frames, calls[0]).0, other, calls[1..], key);
      }
    }
  }

  /** At one instant a key with n whole tokens is granted exactly n frames and no more: the bound is met. */
  lemma {:induction false} BurstIsExact(frames: map<nat, Budget>, calls: seq<Frame>, key: nat, now: real, n: nat)
    requires forall i :: 0 <= i < |calls| ==> calls[i] == Frame(key, now)
    requires Available(frames, key, now) == n as real && n <= 30
    ensures Granted(frames, calls, key) == if |calls| < n then |calls| else n
    decreases |calls|
  {
    if calls != [] {
      BurstIsExact(Take(frames, calls[0]).0, calls[1..], key, now, if n == 0 then 0 else n - 1);
    }
  }

  /** What a key can use: a burst of thirty if it never sent anything, else what it had and ten more for each second, up
      to thirty. */
  lemma {:induction false} AvailableIs(frames: map<nat, Budget>, key: nat, now: real)
    ensures key !in frames ==> Available(frames, key, now) == 30.0
    ensures key in frames ==>
              var refilled := frames[key].tokens + 10.0 * (now - frames[key].last);
              Available(frames, key, now) == if refilled < 30.0 then refilled else 30.0
  {}

  /** A key that sends no more than ten frames a second is never refused. */
  lemma {:induction false} SteadyRateIsGranted(frames: map<nat, Budget>, calls: seq<Frame>, key: nat)
    requires forall i :: 0 <= i < |calls| ==> calls[i].key == key
    requires forall i, j :: 0 <= i < j < |calls| && j == i + 1 ==> calls[j].now - calls[i].now >= 0.1
    requires calls != [] ==> Available(frames, key, calls[0].now) >= 1.0
    ensures Granted(frames, calls, key) == |calls|
    decreases |calls|
  {
    if |calls| > 1 {
      var after, rest := Take(frames, calls[0]).0, calls[1..];
      assert calls[1].now - calls[0].now >= 0.1;
      assert rest[0] == calls[1] && Available(after, key, rest[0].now) >= 1.0;
      forall i, j | 0 <= i < j < |rest| && j == i + 1 ensures rest[j].now - rest[i].now >= 0.1 {
        assert calls[j + 1].now - calls[i + 1].now >= 0.1;
      }
      SteadyRateIsGranted(after, rest, key);
    }
  }
}
