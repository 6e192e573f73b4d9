/** The dispatcher loop itself: the Go function's local variables as fields, its closures and select
    cases as methods, each proved against its step function. */
module Dispatcher {
  import opened Options
  import opened Text
  import opened DispatchSteps
  import opened DispatchRuns

  lemma {:induction false} ReleasesOneMore(t: Table, due: set<Key>, u: Table, k: Key, now: int)
    requires Releases(t, due, u) && k in t.blocked && k !in due
    ensures Releases(t, due + {k}, AddReady(u.(blocked := u.blocked - {k}), k, now))
  {
    var v := AddReady(u.(blocked := u.blocked - {k}), k, now);
    var n := |t.ready|;
    assert v.blocked == t.blocked - (due + {k});
    assert k !in u.ready[n..];
    if Bucket(t, k) == [] || k == "" || k in t.active || k in t.readySet {
      assert Woken(t, due + {k}) == Woken(t, due);
      assert v.ready == u.ready && v.readySet == u.readySet;
    } else {
      assert Woken(t, due + {k}) == Woken(t, due) + {k};
      assert v.ready == u.ready + [k] && v.readySet == u.readySet + {k};
      assert v.ready[..n] == u.ready[..n] && v.ready[n..] == u.ready[n..] + [k];
    }
  }

  lemma {:induction false} WithoutNext(keys: seq<Key>, key: Key, i: nat)
    requires i < |keys| && Without(keys, key) == keys[..i] + Without(keys[i..], key)
    ensures keys[i] == key ==> Without(keys, key) == keys[..i] + keys[i + 1..]
    ensures keys[i] != key ==> Without(keys, key) == keys[..i + 1] + Without(keys[i + 1..], key)
  {
    assert keys[i..][1..] == keys[i + 1..] && keys[..i + 1] == keys[..i] + [keys[i]];
  }

  class RecoveryDispatcher {
    var buckets: map<Key, seq<Item>>
    var active: set<Key>
    var readySet: set<Key>
    var readyKeys: seq<Key>
    var blockedUntil: map<Key, int>
    var inputOpen: bool

    ghost function View(): Table
      reads this
    {
      Table(buckets, active, readySet, readyKeys, blockedUntil)
    }

    constructor ()
      ensures View() == Empty && inputOpen
    {
      buckets, active, readySet, readyKeys, blockedUntil := map[], {}, {}, [], map[];
      inputOpen := true;
    }

    method AddReadyKey(key: Key, now: int)
      modifies this
      ensures View() == AddReady(old(View()), key, now) && inputOpen == old(inputOpen)
    {
      if key == "" || key !in buckets || buckets[key] == [] {
        return;
      }
      if key in blockedUntil {
        if now < blockedUntil[key] {
          return;
        }
      }
      blockedUntil := blockedUntil - {key};
      if key in active || key in readySet {
        return;
      }
      readySet := readySet + {key};
      readyKeys := readyKeys + [key];
    }

    method RemoveReadyKey(key: Key)
      modifies this
      ensures View() == RemoveReady(old(View()), key) && inputOpen == old(inputOpen)
    {
      if key !in readySet {
        return;
      }
      readySet := readySet - {key};
      for index := 0 to |readyKeys|
        invariant readyKeys == old(readyKeys) && unchanged(`buckets, `active, `blockedUntil, `inputOpen)
        invariant readySet == old(readySet) - {key}
        invariant Without(readyKeys, key) == readyKeys[..index] + Without(readyKeys[index..], key)
      {
        WithoutNext(readyKeys, key, index);
        if readyKeys[index] == key {
          readyKeys := readyKeys[..index] + readyKeys[index + 1..];
          return;
        }
      }
    }

    method EnqueueReady(item: Item, front: bool, now: int)
      modifies this
      ensures View() == Enqueue(old(View()), item, front, now) && inputOpen == old(inputOpen)
    {
      var it := item;
      if Blank(it.recoveryKey) {
        it := it.(recoveryKey := FallbackKey(it));
      }
      var key := it.recoveryKey;
      var queue := if key in buckets then buckets[key] else [];
      if front {
        buckets := buckets[key := [it] + queue];
      } else {
        buckets := buckets[key := queue + [it]];
      }
      AddReadyKey(key, now);
    }

    method BlockKey(key: Key, until: int)
      modifies this
      ensures View() == Block(old(View()), key, until) && inputOpen == old(inputOpen)
    {
      if key == "" || key !in buckets || buckets[key] == [] {
        return;
      }
      if key !in blockedUntil || until > blockedUntil[key] {
        blockedUntil := blockedUntil[key := until];
      }
      RemoveReadyKey(key);
    }

    method UnblockDue(now: int)
      modifies this
      ensures Wakes(old(View()), now, View()) && inputOpen == old(inputOpen)
      ensures forall k :: k in old(blockedUntil) && old(blockedUntil)[k] <= now ==>
        k !in blockedUntil && (k == "" || k !in buckets || buckets[k] == [] || k in readySet || k in active)
      ensures forall k :: k in blockedUntil <==> k in old(blockedUntil) && now < old(blockedUntil)[k]
      ensures forall k :: k in blockedUntil ==> blockedUntil[k] == old(blockedUntil)[k]
    {
      ghost var before := View();
      var keys := blockedUntil.Keys;
      while keys != {}
        invariant keys <= before.blocked.Keys
        invariant Releases(before, Due(before, now) - keys, View())
        invariant inputOpen == old(inputOpen)
        decreases keys
      {
        var key :| key in keys;
        ghost var released := Due(before, now) - keys;
        keys := keys - {key};
        if now < blockedUntil[key] {
          assert Due(before, now) - keys == released;
        } else {
          assert Due(before, now) - keys == released + {key};
          ReleasesOneMore(before, released, View(), key, now);
          blockedUntil := blockedUntil - {key};
          AddReadyKey(key, now);
        }
      }
      assert Due(before, now) - keys == Due(before, now);
    }

    /** The head of the loop. The defensive rescan and the cleanup of blocks without work are reached
        only in states that no run produces. */
    method BeginIteration(now: int) returns (finished: bool, earliest: Option<int>)
      requires Valid(View())
      modifies this
      ensures Wakes(old(View()), now, View()) && Valid(View()) && inputOpen == old(inputOpen)
      ensures forall k :: k in old(blockedUntil) && old(blockedUntil)[k] <= now ==>
        k !in blockedUntil && (k in readySet || k in active)
      ensures forall k :: k in blockedUntil <==> k in old(blockedUntil) && now < old(blockedUntil)[k]
      ensures finished <==> !inputOpen && active == {} && buckets == map[]
      ensures earliest.None? ==> finished || blockedUntil == map[]
      ensures earliest.Some? ==>
        && (exists k :: k in blockedUntil && blockedUntil[k] == earliest.value)
        && (forall k :: k in blockedUntil ==> earliest.value <= blockedUntil[k])
    {
      UnblockDue(now);
      WakesKeeps(old(View()), now, View());
      WakesAreDue(old(View()), now, View());
      earliest := None;
      if readyKeys == [] && active == {} && blockedUntil == map[] && buckets != map[] {
        assert false;
      }
      finished := !inputOpen && active == {} && buckets == map[];
      if finished {
        return;
      }
      earliest := EarliestBlock();
    }

    method EarliestBlock() returns (earliest: Option<int>)
      requires Valid(View())
      ensures earliest.None? ==> blockedUntil == map[]
      ensures earliest.Some? ==>
        && (exists k :: k in blockedUntil && blockedUntil[k] == earliest.value)
        && (forall k :: k in blockedUntil ==> earliest.value <= blockedUntil[k])
    {
      earliest := None;
      var keys := blockedUntil.Keys;
      while keys != {}
        invariant keys <= blockedUntil.Keys
        invariant earliest.None? ==> keys == blockedUntil.Keys
        invariant earliest.Some? ==>
          && (exists k :: k in blockedUntil.Keys - keys && blockedUntil[k] == earliest.value)
          && (forall k :: k in blockedUntil.Keys - keys ==> earliest.value <= blockedUntil[k])
        decreases keys
      {
        var key :| key in keys;
        keys := keys - {key};
        if key !in buckets {
          assert false;
        }
        if earliest.None? || blockedUntil[key] < earliest.value {
          earliest := Some(blockedUntil[key]);
          assert key in blockedUntil.Keys - keys && blockedUntil[key] == earliest.value;
        }
      }
    }

    method OnInput(item: Item, now: int)
      modifies this
      ensures View() == Enqueue(old(View()), item, false, now) && inputOpen == old(inputOpen)
    {
      EnqueueReady(item, false, now);
    }

    method OnInputClosed()
      modifies this
      ensures View() == old(View()) && !inputOpen
    {
      inputOpen := false;
    }

    method OnCompletion(c: Completion, nowDefault: int, nowAdd: int)
      modifies this
      ensures View() == Complete(old(View()), c, nowDefault, nowAdd) && inputOpen == old(inputOpen)
    {
      var completion := c;
      active := active - {completion.activeKey};
      if completion.retry {
        if Blank(completion.item.recoveryKey) {
          completion := completion.(item := completion.item.(recoveryKey := completion.activeKey));
        }
        if completion.retryAt.None? {
          completion := completion.(retryAt := Some(nowDefault + RETRY_DELAY));
        }
        EnqueueReady(completion.item, true, nowAdd);
        BlockKey(completion.activeKey, completion.retryAt.value);
        BlockKey(completion.item.recoveryKey, completion.retryAt.value);
      } else {
        AddReadyKey(completion.activeKey, nowAdd);
      }
    }

    method OnSend() returns (next: Item)
      requires Valid(View()) && readyKeys != []
      modifies this
      ensures Bucket(old(View()), old(readyKeys)[0]) != []
      ensures next == Bucket(old(View()), old(readyKeys)[0])[0]
      ensures View() == Send(old(View())) && inputOpen == old(inputOpen)
    {
      HeadHasKey(View());
      var nextKey := readyKeys[0];
      next := buckets[nextKey][0];
      readyKeys := readyKeys[1..];
      readySet := readySet - {nextKey};
      var queue := buckets[nextKey][1..];
      if |queue| == 0 {
        buckets := buckets - {nextKey};
      } else {
        buckets := buckets[nextKey := queue];
      }
      active := active + {nextKey};
    }
  }

  lemma {:induction false} ArriveKeeps(w: World, item: Item, now: int)
    requires Inv(w) && w.open
    ensures Inv(AfterArrive(w, item, now)) && Step(w, Arrive(item, now), AfterArrive(w, item, now))
  {
    hide Inv;
    StepKeeps(w, Arrive(item, now), AfterArrive(w, item, now));
  }

  lemma {:induction false} CloseKeeps(w: World)
    requires Inv(w) && w.open
    ensures Inv(w.(open := false)) && Step(w, Close, w.(open := false))
  {
    hide Inv;
    StepKeeps(w, Close, w.(open := false));
  }

  lemma {:induction false} FinishKeeps(w: World, c: Completion, nowDefault: int, nowAdd: int)
    requires Inv(w) && c.activeKey in w.out && Identity(c.item) == Identity(w.out[c.activeKey])
    ensures Inv(AfterFinish(w, c, nowDefault, nowAdd))
    ensures Step(w, Finish(c, nowDefault, nowAdd), AfterFinish(w, c, nowDefault, nowAdd))
  {
    hide Inv;
    StepKeeps(w, Finish(c, nowDefault, nowAdd), AfterFinish(w, c, nowDefault, nowAdd));
  }

  lemma {:induction false} OfferKeeps(w: World)
    requires Inv(w) && w.t.ready != []
    ensures Valid(w.t) && Bucket(w.t, w.t.ready[0]) != []
    ensures Inv(AfterOffer(w)) && Step(w, Offer, AfterOffer(w))
    ensures var item := Bucket(w.t, w.t.ready[0])[0];
            item.recoveryKey == w.t.ready[0] && item.recoveryKey !in w.out &&
              AfterOffer(w).out == w.out[item.recoveryKey := item]
  {
    hide Conserved, InOrder, Blank, Valid;
    HeadHasKey(w.t);
    OfferIsExclusive(w, AfterOffer(w));
    StepKeeps(w, Offer, AfterOffer(w));
  }

  /** What the environment of the loop does next; the clock values are what time.Now returns. */
  datatype Choice = Head(now: int) | Input(item: Item, now: int) | InputClosed |
    Completed(c: Completion, nowDefault: int, nowAdd: int) | Sent

  /** A run with one more step. */
  lemma {:induction false} RunExtends(ws: seq<World>, es: seq<Event>, e: Event, w: World)
    requires Run(ws, es) && Step(ws[|ws| - 1], e, w)
    ensures Run(ws + [w], es + [e])
  {
    hide Step;
    var more, events := ws + [w], es + [e];
    forall i | 0 <= i < |events| ensures Step(more[i], events[i], more[i + 1]) {
      if i < |es| { assert Step(ws[i], es[i], ws[i + 1]); }
    }
  }

  /** The loop under any sequence of ready select cases is a run of the step relation, so everything proved about runs
      holds of it: ws and es are that run, and handed are the hand-outs in order. An iteration begins with Head, and the
      timer case does no more than the next Head. The result is true for the uncancelled return: then the finished items
      are the arrived ones. */
  method Dispatch(choices: seq<Choice>)
    returns (returned: bool, arrived: seq<Item>, done: seq<Item>, handed: seq<Item>, ghost ws: seq<World>,
             ghost es: seq<Event>)
    ensures Run(ws, es) && ws[0] == Start
    ensures arrived == ws[|ws| - 1].arrived && done == ws[|ws| - 1].finished && handed == HandedOut(ws, es)
    ensures returned ==> multiset(Ids(arrived)) == multiset(Ids(done))
  {
    hide Step, Inv, Run;
    var d := new RecoveryDispatcher();
    var out: map<Key, Item> := map[];
    ws, es := [Start], [];
    StartIsValid();
    StartIsRun();
    returned, arrived, done, handed := false, [], [], [];
    for i := 0 to |choices|
      invariant Run(ws, es) && ws != [] && ws[0] == Start && |ws| == |es| + 1
      invariant var w := ws[|ws| - 1]; Inv(w) && d.View() == w.t && d.inputOpen == w.open && out == w.out
      invariant arrived == ws[|ws| - 1].arrived && done == ws[|ws| - 1].finished && handed == HandedOut(ws, es)
      invariant !returned
    {
      ghost var w0 := ws[|ws| - 1];
      ghost var w, e;
      match choices[i] {
        case Head(now) =>
          returned := HeadStep(d, now, w0);
          w, e := w0.(t := d.View()), Wake(now);
        case Input(item, now) =>
          if !d.inputOpen { return; }
          d.OnInput(item, now);
          w, e := AfterArrive(w0, item, now), Arrive(item, now);
          arrived := arrived + [Keyed(item)];
          ArriveKeeps(w0, item, now);
        case InputClosed =>
          if !d.inputOpen { return; }
          d.OnInputClosed();
          w, e := w0.(open := false), Close;
          CloseKeeps(w0);
        case Completed(c, nowDefault, nowAdd) =>
          if c.activeKey !in out || Identity(c.item) != Identity(out[c.activeKey]) { return; }
          d.OnCompletion(c, nowDefault, nowAdd);
          w, e := AfterFinish(w0, c, nowDefault, nowAdd), Finish(c, nowDefault, nowAdd);
          out := out - {c.activeKey};
          if !c.retry { done := done + [c.item]; }
          FinishKeeps(w0, c, nowDefault, nowAdd);
        case Sent =>
          if d.readyKeys == [] { return; }
          OfferKeeps(w0);
          var next := d.OnSend();
          w, e := AfterOffer(w0), Offer;
          out := out[next.recoveryKey := next];
          handed := handed + [next];
      }
      RunExtends(ws, es, e, w);
      HandedOutExtends(ws, es, e, w);
      ws, es := ws + [w], es + [e];
      if returned { return; }
    }
  }

  /** The items of a run that went to workers. */
  ghost function HandedOut(ws: seq<World>, es: seq<Event>): seq<Item>
    requires |ws| == |es| + 1
  {
    if es == [] then []
    else
      var n := |es| - 1;
      var t := ws[n].t;
      HandedOut(ws[..n + 1], es[..n]) +
        if es[n].Offer? && t.ready != [] && Bucket(t, t.ready[0]) != [] then [Bucket(t, t.ready[0])[0]] else []
  }

  lemma {:induction false} HandedOutExtends(ws: seq<World>, es: seq<Event>, e: Event, w: World)
    requires |ws| == |es| + 1
    ensures var t := ws[|ws| - 1].t;
            HandedOut(ws + [w], es + [e]) ==
            HandedOut(ws, es) +
              if e.Offer? && t.ready != [] && Bucket(t, t.ready[0]) != [] then [Bucket(t, t.ready[0])[0]] else []
  {
    assert (ws + [w])[..|es| + 1] == ws && (es + [e])[..|es|] == es;
  }

  lemma {:induction false} StartIsRun()
    ensures Run([Start], [])
  {}

  method HeadStep(d: RecoveryDispatcher, now: int, ghost w: World) returns (finished: bool)
    requires Inv(w) && d.View() == w.t && d.inputOpen == w.open
    modifies d
    ensures Inv(w.(t := d.View())) && d.inputOpen == w.open && Step(w, Wake(now), w.(t := d.View()))
    ensures finished ==> multiset(Ids(w.arrived)) == multiset(Ids(w.finished))
  {
    hide InOrder, Conserved, Blank, Wakes;
    var earliest;
    finished, earliest := d.BeginIteration(now);
    ghost var w' := w.(t := d.View());
    StepKeeps(w, Wake(now), w');
    if finished { ReturnMeansFinished(w'); }
  }
}
