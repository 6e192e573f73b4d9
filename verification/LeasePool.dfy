/** The exclusive proxy lease pool of the mailbox validation runner: routes are available, leased to one
    key, or cooling down; released routes are either reused or thrown away and refilled. Each section
    under the pool's mutex is one method, specified by a function on Pool. */
module LeasePool {
  import opened Options
  import opened Text

  const COOLDOWN := 60_000       // milliseconds, validationProxyCooldown
  const REFILL_RETRY := 5_000    // validationProxySourceRetryDelay

  datatype Route = Route(id: nat, server: nat, url: string)

  datatype Pool = Pool(
    reuse: bool,  // released routes return to the pool; a pool that does not reuse can refill
    available: seq<Route>,
    leased: map<string, Route>,
    cooldown: map<nat, int>,
    seenURLs: set<string>,
    used: set<nat>,
    rotations: nat,
    peak: nat)

  function NewPool(routes: seq<Route>, reuse: bool): Pool {
    Pool(reuse, routes, map[], map[], set r | r in routes :: r.url, {}, 0, 0)
  }

  predicate Cooling(cooldown: map<nat, int>, id: nat, now: int) { id in cooldown && now < cooldown[id] }

  /** A route that may be handed out now to somebody avoiding these servers. */
  predicate Usable(cooldown: map<nat, int>, r: Route, avoid: set<nat>, now: int) {
    !Cooling(cooldown, r.id, now) && r.server !in avoid
  }

  /** Forget the cooldowns of these routes that have run out. */
  function Expired(cooldown: map<nat, int>, routes: seq<Route>, now: int): map<nat, int> {
    map id | id in cooldown && !(cooldown[id] <= now && exists r :: r in routes && r.id == id) :: cooldown[id]
  }

  function Dropped(p: Pool, key: string): Pool
    requires key in p.leased
  {
    var r := p.leased[key];
    var q := p.(leased := p.leased - {key});
    if p.reuse then q.(available := p.available + [r]) else q.(cooldown := p.cooldown - {r.id})
  }

  /** First section of Acquire: keep the key's current lease if it is still usable, else give it up. */
  function Rotated(p: Pool, key: string, avoid: set<nat>, now: int): Pool {
    if key !in p.leased then p
    else
      var q := p.(cooldown := Expired(p.cooldown, [p.leased[key]], now));
      if Usable(p.cooldown, p.leased[key], avoid, now) then q
      else Dropped(q, key).(rotations := p.rotations + 1)
  }

  predicate KeepsLease(p: Pool, key: string, avoid: set<nat>, now: int) {
    key in p.leased && Usable(p.cooldown, p.leased[key], avoid, now)
  }

  function FirstUsable(routes: seq<Route>, cooldown: map<nat, int>, avoid: set<nat>, now: int): (n: nat)
    ensures n <= |routes|
    ensures forall i :: 0 <= i < n ==> !Usable(cooldown, routes[i], avoid, now)
    ensures n < |routes| ==> Usable(cooldown, routes[n], avoid, now)
  {
    if routes == [] || Usable(cooldown, routes[0], avoid, now) then 0
    else 1 + FirstUsable(routes[1..], cooldown, avoid, now)
  }

  /** Second section of Acquire: lease the first usable route; the routes passed over go to the back. */
  function Scanned(p: Pool, key: string, avoid: set<nat>, now: int): Pool {
    var n := FirstUsable(p.available, p.cooldown, avoid, now);
    if n == |p.available| then p.(cooldown := Expired(p.cooldown, p.available, now))
    else
      Granted(p.(available := p.available[n + 1..] + p.available[..n],
        cooldown := Expired(p.cooldown, p.available[..n + 1], now)),
        key, p.available[n])
  }

  function Granted(p: Pool, key: string, r: Route): Pool {
    var leased := p.leased[key := r];
    p.(leased := leased, used := p.used + {r.id}, peak := if |leased| > p.peak then |leased| else p.peak)
  }

  /** What is recorded of a route handed out. */
  lemma {:induction false} GrantIsRecorded(p: Pool, key: string, r: Route)
    ensures var q := Granted(p, key, r);
            && q.leased == p.leased[key := r] && q.used == p.used + {r.id}
            && q.peak >= p.peak && q.peak >= |q.leased| && (q.peak == p.peak || q.peak == |q.leased|)
  {}

  /** Acquire, when it does not stop to refill between its two sections. */
  function Acquired(p: Pool, key: string, avoid: set<nat>, now: int): Pool {
    var q := Rotated(p, key, avoid, now);
    if KeepsLease(p, key, avoid, now) then q else Scanned(q, key, avoid, now)
  }

  /** Refilling appends the routes whose URL was never seen. */
  function Merged(p: Pool, routes: seq<Route>): Pool
    decreases |routes|
  {
    if routes == [] then p
    else if routes[0].url in p.seenURLs then Merged(p, routes[1..])
    else Merged(p.(seenURLs := p.seenURLs + {routes[0].url}, available := p.available + [routes[0]]), routes[1..])
  }

  predicate Offers(routes: seq<Route>, url: string) { exists r :: r in routes && r.url == url }

  /** Some of these routes, with URLs that are new and all different. */
  predicate Unseen(added: seq<Route>, routes: seq<Route>, seen: set<string>) {
    && (forall r :: r in added ==> r in routes && r.url !in seen)
    && forall i, j :: 0 <= i < j < |added| ==> added[i].url != added[j].url
  }

  lemma {:induction false} OneMoreUnseen(added: seq<Route>, first: Route, rest: seq<Route>, seen: set<string>)
    ensures Unseen(added, rest, seen) ==> Unseen(added, [first] + rest, seen)
    ensures first.url !in seen && Unseen(added, rest, seen + {first.url}) ==>
      Unseen([first] + added, [first] + rest, seen)
  {}

  /** Refilling adds routes with unseen URLs behind those that are there. */
  lemma {:induction false} MergedAdds(p: Pool, routes: seq<Route>)
    ensures var q := Merged(p, routes);
            p.available <= q.available && Unseen(q.available[|p.available|..], routes, p.seenURLs)
    decreases |routes|
  {
    hide Unseen;
    if routes == [] {
      NothingUnseen(p.seenURLs);
    } else {
      var first, rest := routes[0], routes[1..];
      assert routes == [first] + rest;
      if first.url in p.seenURLs {
        MergedAdds(p, rest);
        OneMoreUnseen(Merged(p, rest).available[|p.available|..], first, rest, p.seenURLs);
      } else {
        var with := p.(seenURLs := p.seenURLs + {first.url}, available := p.available + [first]);
        MergedAdds(with, rest);
        var all := Merged(p, routes).available;
        OneMoreUnseen(all[|with.available|..], first, rest, p.seenURLs);
        assert all[|p.available|..] == [first] + all[|with.available|..];
      }
    }
  }

  /** It remembers every URL offered. */
  lemma {:induction false} MergedRemembers(p: Pool, routes: seq<Route>)
    ensures Merged(p, routes).seenURLs == p.seenURLs + set r | r in routes :: r.url
    decreases |routes|
  {
    if routes != [] {
      var first, rest := routes[0], routes[1..];
      assert routes == [first] + rest;
      MergedRemembers(p, rest);
      MergedRemembers(p.(seenURLs := p.seenURLs + {first.url}, available := p.available + [first]), rest);
    }
  }

  /** It adds a route for each URL offered that was not seen. */
  lemma {:induction false} MergedOffers(p: Pool, routes: seq<Route>)
    ensures var q := Merged(p, routes);
            && p.available <= q.available
            && (forall r :: r in routes && r.url !in p.seenURLs ==> Offers(q.available[|p.available|..], r.url))
    decreases |routes|
  {
    hide Offers;
    if routes != [] {
      var first, rest := routes[0], routes[1..];
      assert routes == [first] + rest;
      if first.url in p.seenURLs {
        MergedOffers(p, rest);
      } else {
        var with := p.(seenURLs := p.seenURLs + {first.url}, available := p.available + [first]);
        MergedOffers(with, rest);
        var all := Merged(p, routes).available;
        assert all[|p.available|..] == [first] + all[|with.available|..];
        OneMoreOffered(routes, all[|with.available|..], p.seenURLs);
      }
    }
  }

  lemma {:induction false} OneMoreOffered(routes: seq<Route>, added: seq<Route>, seen: set<string>)
    requires routes != []
    requires forall r :: r in routes[1..] && r.url !in seen + {routes[0].url} ==> Offers(added, r.url)
    ensures forall r :: r in routes && r.url !in seen ==> Offers([routes[0]] + added, r.url)
  {
    var first, all := routes[0], [routes[0]] + added;
    assert first in all && routes == [first] + routes[1..];
    forall r | r in routes && r.url !in seen ensures Offers(all, r.url) {
      if r.url != first.url {
        assert r in routes[1..];
        var x :| x in added && x.url == r.url;
        assert x in all;
      }
    }
  }

  lemma {:induction false} NothingUnseen(seen: set<string>)
    ensures Unseen([], [], seen)
  {}

  function Released(p: Pool, key: string): Pool { if key in p.leased then Dropped(p, key) else p }

  function Cooled(p: Pool, id: nat, now: int): Pool {
    if id == 0 || (id in p.cooldown && p.cooldown[id] >= now + COOLDOWN) then p
    else p.(cooldown := p.cooldown[id := now + COOLDOWN])
  }

  function Succeeded(p: Pool, id: nat, now: int): Pool {
    if id == 0 || Cooling(p.cooldown, id, now) then p else p.(cooldown := p.cooldown - {id})
  }

  // ---------------------------------------------------------------- the program

  /** The two strings, trimmed, name one mailbox: they agree letter by letter up to case. */
  predicate SameMailbox(a: string, b: string) {
    var x, y := Trim(a), Trim(b);
    |x| == |y| && forall i :: 0 <= i < |x| ==> SameLetter(x[i], y[i])
  }

  /** Neither cooling at that time nor on a server to avoid. */
  predicate Free(cooldown: map<nat, int>, r: Route, avoid: set<nat>, now: int) {
    r.server !in avoid && (r.id in cooldown ==> cooldown[r.id] <= now)
  }

  /** A key stands for one mailbox, and a string that is trimmed and in lower case is its own key. */
  lemma {:induction false} KeyIsMailbox(a: string, b: string)
    ensures ProxyLeasePool.KeyOf(a) == ProxyLeasePool.KeyOf(b) <==> SameMailbox(a, b)
    ensures Trim(a) == a && (forall c :: c in a ==> !('A' <= c <= 'Z')) ==> ProxyLeasePool.KeyOf(a) == a
  {
    hide Trim;
    SameLowerIff(Trim(a), Trim(b));
    if Trim(a) == a && forall c :: c in a ==> !('A' <= c <= 'Z') {
      forall i | 0 <= i < |a| ensures Lower(a)[i] == a[i] { assert a[i] in a; }
      assert Lower(a) == a;
    }
  }

  lemma {:induction false} FreeIsUsable(cooldown: map<nat, int>, avoid: set<nat>, now: int)
    ensures forall r :: Free(cooldown, r, avoid, now) <==> Usable(cooldown, r, avoid, now)
  {}

  /** Acquiring forgets cooldowns, and adds none. */
  lemma {:induction false} OnlyForgets(p: Pool, key: string, avoid: set<nat>, now: int)
    ensures forall id :: id in Rotated(p, key, avoid, now).cooldown ==>
              id in p.cooldown && Rotated(p, key, avoid, now).cooldown[id] == p.cooldown[id]
    ensures forall id :: id in Acquired(p, key, avoid, now).cooldown ==>
              id in p.cooldown && Acquired(p, key, avoid, now).cooldown[id] == p.cooldown[id]
  {
    hide Usable, FirstUsable;
  }

  datatype Outcome = Leased(route: Route) | NoneUnleased | NonePresent | WaitForWake | WaitUntil(time: int)

  class ProxyLeasePool {
    const reuseReleased: bool
    var available: seq<Route>
    var leased: map<string, Route>
    var cooldownUntil: map<nat, int>
    var seenURLs: set<string>
    var used: set<nat>
    var rotations: nat
    var peak: nat

    ghost function View(): Pool
      reads this
    {
      Pool(reuseReleased, available, leased, cooldownUntil, seenURLs, used, rotations, peak)
    }

    constructor (routes: seq<Route>, reuse: bool)
      ensures View() == NewPool(routes, reuse)
      ensures available == routes && leased == map[] && cooldownUntil == map[] && reuseReleased == reuse
    {
      reuseReleased := reuse;
      available := routes;
      leased, cooldownUntil, used, rotations, peak := map[], map[], {}, 0, 0;
      seenURLs := set r | r in routes :: r.url;
    }

    static function KeyOf(raw: string): string { Lower(Trim(raw)) }

    /** The first section of Acquire: look at the key's current lease. */
    method CurrentLease(key: string, avoid: set<nat>, now: int) returns (kept: Option<Route>)
      modifies this
      ensures View() == Rotated(old(View()), key, avoid, now)
      ensures kept.Some? <==> KeepsLease(old(View()), key, avoid, now)
      ensures kept.Some? ==> key in leased && leased[key] == kept.value
      ensures kept.Some? <==> key in old(leased) && Free(old(cooldownUntil), old(leased)[key], avoid, now)
      ensures leased == if kept.Some? then old(leased) else old(leased) - {key}
    {
      if key !in leased { return None; }
      var current := leased[key];
      var cooling := current.id in cooldownUntil;
      if current.id in cooldownUntil && now >= cooldownUntil[current.id] {
        cooldownUntil := cooldownUntil - {current.id};
        cooling := false;
      }
      assert cooldownUntil == Expired(old(cooldownUntil), [current], now);
      if current.server !in avoid && !cooling {
        return Some(current);
      }
      leased := leased - {key};
      if reuseReleased {
        available := available + [current];
      } else {
        cooldownUntil := cooldownUntil - {current.id};
      }
      rotations := rotations + 1;
      return None;
    }

    method Grant(key: string, candidate: Route)
      modifies this
      ensures View() == Granted(old(View()), key, candidate) && leased == old(leased)[key := candidate]
    {
      leased := leased[key := candidate];
      used := used + {candidate.id};
      peak := if |leased| > peak then |leased| else peak;
    }

    /** The second section of Acquire: one pass over the available routes, and what to do next. */
    method Scan(key: string, avoid: set<nat>, now: int) returns (outcome: Outcome)
      modifies this
      ensures View() == Scanned(old(View()), key, avoid, now)
      ensures outcome.Leased? <==> exists r :: r in old(available) && Usable(old(cooldownUntil), r, avoid, now)
      ensures outcome.Leased? ==>
        Usable(old(cooldownUntil), outcome.route, avoid, now) && outcome.route in old(available)
      ensures leased == if outcome.Leased? then old(leased)[key := outcome.route] else old(leased)
      ensures outcome.NoneUnleased? ==> old(available) != [] && forall r :: r in old(available) ==> r.server in avoid
      ensures outcome.NonePresent? ==> old(available) == [] && old(leased) == map[]
      ensures outcome.WaitForWake? ==> forall r :: r in old(available) ==> r.server in avoid
      ensures outcome.WaitUntil? ==>
              now < outcome.time && IsEarliest(old(available), old(cooldownUntil), now, Some(outcome.time))
    {
      hide Usable, Cooling, Expired, IsEarliest, Granted, FirstUsable, Scanned;
      ghost var routes, cooldown := available, cooldownUntil;
      var availableCount, skippedAvoided := |available|, 0;
      var earliest: Option<int> := None;
      NothingScanned(cooldown, now);
      assert routes[0..] + routes[..0] == routes;
      for k := 0 to availableCount
        invariant available == routes[k..] + routes[..k]
        invariant leased == old(leased) && used == old(used) && rotations == old(rotations) && peak == old(peak) &&
                  seenURLs == old(seenURLs)
        invariant cooldownUntil == Expired(cooldown, routes[..k], now)
        invariant forall i :: 0 <= i < k ==> !Usable(cooldown, routes[i], avoid, now)
        invariant IsEarliest(routes[..k], cooldown, now, earliest)
        invariant skippedAvoided <= k && (skippedAvoided == k <==> earliest.None?)
      {
        var candidate := available[0];
        available := available[1..];
        RotateOne(routes, k);
        ScanOne(routes, cooldown, avoid, now, k, earliest);
        if candidate.id in cooldownUntil && now < cooldownUntil[candidate.id] {
          available := available + [candidate];
          if earliest.None? || cooldownUntil[candidate.id] < earliest.value {
            earliest := Some(cooldownUntil[candidate.id]);
          }
          continue;
        }
        cooldownUntil := cooldownUntil - {candidate.id};
        if candidate.server in avoid {
          available := available + [candidate];
          skippedAvoided := skippedAvoided + 1;
          continue;
        }
        ScanStops(old(View()), key, avoid, now, k);
        Grant(key, candidate);
        return Leased(candidate);
      }
      assert routes[availableCount..] + routes[..availableCount] == routes;
      assert routes[..availableCount] == routes;
      ScanStops(old(View()), key, avoid, now, availableCount);
      outcome := NothingUsable(routes, cooldown, avoid, now, skippedAvoided, earliest);
    }

    /** What Acquire does when no route of a pass could be used. */
    method NothingUsable(ghost routes: seq<Route>, ghost cooldown: map<nat, int>, ghost avoid: set<nat>, ghost now: int,
                         skippedAvoided: nat, earliest: Option<int>)
      returns (outcome: Outcome)
      requires available == routes && IsEarliest(routes, cooldown, now, earliest)
      requires forall i :: 0 <= i < |routes| ==> !Usable(cooldown, routes[i], avoid, now)
      requires skippedAvoided <= |routes| && (skippedAvoided == |routes| <==> earliest.None?)
      ensures !outcome.Leased? && forall r :: r in routes ==> !Usable(cooldown, r, avoid, now)
      ensures outcome.NoneUnleased? ==> routes != [] && forall r :: r in routes ==> r.server in avoid
      ensures outcome.NonePresent? ==> routes == [] && leased == map[]
      ensures outcome.WaitForWake? ==> forall r :: r in routes ==> r.server in avoid
      ensures outcome.WaitUntil? ==>
        now < outcome.time && IsEarliest(routes, cooldown, now, Some(outcome.time))
    {
      hide Usable, IsEarliest;
      WhyNothing(routes, cooldown, avoid, now, earliest);
      var availableCount := |available|;
      if availableCount > 0 && skippedAvoided == availableCount && earliest.None? { return NoneUnleased; }
      if availableCount == 0 && |leased| == 0 { return NonePresent; }
      if earliest.None? { return WaitForWake; }
      return WaitUntil(earliest.value);
    }

    /** One pass of Acquire under the mutex. The route returned is leased to the mailbox and to be used now, a lease
        that can be kept is kept, and if some route is to be had one is returned. */
    method Acquire(raw: string, avoid: set<nat>, now: int) returns (outcome: Outcome)
      modifies this
      ensures View() == Acquired(old(View()), KeyOf(raw), avoid, now)
      ensures outcome.Leased? ==> KeyOf(raw) in leased && leased[KeyOf(raw)] == outcome.route
      ensures outcome.Leased? && LeasedApart(old(View()), KeyOf(raw)) ==>
              Usable(old(cooldownUntil), outcome.route, avoid, now)
      ensures (exists r :: r in old(available) && Usable(old(cooldownUntil), r, avoid, now)) ==> outcome.Leased?
      ensures outcome.Leased? && LeasedApart(old(View()), KeyOf(raw)) ==>
        Free(old(cooldownUntil), outcome.route, avoid, now)
      ensures KeyOf(raw) in old(leased) && Free(old(cooldownUntil), old(leased)[KeyOf(raw)], avoid, now) ==>
        outcome == Leased(old(leased)[KeyOf(raw)]) && leased == old(leased)
      ensures (exists r :: r in old(available) && Free(old(cooldownUntil), r, avoid, now)) ==> outcome.Leased?
      ensures forall id :: id in cooldownUntil ==>
              id in old(cooldownUntil) && cooldownUntil[id] == old(cooldownUntil)[id]
      ensures forall k :: k != KeyOf(raw) ==> (k in leased <==> k in old(leased))
      ensures forall k :: k != KeyOf(raw) && k in old(leased) ==> leased[k] == old(leased)[k]
    {
      var key := KeyOf(raw);
      var kept := CurrentLease(key, avoid, now);
      FreeIsUsable(old(cooldownUntil), avoid, now);
      OnlyForgets(old(View()), key, avoid, now);
      RotationKeepsUsable(old(View()), key, avoid, now);
      if kept.Some? { return Leased(kept.value); }
      outcome := Scan(key, avoid, now);
    }

    /** The end of refillRoutes: new routes join the pool. */
    method Merge(routes: seq<Route>) returns (added: nat)
      modifies this
      ensures View() == Merged(old(View()), routes)
      ensures old(available) <= available && added == |available| - |old(available)|
      ensures Unseen(available[|old(available)|..], routes, old(seenURLs))
      ensures forall r :: r in routes && r.url !in old(seenURLs) ==> Offers(available[|old(available)|..], r.url)
      ensures seenURLs == old(seenURLs) + set r | r in routes :: r.url
    {
      added := 0;
      for i := 0 to |routes|
        invariant Merged(old(View()), routes) == Merged(View(), routes[i..])
        invariant |available| == |old(available)| + added
      {
        assert routes[i..][1..] == routes[i + 1..];
        if routes[i].url in seenURLs { continue; }
        seenURLs := seenURLs + {routes[i].url};
        available := available + [routes[i]];
        added := added + 1;
      }
      MergedAdds(old(View()), routes);
      MergedOffers(old(View()), routes);
      MergedRemembers(old(View()), routes);
    }

    method Release(raw: string)
      modifies this
      ensures View() == Released(old(View()), KeyOf(raw)) && KeyOf(raw) !in leased
      ensures KeyOf(raw) in old(leased) ==>
        var r := old(leased)[KeyOf(raw)];
        if reuseReleased then available == old(available) + [r] && cooldownUntil == old(cooldownUntil)
        else available == old(available) && r.id !in cooldownUntil
      ensures leased == old(leased) - {KeyOf(raw)}
    {
      var key := KeyOf(raw);
      if key in leased {
        var current := leased[key];
        leased := leased - {key};
        if reuseReleased {
          available := available + [current];
        } else {
          cooldownUntil := cooldownUntil - {current.id};
        }
      }
    }

    method SetCooldown(proxyID: nat, now: int)
      modifies this
      ensures View() == Cooled(old(View()), proxyID, now)
      ensures forall id :: id in old(cooldownUntil) ==>
              id in cooldownUntil && cooldownUntil[id] >= old(cooldownUntil)[id]
      ensures proxyID != 0 ==> forall later :: later < now + COOLDOWN ==> Cooling(cooldownUntil, proxyID, later)
      ensures proxyID != 0 ==> proxyID in cooldownUntil && cooldownUntil[proxyID] >= now + 60_000
      ensures forall id :: id in cooldownUntil ==>
        (id in old(cooldownUntil) && cooldownUntil[id] == old(cooldownUntil)[id]) ||
          (id == proxyID != 0 && cooldownUntil[id] == now + 60_000)
    {
      if proxyID == 0 { return; }
      var until := now + COOLDOWN;
      if proxyID !in cooldownUntil || until > cooldownUntil[proxyID] {
        cooldownUntil := cooldownUntil[proxyID := until];
      }
    }

    /** The worker's safety net: the lease is looked up and cooled before it is released. */
    method CooldownLease(raw: string, now: int)
      modifies this
      ensures View() ==
              if KeyOf(raw) in old(leased) then Cooled(old(View()), old(leased)[KeyOf(raw)].id, now) else old(View())
      ensures KeyOf(raw) in leased && leased[KeyOf(raw)].id != 0 ==>
        forall later :: later < now + COOLDOWN ==> Cooling(cooldownUntil, leased[KeyOf(raw)].id, later)
      ensures leased == old(leased) && available == old(available)
      ensures KeyOf(raw) in leased && leased[KeyOf(raw)].id != 0 ==>
        leased[KeyOf(raw)].id in cooldownUntil && cooldownUntil[leased[KeyOf(raw)].id] >= now + 60_000
      ensures KeyOf(raw) !in leased ==> cooldownUntil == old(cooldownUntil)
    {
      var key := KeyOf(raw);
      if key in leased {
        SetCooldown(leased[key].id, now);
      }
    }

    method ReportSuccess(proxyID: nat, now: int)
      modifies this
      ensures View() == Succeeded(old(View()), proxyID, now)
      ensures forall id, later :: now <= later && Cooling(old(cooldownUntil), id, later) ==>
              Cooling(cooldownUntil, id, later)
      ensures proxyID != 0 && proxyID in cooldownUntil ==> now < cooldownUntil[proxyID]
      ensures forall id :: id in old(cooldownUntil) && (id != proxyID || now < old(cooldownUntil)[id]) ==>
        id in cooldownUntil && cooldownUntil[id] == old(cooldownUntil)[id]
    {
      if proxyID != 0 {
        if proxyID in cooldownUntil {
          if now < cooldownUntil[proxyID] { return; }
          cooldownUntil := cooldownUntil - {proxyID};
        }
      }
    }
  }

  /** The next time at which a cooling route of these becomes free. */
  ghost predicate IsEarliest(routes: seq<Route>, cooldown: map<nat, int>, now: int, earliest: Option<int>) {
    && (earliest.None? <==> forall r :: r in routes ==> !Cooling(cooldown, r.id, now))
    && (earliest.Some? ==>
         && (exists r :: r in routes && Cooling(cooldown, r.id, now) && cooldown[r.id] == earliest.value)
         && (forall r :: r in routes && Cooling(cooldown, r.id, now) ==> earliest.value <= cooldown[r.id]))
  }

  /** The id of the key's lease is not that of an available route, as in every pool that started with distinct ids. */
  ghost predicate LeasedApart(p: Pool, key: string) {
    key in p.leased ==> forall r :: r in p.available ==> r.id != p.leased[key].id
  }

  /** Giving a lease up does not change which routes can be granted. */
  lemma {:induction false} RotationKeepsUsable(p: Pool, key: string, avoid: set<nat>, now: int)
    ensures var q := Rotated(p, key, avoid, now);
            && (forall r :: r in p.available ==> r in q.available)
            && (forall r :: r in p.available && Usable(p.cooldown, r, avoid, now) ==> Usable(q.cooldown, r, avoid, now))
            && (LeasedApart(p, key) ==>
                 forall r :: r in q.available && Usable(q.cooldown, r, avoid, now) ==>
                   Usable(p.cooldown, r, avoid, now))
  {}

  lemma {:induction false} NothingScanned(cooldown: map<nat, int>, now: int)
    ensures Expired(cooldown, [], now) == cooldown && IsEarliest([], cooldown, now, None)
  {}

  lemma {:induction false} RotateOne(routes: seq<Route>, k: nat)
    requires k < |routes|
    ensures var rest := routes[k..] + routes[..k];
            && rest[0] == routes[k]
            && rest[1..] == routes[k + 1..] + routes[..k]
            && rest[1..] + [routes[k]] == routes[k + 1..] + routes[..k + 1]
  {
    assert routes[..k + 1] == routes[..k] + [routes[k]];
  }

  lemma {:induction false} ScanOne(routes: seq<Route>, cooldown: map<nat, int>, avoid: set<nat>, now: int, k: nat,
                                   earliest: Option<int>)
    requires k < |routes| && IsEarliest(routes[..k], cooldown, now, earliest)
    ensures var r, kept := routes[k], Expired(cooldown, routes[..k], now);
            var waiting := r.id in kept && now < kept[r.id];
            && (waiting <==> Cooling(cooldown, r.id, now))
            && (waiting ==> r.id in cooldown && kept[r.id] == cooldown[r.id] && !Usable(cooldown, r, avoid, now))
            && (!waiting ==> (Usable(cooldown, r, avoid, now) <==> r.server !in avoid))
            && Expired(cooldown, routes[..k + 1], now) == (if waiting then kept else kept - {r.id})
            && IsEarliest(routes[..k + 1], cooldown, now,
                 if waiting && (earliest.None? || kept[r.id] < earliest.value) then Some(kept[r.id]) else earliest)
  {
    var r := routes[k];
    assert routes[..k + 1] == routes[..k] + [r];
    assert forall x :: x in routes[..k + 1] <==> x in routes[..k] || x == r;
    var kept, after := Expired(cooldown, routes[..k], now), Expired(cooldown, routes[..k + 1], now);
    assert forall id :: id in after ==> id in kept && after[id] == kept[id];
    assert forall id :: id in kept && id !in after ==> id == r.id;
  }

  lemma {:induction false} WhyNothing(routes: seq<Route>, cooldown: map<nat, int>, avoid: set<nat>, now: int,
                                      earliest: Option<int>)
    requires IsEarliest(routes, cooldown, now, earliest)
    requires forall i :: 0 <= i < |routes| ==> !Usable(cooldown, routes[i], avoid, now)
    ensures forall r :: r in routes ==> !Usable(cooldown, r, avoid, now)
    ensures earliest.None? ==> forall r :: r in routes ==> r.server in avoid
    ensures earliest.Some? ==> now < earliest.value
  {}

  lemma {:induction false} FirstIs(routes: seq<Route>, cooldown: map<nat, int>, avoid: set<nat>, now: int, k: nat)
    requires k <= |routes|
    requires forall i :: 0 <= i < k ==> !Usable(cooldown, routes[i], avoid, now)
    requires k < |routes| ==> Usable(cooldown, routes[k], avoid, now)
    ensures FirstUsable(routes, cooldown, avoid, now) == k
  {}

  /** A pass that stops at a usable route hands it out, and one that meets none changes only cooldowns. */
  lemma {:induction false} ScanStops(p: Pool, key: string, avoid: set<nat>, now: int, k: nat)
    requires k <= |p.available|
    requires forall i :: 0 <= i < k ==> !Usable(p.cooldown, p.available[i], avoid, now)
    requires k < |p.available| ==> Usable(p.cooldown, p.available[k], avoid, now)
    ensures Scanned(p, key, avoid, now) ==
      if k == |p.available| then p.(cooldown := Expired(p.cooldown, p.available, now))
      else
        var rest, expired := p.available[k + 1..] + p.available[..k], Expired(p.cooldown, p.available[..k + 1], now);
        Granted(p.(available := rest, cooldown := expired), key, p.available[k])
  {
    FirstIs(p.available, p.cooldown, avoid, now, k);
  }
}
