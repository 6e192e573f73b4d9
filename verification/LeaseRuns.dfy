/** What every interleaving of the pool's critical sections keeps: leases are exclusive, no route is lost
    or handed out twice, and no cooldown is cut short. */
module LeaseRuns {
  import opened LeasePool

  /** One critical section, for a key and with the clock value it reads. Acquire is Rotate and Scan in one; only a
      pool that refills lets go of its mutex between the two, to load routes. */
  datatype Section =
    | Acquire(key: string, avoid: set<nat>, now: int)
    | Rotate(key: string, avoid: set<nat>, now: int)
    | Scan(key: string, avoid: set<nat>, now: int)
    | Merge(routes: seq<Route>)
    | Release(key: string)
    | Cool(id: nat, now: int)
    | Success(id: nat, now: int)

  /** The pool with its history: the ids the route loader has used, and every route granted by a scan. */
  datatype World = World(p: Pool, ids: set<nat>, given: seq<Route>)

  ghost predicate Enabled(w: World, s: Section) {
    match s
    case Rotate(_, _, _) => !w.p.reuse
    case Scan(_, _, _) => !w.p.reuse  // also for a key that got a lease while the mutex was free
    case Merge(routes) =>             // the loader numbers routes with a running counter
      && (forall r :: r in routes ==> r.id !in w.ids)
      && (forall i, j :: 0 <= i < j < |routes| ==> routes[i].id != routes[j].id)
      && !w.p.reuse
    case _ => true
  }

  function Do(p: Pool, s: Section): Pool {
    match s
    case Acquire(key, avoid, now) => Acquired(p, key, avoid, now)
    case Rotate(key, avoid, now) => Rotated(p, key, avoid, now)
    case Scan(key, avoid, now) => Scanned(p, key, avoid, now)
    case Merge(routes) => Merged(p, routes)
    case Release(key) => Released(p, key)
    case Cool(id, now) => Cooled(p, id, now)
    case Success(id, now) => Succeeded(p, id, now)
  }

  /** The route a scan grants, if any. */
  function Granting(p: Pool, avoid: set<nat>, now: int): seq<Route> {
    var n := FirstUsable(p.available, p.cooldown, avoid, now);
    if n < |p.available| then [p.available[n]] else []
  }

  function Grants(p: Pool, s: Section): seq<Route> {
    match s
    case Acquire(key, avoid, now) =>
      if KeepsLease(p, key, avoid, now) then [] else Granting(Rotated(p, key, avoid, now), avoid, now)
    case Scan(key, avoid, now) => Granting(p, avoid, now)
    case _ => []
  }

  function RouteIDs(routes: seq<Route>): set<nat> { set r | r in routes :: r.id }

  ghost function Next(w: World, s: Section): World {
    World(Do(w.p, s), if s.Merge? then w.ids + RouteIDs(s.routes) else w.ids, w.given + Grants(w.p, s))
  }

  ghost predicate Run(ws: seq<World>, ss: seq<Section>) {
    && |ws| == |ss| + 1
    && forall i :: 0 <= i < |ss| ==> Enabled(ws[i], ss[i]) && ws[i + 1] == Next(ws[i], ss[i])
  }

  /** Two routes are different for the pool's purposes: always by id, and by URL where URLs are tracked. */
  predicate Apart(reuse: bool, r: Route, s: Route) { r.id != s.id && (reuse || r.url != s.url) }

  ghost predicate AllApart(reuse: bool, routes: seq<Route>) {
    forall i, j :: 0 <= i < j < |routes| ==> Apart(reuse, routes[i], routes[j])
  }

  ghost predicate Exclusive(p: Pool) {
    && AllApart(p.reuse, p.available)
    && (forall k, l :: k in p.leased && l in p.leased && k != l ==> Apart(p.reuse, p.leased[k], p.leased[l]))
    && (forall k, r :: k in p.leased && r in p.available ==> Apart(p.reuse, p.leased[k], r))
  }

  ghost predicate Known(w: World, r: Route) { r.id in w.ids && r.url in w.p.seenURLs }

  /** Outside reuse, what was given out stays away from the pool, and every lease was given out. */
  ghost predicate GivenOnce(w: World) {
    && AllApart(false, w.given)
    && (forall r, a :: r in w.given && a in w.p.available ==> Apart(false, r, a))
    && (forall k :: k in w.p.leased ==> w.p.leased[k] in w.given)
    && (forall r :: r in w.given ==> Known(w, r))
  }

  ghost predicate Inv(w: World) {
    && Exclusive(w.p)
    && (forall r :: r in w.p.available ==> Known(w, r))
    && (forall k :: k in w.p.leased ==> Known(w, w.p.leased[k]))
    && (!w.p.reuse ==> GivenOnce(w))
  }

  ghost function AllRoutes(p: Pool): set<Route> { (set r | r in p.available) + p.leased.Values }

  // ---------------------------------------------------------------- the sections

  lemma {:induction false} DroppedKeeps(w: World, key: string)
    requires Inv(w) && key in w.p.leased
    ensures Inv(w.(p := Dropped(w.p, key)))
    ensures w.p.reuse ==> AllRoutes(Dropped(w.p, key)) == AllRoutes(w.p)
  {
    var r := w.p.leased[key];
    var q := Dropped(w.p, key);
    assert forall a :: a in q.available ==> a in w.p.available || a == r;
    if w.p.reuse {
      assert q.available == w.p.available + [r];
      ReturnedRoutes(w.p, key);
      ReturnedApart(w.p, key);
    }
  }

  /** A route different from all in a list can be put at its end. */
  lemma {:induction false} ExtendedApart(reuse: bool, routes: seq<Route>, r: Route)
    requires AllApart(reuse, routes) && forall a :: a in routes ==> Apart(reuse, r, a)
    ensures AllApart(reuse, routes + [r])
  {
    hide Apart;
    var after := routes + [r];
    forall i, j | 0 <= i < j < |after| ensures Apart(reuse, after[i], after[j]) {
      assert routes[i] in routes && after[i] == routes[i];
      if j == |routes| { ApartBothWays(reuse, r, routes[i]); }
    }
  }

  lemma {:induction false} ApartBothWays(reuse: bool, r: Route, s: Route)
    ensures Apart(reuse, r, s) <==> Apart(reuse, s, r)
  {}

  lemma {:induction false} ReturnedApart(p: Pool, key: string)
    requires Exclusive(p) && key in p.leased
    ensures AllApart(p.reuse, p.available + [p.leased[key]])
  {
    hide Apart, AllApart;
    ExtendedApart(p.reuse, p.available, p.leased[key]);
  }

  lemma {:induction false} ReturnedRoutes(p: Pool, key: string)
    requires Exclusive(p) && key in p.leased && p.reuse
    ensures AllRoutes(Dropped(p, key)) == AllRoutes(p)
  {
    var r, q := p.leased[key], Dropped(p, key);
    assert q.available == p.available + [r];
    forall x ensures x in AllRoutes(q) <==> x in AllRoutes(p) {
      if x in p.leased.Values {
        var k :| k in p.leased && p.leased[k] == x;
        if k != key { assert k in q.leased && q.leased[k] == x; }
      }
    }
  }

  /** Moving the n-th available route to a free key. */
  ghost predicate Moves(p: Pool, key: string, n: nat, q: Pool) {
    && n < |p.available| && key !in p.leased
    && q.available == p.available[n + 1..] + p.available[..n] && q.leased == p.leased[key := p.available[n]]
    && q.reuse == p.reuse && q.seenURLs == p.seenURLs
  }

  lemma {:induction false} RestOf(p: Pool, key: string, n: nat, q: Pool)
    requires Moves(p, key, n, q) && AllApart(p.reuse, p.available)
    ensures forall a :: a in q.available ==> a in p.available && Apart(p.reuse, p.available[n], a)
  {
    forall a | a in q.available ensures a in p.available && Apart(p.reuse, p.available[n], a) {
      var i :| 0 <= i < |q.available| && q.available[i] == a;
      var j := if i < |p.available| - n - 1 then n + 1 + i else i - (|p.available| - n - 1);
      assert p.available[j] == a && j != n;
    }
  }

  lemma {:induction false} MoveKeepsExclusive(p: Pool, key: string, n: nat, q: Pool)
    requires Moves(p, key, n, q) && Exclusive(p)
    ensures Exclusive(q)
  {
    RestOf(p, key, n, q);
    RotationKeepsApart(p.reuse, p.available, n);
    assert p.available[n] in p.available;
  }

  lemma {:induction false} MoveKeeps(w: World, key: string, n: nat, q: Pool)
    requires Moves(w.p, key, n, q) && Inv(w)
    ensures Inv(World(q, w.ids, w.given + [w.p.available[n]]))
  {
    hide Exclusive;
    MoveKeepsExclusive(w.p, key, n, q);
    RestOf(w.p, key, n, q) by { assert AllApart(w.p.reuse, w.p.available) by { ExclusiveApart(w.p); } }
    var r := w.p.available[n];
    assert r in w.p.available;
    if !w.p.reuse {
      assert forall g :: g in w.given + [r] ==> g in w.given || g == r;
      forall g | g in w.given ensures Apart(false, r, g) { ApartBothWays(false, r, g); }
      ExtendedApart(false, w.given, r);
    }
  }

  lemma {:induction false} ExclusiveApart(p: Pool)
    requires Exclusive(p)
    ensures AllApart(p.reuse, p.available)
  {}

  /** A lease that is overwritten or given up is a route less to keep apart. */
  lemma {:induction false} UnleasedKeeps(w: World, key: string)
    requires Inv(w)
    ensures Inv(w.(p := w.p.(leased := w.p.leased - {key})))
  {}

  lemma {:induction false} ScannedMoves(p: Pool, key: string, avoid: set<nat>, now: int)
    ensures var n, q := FirstUsable(p.available, p.cooldown, avoid, now), Scanned(p, key, avoid, now);
            && (n < |p.available| ==> Moves(p.(leased := p.leased - {key}), key, n, q))
            && (n == |p.available| ==> q == p.(cooldown := q.cooldown))
  {
    hide Expired, Usable, FirstUsable;
    var n := FirstUsable(p.available, p.cooldown, avoid, now);
    if n < |p.available| { Overwritten(p.leased, key, p.available[n]); }
  }

  lemma {:induction false} Overwritten(leased: map<string, Route>, key: string, r: Route)
    ensures leased[key := r] == (leased - {key})[key := r]
  {}

  /** A scan keeps the pool sound even when the key got a lease in the meantime, which is then overwritten. */
  lemma {:induction false} ScannedKeeps(w: World, key: string, avoid: set<nat>, now: int)
    requires Inv(w)
    ensures Inv(World(Scanned(w.p, key, avoid, now), w.ids, w.given + Granting(w.p, avoid, now)))
  {
    hide Inv, Scanned, Moves;
    var n := FirstUsable(w.p.available, w.p.cooldown, avoid, now);
    var q := Scanned(w.p, key, avoid, now);
    ScannedMoves(w.p, key, avoid, now);
    if n < |w.p.available| {
      var free := w.(p := w.p.(leased := w.p.leased - {key}));
      UnleasedKeeps(w, key);
      MoveKeeps(free, key, n, q);
    } else {
      CooldownIsIrrelevant(w, q);
      assert w.given + [] == w.given;
    }
  }

  lemma {:induction false} ScannedKeepsRoutes(p: Pool, key: string, avoid: set<nat>, now: int)
    requires key !in p.leased
    ensures AllRoutes(Scanned(p, key, avoid, now)) == AllRoutes(p)
  {
    hide Expired, AllRoutes;
    var n := FirstUsable(p.available, p.cooldown, avoid, now);
    var q := Scanned(p, key, avoid, now);
    if n < |p.available| { LeasedRoutes(p, key, n, q); } else { SameRoutes(p, q); }
  }

  lemma {:induction false} SameRoutes(p: Pool, q: Pool)
    requires q.available == p.available && q.leased == p.leased
    ensures AllRoutes(q) == AllRoutes(p)
  {}

  lemma {:induction false} RotationKeepsApart(reuse: bool, routes: seq<Route>, n: nat)
    requires AllApart(reuse, routes) && n < |routes|
    ensures AllApart(reuse, routes[n + 1..] + routes[..n])
  {}

  lemma {:induction false} LeasedRoutes(p: Pool, key: string, n: nat, q: Pool)
    requires n < |p.available| && key !in p.leased
    requires q.available == p.available[n + 1..] + p.available[..n] && q.leased == p.leased[key := p.available[n]]
    ensures AllRoutes(q) == AllRoutes(p)
  {
    var r := p.available[n];
    assert p.available == p.available[..n] + [r] + p.available[n + 1..];
    forall x ensures x in AllRoutes(q) <==> x in AllRoutes(p) {
      assert x in p.available <==> x in q.available || x == r;
      if x in p.leased.Values {
        var k :| k in p.leased && p.leased[k] == x;
        assert k in q.leased && q.leased[k] == x;
      }
      assert key in q.leased && q.leased[key] == r;
    }
  }

  /** Appending new routes one by one: only unseen URLs and unused ids enter. */
  lemma {:induction false} MergedKeeps(w: World, routes: seq<Route>)
    requires Inv(w) && Enabled(w, Merge(routes))
    ensures Inv(Next(w, Merge(routes)))
    ensures w.p.available <= Merged(w.p, routes).available && Merged(w.p, routes).leased == w.p.leased
    decreases |routes|
  {
    hide Inv, RouteIDs;
    assert w.given + [] == w.given;
    FirstID(routes);
    if routes == [] {
      assert w.ids + {} == w.ids;
    } else {
      var r, rest := routes[0], routes[1..];
      var q := if r.url in w.p.seenURLs then w.p
               else w.p.(seenURLs := w.p.seenURLs + {r.url}, available := w.p.available + [r]);
      var v := World(q, w.ids + {r.id}, w.given);
      AddedKeeps(w, r, v);
      RestIsNew(w.ids, routes);
      MergedKeeps(v, rest);
      assert v.ids + RouteIDs(rest) == w.ids + RouteIDs(routes);
    }
  }

  lemma {:induction false} FirstID(routes: seq<Route>)
    ensures RouteIDs([]) == {}
    ensures routes != [] ==> RouteIDs(routes) == {routes[0].id} + RouteIDs(routes[1..]) && routes[0] in routes
  {
    if routes != [] { assert routes == [routes[0]] + routes[1..]; }
  }

  lemma {:induction false} RestIsNew(ids: set<nat>, routes: seq<Route>)
    requires routes != [] && forall r :: r in routes ==> r.id !in ids
    requires forall i, j :: 0 <= i < j < |routes| ==> routes[i].id != routes[j].id
    ensures forall r :: r in routes[1..] ==> r.id !in ids + {routes[0].id}
    ensures forall i, j :: 0 <= i < j < |routes[1..]| ==> routes[1..][i].id != routes[1..][j].id
  {
    forall i | 0 <= i < |routes[1..]| ensures routes[1..][i] == routes[i + 1] {}
    forall r | r in routes[1..] ensures r.id !in ids + {routes[0].id} {
      var i :| 0 <= i < |routes[1..]| && routes[1..][i] == r;
      assert routes[i + 1] == r;
    }
  }

  lemma {:induction false} AddedKeeps(w: World, r: Route, v: World)
    requires Inv(w) && r.id !in w.ids && !w.p.reuse
    requires v == World(if r.url in w.p.seenURLs then w.p
                        else w.p.(seenURLs := w.p.seenURLs + {r.url}, available := w.p.available + [r]), w.ids +
                          {r.id}, w.given)
    ensures Inv(v)
  {
    hide Apart, AllApart;
    assert forall x :: Known(w, x) ==> Known(v, x);
    if r.url !in w.p.seenURLs {
      assert forall x :: x in v.p.available ==> x in w.p.available || x == r;
      forall x | Known(w, x) ensures Apart(false, x, r) && Apart(false, r, x) { NewIsApart(w, r, x); }
      ExtendedApart(false, w.p.available, r);
    }
  }

  lemma {:induction false} NewIsApart(w: World, r: Route, x: Route)
    requires Known(w, x) && r.id !in w.ids && r.url !in w.p.seenURLs
    ensures Apart(false, x, r) && Apart(false, r, x)
  {}

  lemma {:induction false} RotatedKeeps(w: World, key: string, avoid: set<nat>, now: int)
    requires Inv(w)
    ensures Inv(w.(p := Rotated(w.p, key, avoid, now)))
    ensures w.p.reuse ==> AllRoutes(Rotated(w.p, key, avoid, now)) == AllRoutes(w.p)
    ensures Rotated(w.p, key, avoid, now).reuse == w.p.reuse
  {
    hide GivenOnce, Exclusive, Known, AllRoutes, Expired;
    if key in w.p.leased {
      var cleared := w.p.(cooldown := Expired(w.p.cooldown, [w.p.leased[key]], now));
      CooldownIsIrrelevant(w, cleared);
      DroppedKeeps(w.(p := cleared), key);
      var dropped := Dropped(cleared, key);
      CooldownIsIrrelevant(w.(p := dropped), dropped.(rotations := dropped.rotations + 1));
    }
  }

  /** Giving an unusable lease up and scanning in one section keeps all routes: no lease is ever overwritten. */
  lemma {:induction false} AcquiredKeeps(w: World, key: string, avoid: set<nat>, now: int)
    requires Inv(w)
    ensures Inv(Next(w, Acquire(key, avoid, now)))
    ensures w.p.reuse ==> AllRoutes(Acquired(w.p, key, avoid, now)) == AllRoutes(w.p)
  {
    hide Inv, AllRoutes, Rotated, Scanned, KeepsLease;
    var v := w.(p := Rotated(w.p, key, avoid, now));
    RotatedKeeps(w, key, avoid, now);
    RotateGivesUp(w.p, key, avoid, now);
    if KeepsLease(w.p, key, avoid, now) {
      assert w.given + [] == w.given;
    } else {
      ScannedKeeps(v, key, avoid, now);
      ScannedKeepsRoutes(v.p, key, avoid, now);
    }
  }

  lemma {:induction false} RotateGivesUp(p: Pool, key: string, avoid: set<nat>, now: int)
    ensures key in Rotated(p, key, avoid, now).leased <==> KeepsLease(p, key, avoid, now)
  {}

  lemma {:induction false} StepKeeps(w: World, s: Section)
    requires Inv(w) && Enabled(w, s)
    ensures Inv(Next(w, s))
    ensures w.p.reuse ==> AllRoutes(Next(w, s).p) == AllRoutes(w.p)
  {
    hide Inv, AllRoutes, Expired, FirstUsable, Rotated, Scanned, Acquired;
    assert w.given + [] == w.given;
    match s {
      case Acquire(key, avoid, now) => AcquiredKeeps(w, key, avoid, now);
      case Rotate(key, avoid, now) => RotatedKeeps(w, key, avoid, now);
      case Scan(key, avoid, now) => ScannedKeeps(w, key, avoid, now);
      case Merge(routes) => MergedKeeps(w, routes);
      case Release(key) => if key in w.p.leased { DroppedKeeps(w, key); }
      case Cool(id, now) => CooldownIsIrrelevant(w, Cooled(w.p, id, now));
      case Success(id, now) => CooldownIsIrrelevant(w, Succeeded(w.p, id, now));
    }
  }

  lemma {:induction false} StepKeepsMode(p: Pool, s: Section)
    ensures Do(p, s).reuse == p.reuse
  {
    hide Expired, FirstUsable, Usable;
    match s {
      case Merge(routes) => MergedKeepsMode(p, routes);
      case _ =>
    }
  }

  lemma {:induction false} MergedKeepsMode(p: Pool, routes: seq<Route>)
    ensures Merged(p, routes).reuse == p.reuse && Merged(p, routes).cooldown == p.cooldown
    decreases |routes|
  {
    if routes != [] {
      MergedKeepsMode(p, routes[1..]);
      MergedKeepsMode(p.(seenURLs := p.seenURLs + {routes[0].url}, available := p.available + [routes[0]]),
        routes[1..]);
    }
  }

  lemma {:induction false} CooldownIsIrrelevant(w: World, q: Pool)
    requires Inv(w)
    requires q.available == w.p.available && q.leased == w.p.leased && q.reuse == w.p.reuse &&
             q.seenURLs == w.p.seenURLs
    ensures Inv(w.(p := q)) && AllRoutes(q) == AllRoutes(w.p)
  {}

  ghost predicate Begins(w: World, routes: seq<Route>, reuse: bool) {
    && w == World(NewPool(routes, reuse), RouteIDs(routes), [])
    && AllApart(reuse, routes)
  }

  lemma {:induction false} RunKeeps(ws: seq<World>, ss: seq<Section>, routes: seq<Route>, reuse: bool)
    requires Run(ws, ss) && Begins(ws[0], routes, reuse)
    ensures forall i :: 0 <= i < |ws| ==> Inv(ws[i]) && ws[i].p.reuse == reuse
    ensures reuse ==> forall i :: 0 <= i < |ws| ==> AllRoutes(ws[i].p) == set r | r in routes
    decreases |ss|
  {
    hide Inv, Next, AllRoutes;
    if ss == [] {
      BeginIsValid(ws[0], routes, reuse);
    } else {
      var n := |ss| - 1;
      RunKeeps(ws[..n + 1], ss[..n], routes, reuse);
      assert ws[n] == ws[..n + 1][n];
      StepKeeps(ws[n], ss[n]);
      StepKeepsMode(ws[n].p, ss[n]);
      assert ws[n + 1].p == Do(ws[n].p, ss[n]) by { NextIs(ws[n], ss[n]); }
      forall i | 0 <= i < |ws| - 1 ensures ws[i] == ws[..n + 1][i] {}
    }
  }

  lemma {:induction false} NextIs(w: World, s: Section)
    ensures Next(w, s).p == Do(w.p, s)
  {}

  lemma {:induction false} BeginIsValid(w: World, routes: seq<Route>, reuse: bool)
    requires Begins(w, routes, reuse)
    ensures Inv(w) && AllRoutes(w.p) == set r | r in routes
  {}

  // ---------------------------------------------------------------- what that means

  /** Reuse: at every moment the available routes, none twice, and the leased ones, none under two keys and
      none available, are exactly the initial routes. */
  lemma {:induction false} ReusePermutes(ws: seq<World>, ss: seq<Section>, routes: seq<Route>, i: nat)
    requires Run(ws, ss) && Begins(ws[0], routes, true) && i < |ws|
    ensures (set r | r in ws[i].p.available) + ws[i].p.leased.Values == (set r | r in routes)
    ensures forall k, l :: k in ws[i].p.leased && l in ws[i].p.leased && k != l ==>
            ws[i].p.leased[k].id != ws[i].p.leased[l].id
    ensures forall k, r :: k in ws[i].p.leased && r in ws[i].p.available ==> ws[i].p.leased[k].id != r.id
    ensures forall a, b :: 0 <= a < b < |ws[i].p.available| ==> ws[i].p.available[a].id != ws[i].p.available[b].id
  {
    RunKeeps(ws, ss, routes, true);
    assert Inv(ws[i]) && AllRoutes(ws[i].p) == set r | r in routes;
    assert forall a, b :: 0 <= a < b < |ws[i].p.available| ==> Apart(true, ws[i].p.available[a], ws[i].p.available[b]);
  }

  /** Refill: over the whole run no URL is given out twice, and none that was given out is available again. */
  lemma {:induction false} RefillGivesOnce(ws: seq<World>, ss: seq<Section>, routes: seq<Route>, i: nat)
    requires Run(ws, ss) && Begins(ws[0], routes, false) && i < |ws|
    ensures forall a, b :: 0 <= a < b < |ws[i].given| ==> ws[i].given[a].url != ws[i].given[b].url
    ensures forall g, r :: g in ws[i].given && r in ws[i].p.available ==> g.url != r.url
    ensures forall k :: k in ws[i].p.leased ==> ws[i].p.leased[k] in ws[i].given
  {
    RunKeeps(ws, ss, routes, false);
    assert Inv(ws[i]);
    assert forall a, b :: 0 <= a < b < |ws[i].given| ==> Apart(false, ws[i].given[a], ws[i].given[b]);
  }

  /** A scan for a key that still holds a lease would overwrite it and lose that route: giving the lease up
      first, as Acquire does, is exactly what keeps all routes. */
  lemma {:induction false} ScanKeepsRoutesIff(w: World, key: string, avoid: set<nat>, now: int)
    requires Inv(w)
    ensures AllRoutes(Scanned(w.p, key, avoid, now)) == AllRoutes(w.p) <==>
            key !in w.p.leased || FirstUsable(w.p.available, w.p.cooldown, avoid, now) == |w.p.available|
  {
    hide Inv, Expired, AllRoutes;
    var n := FirstUsable(w.p.available, w.p.cooldown, avoid, now);
    if key !in w.p.leased {
      ScannedKeepsRoutes(w.p, key, avoid, now);
    } else if n < |w.p.available| {
      OverwrittenIsLost(w, key, n, Scanned(w.p, key, avoid, now));
    } else {
      CooldownIsIrrelevant(w, Scanned(w.p, key, avoid, now));
    }
  }

  /** Such a scan exists: a pool with one leased and one available route, scanned for the holder of the lease. */
  lemma {:induction false} ScanMayLoseARoute()
    ensures var held, free := Route(1, 1, "a"), Route(2, 2, "b");
            var p := Pool(false, [free], map["k" := held], map[], {"a", "b"}, {1}, 0, 1);
            && Inv(World(p, {1, 2}, [held]))
            && AllRoutes(Scanned(p, "k", {}, 0)) != AllRoutes(p)
  {
    var held, free := Route(1, 1, "a"), Route(2, 2, "b");
    var p := Pool(false, [free], map["k" := held], map[], {"a", "b"}, {1}, 0, 1);
    var w := World(p, {1, 2}, [held]);
    assert Inv(w);
    assert Usable(p.cooldown, p.available[0], {}, 0);
    assert FirstUsable(p.available, p.cooldown, {}, 0) == 0;
    ScanKeepsRoutesIff(w, "k", {}, 0);
  }

  lemma {:induction false} OverwrittenIsLost(w: World, key: string, n: nat, q: Pool)
    requires Inv(w) && key in w.p.leased && n < |w.p.available|
    requires q.available == w.p.available[n + 1..] + w.p.available[..n] &&
             q.leased == w.p.leased[key := w.p.available[n]]
    ensures AllRoutes(q) != AllRoutes(w.p)
  {
    hide GivenOnce, Known;
    var lost := w.p.leased[key];
    assert w.p.available[n] in w.p.available;
    assert forall a :: a in q.available ==> a in w.p.available;
    assert lost in AllRoutes(w.p) && lost !in AllRoutes(q);
  }

  // ---------------------------------------------------------------- cooldowns

  ghost predicate InPool(p: Pool, id: nat) {
    (exists r :: r in p.available && r.id == id) || (exists k :: k in p.leased && p.leased[k].id == id)
  }

  /** The clock value of a section; sections without one end no cooldown. */
  function Clock(s: Section, until: int): int {
    match s
    case Acquire(_, _, now) => now
    case Rotate(_, _, now) => now
    case Scan(_, _, now) => now
    case Success(_, now) => now
    case _ => until - 1
  }

  /** A route still in the pool neither loses nor shortens a cooldown that has not run out. */
  lemma {:induction false} CooldownIsKept(w: World, s: Section, id: nat)
    requires Inv(w) && Enabled(w, s)
    requires id in w.p.cooldown && Clock(s, w.p.cooldown[id]) < w.p.cooldown[id]
    requires InPool(Do(w.p, s), id)
    ensures id in Do(w.p, s).cooldown && Do(w.p, s).cooldown[id] >= w.p.cooldown[id]
  {
    hide Exclusive, GivenOnce, Known, InPool;
    match s {
      case Acquire(key, avoid, now) => AcquireKeepsCooldown(w.p, key, avoid, now, id);
      case Rotate(key, avoid, now) => RotateKeepsCooldown(w.p, key, avoid, now, id);
      case Scan(key, avoid, now) =>
      case Merge(routes) => MergedKeepsMode(w.p, routes);
      case Release(key) => if key in w.p.leased { DropKeepsCooldown(w.p, w.p, key, id, w.p.rotations); }
      case Cool(_, now) =>
      case Success(_, now) =>
    }
  }

  lemma {:induction false} RotateKeepsCooldown(p: Pool, key: string, avoid: set<nat>, now: int, id: nat)
    requires Exclusive(p) && id in p.cooldown && now < p.cooldown[id] && InPool(Rotated(p, key, avoid, now), id)
    ensures id in Rotated(p, key, avoid, now).cooldown && Rotated(p, key, avoid, now).cooldown[id] == p.cooldown[id]
  {
    hide Exclusive, InPool;
    if key in p.leased {
      var cleared := p.(cooldown := Expired(p.cooldown, [p.leased[key]], now));
      assert id in cleared.cooldown;
      DropKeepsCooldown(p, cleared, key, id, p.rotations);
      DropKeepsCooldown(p, cleared, key, id, p.rotations + 1);
    }
  }

  lemma {:induction false} AcquireKeepsCooldown(p: Pool, key: string, avoid: set<nat>, now: int, id: nat)
    requires Exclusive(p) && id in p.cooldown && now < p.cooldown[id] && InPool(Acquired(p, key, avoid, now), id)
    ensures id in Acquired(p, key, avoid, now).cooldown && Acquired(p, key, avoid, now).cooldown[id] >= p.cooldown[id]
  {
    hide Exclusive, Rotated, FirstUsable, InPool, AllRoutes;
    RotateGivesUp(p, key, avoid, now);
    var q := Rotated(p, key, avoid, now);
    if key !in q.leased {
      ScannedKeepsRoutes(q, key, avoid, now);
      RoutesAreInPool(q, Scanned(q, key, avoid, now), id);
    }
    RotateKeepsCooldown(p, key, avoid, now, id);
  }

  lemma {:induction false} RoutesAreInPool(p: Pool, q: Pool, id: nat)
    requires AllRoutes(p) == AllRoutes(q)
    ensures InPool(q, id) ==> InPool(p, id)
  {
    if InPool(q, id) {
      var r :| r in AllRoutes(q) && r.id == id;
      assert r in AllRoutes(p);
    }
  }

  lemma {:induction false} DropKeepsCooldown(p: Pool, cleared: Pool, key: string, id: nat, rotations: nat)
    requires Exclusive(p) && key in p.leased && id in cleared.cooldown
    requires cleared == p.(cooldown := cleared.cooldown)
    ensures InPool(Dropped(cleared, key).(rotations := rotations), id) ==>
            id in Dropped(cleared, key).cooldown && Dropped(cleared, key).cooldown[id] == cleared.cooldown[id]
  {
    if !p.reuse && p.leased[key].id == id { DroppedIsGone(cleared, key); }
  }

  lemma {:induction false} DroppedIsGone(p: Pool, key: string)
    requires Exclusive(p) && key in p.leased && !p.reuse
    ensures !InPool(Dropped(p, key), p.leased[key].id)
  {}

  /** A cooled lease stays unusable after it is released and for a full minute. */
  lemma {:induction false} CooledThenReleased(w: World, key: string, now: int, later: int, avoid: set<nat>)
    requires Inv(w) && w.p.reuse && key in w.p.leased && w.p.leased[key].id != 0 && later < now + COOLDOWN
    ensures var q := Released(Cooled(w.p, w.p.leased[key].id, now), key);
            w.p.leased[key] in q.available && !Usable(q.cooldown, w.p.leased[key], avoid, later)
  {
    var q := Released(Cooled(w.p, w.p.leased[key].id, now), key);
    assert q.available == w.p.available + [w.p.leased[key]];
  }

  // ---------------------------------------------------------------- mailboxes

  /** A section that may end or change the lease of this key. */
  predicate Touches(s: Section, key: string) {
    match s
    case Acquire(k, _, _) => k == key
    case Rotate(k, _, _) => k == key
    case Scan(k, _, _) => k == key
    case Release(k) => k == key
    case _ => false
  }

  lemma {:induction false} StepKeepsLease(p: Pool, s: Section, key: string)
    requires key in p.leased && !Touches(s, key)
    ensures key in Do(p, s).leased && Do(p, s).leased[key] == p.leased[key]
  {
    hide Expired, FirstUsable, Usable;
    match s {
      case Merge(routes) => MergedKeepsLeases(p, routes);
      case _ =>
    }
  }

  lemma {:induction false} MergedKeepsLeases(p: Pool, routes: seq<Route>)
    ensures Merged(p, routes).leased == p.leased
    decreases |routes|
  {
    if routes != [] {
      MergedKeepsLeases(p, routes[1..]);
      MergedKeepsLeases(p.(seenURLs := p.seenURLs + {routes[0].url}, available := p.available + [routes[0]]),
        routes[1..]);
    }
  }

  /** Whatever other keys do meanwhile, a lease stays until its own key is acquired or released again. */
  lemma {:induction false} LeaseStays(ws: seq<World>, ss: seq<Section>, key: string)
    requires Run(ws, ss) && key in ws[0].p.leased && forall s :: s in ss ==> !Touches(s, key)
    ensures key in ws[|ss|].p.leased && ws[|ss|].p.leased[key] == ws[0].p.leased[key]
    decreases |ss|
  {
    hide Do, Grants, Enabled;
    if ss != [] {
      assert ss[0] in ss && ws[1] == Next(ws[0], ss[0]);
      StepKeepsLease(ws[0].p, ss[0], key);
      var later, rest := ws[1..], ss[1..];
      forall i | 0 <= i < |rest| ensures Enabled(later[i], rest[i]) && later[i + 1] == Next(later[i], rest[i]) {
        assert ws[i + 2] == Next(ws[i + 1], ss[i + 1]);
      }
      LeaseStays(later, rest, key);
    }
  }

  /** At no moment of any run do two mailboxes hold the same route, however their addresses are spelled. */
  lemma {:induction false} MailboxesApart(ws: seq<World>, ss: seq<Section>, routes: seq<Route>, reuse: bool, i: nat,
                                          a: string, b: string)
    requires Run(ws, ss) && Begins(ws[0], routes, reuse) && i < |ws| && !SameMailbox(a, b)
    requires ProxyLeasePool.KeyOf(a) in ws[i].p.leased && ProxyLeasePool.KeyOf(b) in ws[i].p.leased
    ensures ws[i].p.leased[ProxyLeasePool.KeyOf(a)].id != ws[i].p.leased[ProxyLeasePool.KeyOf(b)].id
  {
    hide SameMailbox, Next, Enabled, ProxyLeasePool.KeyOf;
    KeyIsMailbox(a, b);
    RunKeeps(ws, ss, routes, reuse);
    assert Inv(ws[i]);
    LeasesApart(ws[i]);
  }

  /** Two acquisitions on a fresh pool: two mailboxes get two routes, one mailbox keeps its own. */
  method AcquireTwice(routes: seq<Route>, reuse: bool, a: string, b: string, avoid: set<nat>, now: int, later: int)
    returns (x: Outcome, y: Outcome)
    requires AllApart(reuse, routes) && now <= later
    ensures x.Leased? && y.Leased? && !SameMailbox(a, b) ==> x.route.id != y.route.id
    ensures x.Leased? && SameMailbox(a, b) ==> y == x
    ensures (exists r :: r in routes && r.server !in avoid) ==> x.Leased?
  {
    hide Inv, Acquired, AllRoutes, Grants, SameMailbox;
    KeyIsMailbox(a, b);
    var pool := new ProxyLeasePool(routes, reuse);
    ghost var w := World(pool.View(), RouteIDs(routes), []);
    FreshIsApart(w, routes, reuse);
    x := pool.Acquire(a, avoid, now);
    AcquiredKeeps(w, ProxyLeasePool.KeyOf(a), avoid, now);
    ghost var v := Next(w, Acquire(ProxyLeasePool.KeyOf(a), avoid, now));
    y := pool.Acquire(b, avoid, later);
    AcquiredKeeps(v, ProxyLeasePool.KeyOf(b), avoid, later);
    LeasesApart(Next(v, Acquire(ProxyLeasePool.KeyOf(b), avoid, later)));
  }

  lemma {:induction false} FreshIsApart(w: World, routes: seq<Route>, reuse: bool)
    requires Begins(w, routes, reuse)
    ensures Inv(w) && forall key :: LeasedApart(w.p, key)
  {
    BeginIsValid(w, routes, reuse);
  }

  lemma {:induction false} LeasesApart(w: World)
    requires Inv(w)
    ensures forall k, l :: k in w.p.leased && l in w.p.leased && k != l ==> w.p.leased[k].id != w.p.leased[l].id
  {}
}
