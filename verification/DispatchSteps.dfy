/** The stage-1 dispatcher of the mailbox validation runner, as functions on its five coupled
    structures: queued items by recovery key, keys out with a worker, the round-robin list of ready keys
    with its set, and keys waiting out a retry delay. */
module DispatchSteps {
  import opened Options
  import opened Text

  type Key = string

  const RETRY_DELAY := 5000  // milliseconds, recoveryMailboxBusyRetryDelay

  datatype Item = Item(email: string, resourceID: nat, recoveryKey: Key, checkLease: bool)

  datatype Completion = Completion(item: Item, activeKey: Key, retry: bool, retryAt: Option<int>)

  datatype Table = Table(
    buckets: map<Key, seq<Item>>,
    active: set<Key>,
    readySet: set<Key>,
    ready: seq<Key>,
    blocked: map<Key, int>)

  // ---------------------------------------------------------------- the steps, as functions

  function FallbackKey(item: Item): (k: Key)
    ensures !Blank(k)
  {
    var key := if item.resourceID != 0 then "resource:" + Decimal(item.resourceID)
               else "email:" + Lower(Trim(item.email));
    assert key[0] == 'r' || key[0] == 'e';
    key
  }

  /** Items without a recovery mailbox share a key only with themselves: with the same resource, or, where there is
      none, the same address up to case. */
  lemma {:induction false} FallbackKeysDiffer(a: Item, b: Item)
    ensures FallbackKey(a) == FallbackKey(b) <==>
            if a.resourceID != 0 then a.resourceID == b.resourceID
            else b.resourceID == 0 && Lower(Trim(a.email)) == Lower(Trim(b.email))
  {
    hide Decimal, Lower, Trim;
    var j, k := FallbackKey(a), FallbackKey(b);
    assert j[0] == if a.resourceID != 0 then 'r' else 'e';
    assert k[0] == if b.resourceID != 0 then 'r' else 'e';
    if a.resourceID != 0 && b.resourceID != 0 {
      assert j[9..] == Decimal(a.resourceID) && k[9..] == Decimal(b.resourceID);
      if j == k { DecimalIsInjective(a.resourceID, b.resourceID); }
    } else if a.resourceID == 0 && b.resourceID == 0 {
      assert j[6..] == Lower(Trim(a.email)) && k[6..] == Lower(Trim(b.email));
    }
  }

  function Keyed(item: Item): (r: Item)
    ensures !Blank(r.recoveryKey)
    ensures !Blank(item.recoveryKey) ==> r == item
    ensures Identity(r) == Identity(item)
  {
    if Blank(item.recoveryKey) then item.(recoveryKey := FallbackKey(item)) else item
  }

  /** A retry may change an item's key and lease flag; its account stays the same. */
  function Identity(item: Item): (string, nat) { (item.email, item.resourceID) }

  function Bucket(t: Table, k: Key): seq<Item> { if k in t.buckets then t.buckets[k] else [] }

  function AddReady(t: Table, k: Key, now: int): Table {
    if k == "" || Bucket(t, k) == [] then t
    else if k in t.blocked && now < t.blocked[k] then t
    else
      var u := t.(blocked := t.blocked - {k});
      if k in u.active || k in u.readySet then u
      else u.(readySet := u.readySet + {k}, ready := u.ready + [k])
  }

  function Without(keys: seq<Key>, k: Key): seq<Key> {
    if keys == [] then [] else if keys[0] == k then keys[1..] else [keys[0]] + Without(keys[1..], k)
  }

  function RemoveReady(t: Table, k: Key): Table {
    if k !in t.readySet then t else t.(readySet := t.readySet - {k}, ready := Without(t.ready, k))
  }

  function Enqueue(t: Table, item: Item, front: bool, now: int): Table {
    var it := Keyed(item);
    var k := it.recoveryKey;
    var queue := if front then [it] + Bucket(t, k) else Bucket(t, k) + [it];
    AddReady(t.(buckets := t.buckets[k := queue]), k, now)
  }

  function Block(t: Table, k: Key, until: int): Table {
    if k == "" || Bucket(t, k) == [] then t
    else
      RemoveReady(t.(blocked := if k !in t.blocked || until > t.blocked[k] then t.blocked[k := until] else t.blocked),
        k)
  }

  /** The key a retried item is queued under. */
  function RetryItem(c: Completion): Item {
    if Blank(c.item.recoveryKey) then c.item.(recoveryKey := c.activeKey) else c.item
  }

  function Complete(t: Table, c: Completion, nowDefault: int, nowAdd: int): Table {
    var u := t.(active := t.active - {c.activeKey});
    if c.retry then
      var it := RetryItem(c);
      var at := if c.retryAt.None? then nowDefault + RETRY_DELAY else c.retryAt.value;
      Block(Block(Enqueue(u, it, true, nowAdd), c.activeKey, at), it.recoveryKey, at)
    else AddReady(u, c.activeKey, nowAdd)
  }

  function Send(t: Table): Table
    requires t.ready != [] && Bucket(t, t.ready[0]) != []
  {
    var k := t.ready[0];
    var queue := t.buckets[k][1..];
    t.(ready := t.ready[1..],
    readySet := t.readySet - {k},
    buckets := if queue == [] then t.buckets - {k} else t.buckets[k := queue],
    active := t.active + {k})
  }

  function Woken(t: Table, due: set<Key>): set<Key> {
    set k | k in due && Bucket(t, k) != [] && k !in t.active && k !in t.readySet && k != ""
  }

  /** Releasing the blocks in due appends their keys to the ready list, unless they are out with a
      worker; the order of the appended keys is open, because Go ranges over a map. */
  ghost predicate Releases(t: Table, due: set<Key>, u: Table) {
    var woken := Woken(t, due);
    && u.buckets == t.buckets && u.active == t.active
    && u.blocked == t.blocked - due
    && u.readySet == t.readySet + woken
    && |t.ready| <= |u.ready| && u.ready[..|t.ready|] == t.ready
    && NoDup(u.ready[|t.ready|..])
    && (forall k :: k in u.ready[|t.ready|..] <==> k in woken)
  }

  ghost function Due(t: Table, now: int): set<Key> { set k | k in t.blocked && t.blocked[k] <= now }

  ghost predicate Wakes(t: Table, now: int, u: Table) { Releases(t, Due(t, now), u) }

  ghost predicate NoDup(s: seq<Key>) { forall i, j :: 0 <= i < j < |s| ==> s[i] != s[j] }

  // ---------------------------------------------------------------- the invariant

  /** The five structures agree; keys in loose are the only ones with queued items that may be neither
      ready, nor active, nor blocked. */
  ghost predicate ValidBut(t: Table, loose: set<Key>) {
    && (forall k :: k in t.buckets ==> t.buckets[k] != [] && !Blank(k))
    && (forall k, i :: k in t.buckets && 0 <= i < |t.buckets[k]| ==> t.buckets[k][i].recoveryKey == k)
    && NoDup(t.ready)
    && (forall k :: k in t.ready <==> k in t.readySet)
    && t.readySet !! t.active
    && t.readySet !! t.blocked.Keys
    && t.readySet <= t.buckets.Keys
    && t.blocked.Keys <= t.buckets.Keys
    && t.buckets.Keys <= t.readySet + t.active + t.blocked.Keys + loose
  }

  ghost predicate Valid(t: Table) { ValidBut(t, {}) }

  const Empty := Table(map[], {}, {}, [], map[])

  lemma {:induction false} WithoutRemovesOne(s: seq<Key>, k: Key)
    requires NoDup(s)
    ensures NoDup(Without(s, k))
    ensures forall x :: x in Without(s, k) <==> x in s && x != k
  {
    if s != [] {
      assert s[0] !in s[1..];
      WithoutRemovesOne(s[1..], k);
      assert forall x :: x in s <==> x == s[0] || x in s[1..];
    }
  }

  lemma {:induction false} BlankEmpty()
    ensures Blank("")
  {}

  lemma {:induction false} AddReadyKeeps(t: Table, k: Key, now: int, loose: set<Key>)
    requires ValidBut(t, loose)
    ensures ValidBut(AddReady(t, k, now), loose - {k})
  {
    BlankEmpty();
    hide Blank;
    if Bucket(t, k) == [] { assert k !in t.buckets; }
  }

  lemma {:induction false} BlockKeeps(t: Table, k: Key, until: int, loose: set<Key>)
    requires ValidBut(t, loose)
    ensures ValidBut(Block(t, k, until), loose - {k})
  {
    BlankEmpty();
    hide Blank, Without;
    WithoutRemovesOne(t.ready, k);
    if Bucket(t, k) == [] { assert k !in t.buckets; }
  }

  lemma {:induction false} EnqueueKeeps(t: Table, item: Item, front: bool, now: int, loose: set<Key>)
    requires ValidBut(t, loose)
    ensures ValidBut(Enqueue(t, item, front, now), loose)
  {
    hide Blank, Keyed;
    var it := Keyed(item);
    var k := it.recoveryKey;
    var queue := if front then [it] + Bucket(t, k) else Bucket(t, k) + [it];
    var u := t.(buckets := t.buckets[k := queue]);
    assert ValidBut(u, loose + {k});
    AddReadyKeeps(u, k, now, loose + {k});
  }

  lemma {:induction false} DeactivatedKeeps(t: Table, k: Key)
    requires Valid(t)
    ensures ValidBut(t.(active := t.active - {k}), {k})
  {
    hide Blank;
  }

  lemma {:induction false} CompleteKeeps(t: Table, c: Completion, nowDefault: int, nowAdd: int)
    requires Valid(t) && !Blank(c.activeKey)
    ensures Valid(Complete(t, c, nowDefault, nowAdd))
  {
    hide Enqueue, Block, AddReady, ValidBut, Blank;
    var u := t.(active := t.active - {c.activeKey});
    var loose := {c.activeKey};
    assert loose - loose == {} && {} - {RetryItem(c).recoveryKey} == {};
    DeactivatedKeeps(t, c.activeKey);
    if c.retry {
      var it := RetryItem(c);
      var at := if c.retryAt.None? then nowDefault + RETRY_DELAY else c.retryAt.value;
      EnqueueKeeps(u, it, true, nowAdd, loose);
      var v := Enqueue(u, it, true, nowAdd);
      BlockKeeps(v, c.activeKey, at, loose);
      BlockKeeps(Block(v, c.activeKey, at), it.recoveryKey, at, {});
    } else {
      AddReadyKeeps(u, c.activeKey, nowAdd, loose);
    }
  }

  lemma {:induction false} SendKeeps(t: Table)
    requires Valid(t) && t.ready != []
    ensures Bucket(t, t.ready[0]) != []
    ensures Valid(Send(t))
    ensures t.ready[0] !in t.active
  {
    hide Blank;
    var k, rest := t.ready[0], t.ready[1..];
    assert k in t.readySet && k in t.buckets;
    assert t.ready == [k] + rest;
    assert forall i :: 0 <= i < |rest| ==> rest[i] == t.ready[i + 1];
    var u := Send(t);
    assert u.ready == rest && forall x :: x in rest ==> x != k;
  }

  lemma {:induction false} HeadHasKey(t: Table)
    requires Valid(t) && t.ready != []
    ensures Bucket(t, t.ready[0]) != [] && Bucket(t, t.ready[0])[0].recoveryKey == t.ready[0]
  {
    hide Blank;
    assert t.ready[0] in t.readySet && t.ready[0] in t.buckets;
  }

  lemma {:induction false} WakesKeeps(t: Table, now: int, u: Table)
    requires Valid(t) && Wakes(t, now, u)
    ensures Valid(u)
  {
    var tail := u.ready[|t.ready|..];
    assert u.ready == t.ready + tail;
    forall k ensures k in u.ready <==> k in u.readySet {
      assert k in u.ready <==> k in t.ready || k in tail;
    }
    forall i, j | 0 <= i < j < |u.ready| ensures u.ready[i] != u.ready[j] {
      if i < |t.ready| <= j {
        assert u.ready[j] == tail[j - |t.ready|];
        assert u.ready[i] == t.ready[i] && t.ready[i] in t.ready;
        assert tail[j - |t.ready|] in tail;
      } else if |t.ready| <= i {
        assert u.ready[i] == tail[i - |t.ready|] && u.ready[j] == tail[j - |t.ready|];
      } else {
        assert u.ready[i] == t.ready[i] && u.ready[j] == t.ready[j];
      }
    }
  }

  /** What the release does to each key, busy workers or not: a block that has run out is gone, and its key is ready
      or still with a worker; a block that has not is left alone. */
  lemma {:induction false} WakesAreDue(t: Table, now: int, u: Table)
    requires Valid(t) && Wakes(t, now, u)
    ensures forall k :: k in t.blocked && t.blocked[k] <= now ==> k !in u.blocked && (k in u.readySet || k in u.active)
    ensures forall k :: k in t.blocked && now < t.blocked[k] ==> k in u.blocked
    ensures forall k :: k in u.blocked ==> k in t.blocked && u.blocked[k] == t.blocked[k] && now < u.blocked[k]
    ensures u.active == t.active && u.buckets == t.buckets
  {
    BlankEmpty();
    hide Blank;
    forall k | k in t.blocked && t.blocked[k] <= now ensures k in u.readySet || k in u.active {
      assert k in t.buckets;
    }
  }
}
