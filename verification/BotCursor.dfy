/** The (time, id) cursor shared by all Bot event topics: row ids of several tables are packed with
    their topic under a version bit, and each table derives its own lower bound back from it. */
module BotCursor {
  import opened Options

  const MARKER: int := 0x8000_0000_0000_0000  // 1 << 63
  const STRIDE: int := 8

  type U64 = n: int | 0 <= n < 0x1_0000_0000_0000_0000

  datatype Topic =
    | ProjectLaunched
    | LeaderboardSettled
    | NoticeUpdated
    | AnnouncementUpdated
    | DiscountUpdated
    | PriceUpdated

  function Ordinal(topic: Topic): (o: int)
    ensures 1 <= o <= 6
  {
    match topic
    case ProjectLaunched => 1
    case LeaderboardSettled => 2
    case NoticeUpdated => 3
    case AnnouncementUpdated => 4
    case DiscountUpdated => 5
    case PriceUpdated => 6
  }

  predicate Marked(id: U64) { id >= MARKER }

  // On 64-bit words, testing, clearing and setting the marker bit are a comparison, a subtraction and an addition.
  lemma MarkerTested(v: bv64)
    ensures (v & 0x8000_0000_0000_0000) == 0 <==> v < 0x8000_0000_0000_0000
  {}

  lemma MarkerCleared(v: bv64)
    ensures v >= 0x8000_0000_0000_0000 ==> v & !(0x8000_0000_0000_0000 as bv64) == v - 0x8000_0000_0000_0000
  {}

  lemma MarkerSet(v: bv64)
    ensures v < 0x8000_0000_0000_0000 ==> 0x8000_0000_0000_0000 | v == 0x8000_0000_0000_0000 + v
  {}

  predicate Encodable(topic: Topic, row: U64) {
    0 < row <= (MARKER - 1 - Ordinal(topic)) / STRIDE
  }

  function Encode(topic: Topic, row: U64): Option<U64> {
    if !Encodable(topic, row) then None else Some(MARKER + (row * STRIDE + Ordinal(topic)))
  }

  function SourceAfterID(global: U64, topic: Topic): U64 {
    if global == 0 then 0
    else if !Marked(global) then (if topic == ProjectLaunched then global else 0)
    else
      var payload := global - MARKER;
      if payload < Ordinal(topic) then 0 else (payload - Ordinal(topic)) / STRIDE
  }

  predicate LooksEncoded(id: U64) {
    Marked(id) && (id - MARKER) / STRIDE > 0 && 1 <= (id - MARKER) % STRIDE <= 6
  }

  datatype Cursor = Cursor(after: int, id: U64)

  /** What a subscription starts from: no id, or an id that names a row of some topic. */
  predicate ValidCursor(c: Cursor) { c.id == 0 || LooksEncoded(c.id) }

  predicate Before(left: Cursor, right: Cursor) {
    if left.after != right.after then left.after < right.after else left.id < right.id
  }

  /** The packed id is past the cursor exactly when the row id is past the bound derived from it. */
  predicate BoundAgrees(global: U64, topic: Topic, row: U64)
    requires Encodable(topic, row)
  {
    Encode(topic, row).value > global <==> row > SourceAfterID(global, topic)
  }

  lemma BoundAgreesHere(global: U64, topic: Topic, row: U64)
    requires Encodable(topic, row)
    requires global == 0 || Marked(global) || topic != ProjectLaunched
    ensures BoundAgrees(global, topic, row)
  {}

  /** The derived bound is right for every row of a topic except under an unversioned (legacy) id, and
      then it is wrong only for the project topic, whose bound is the legacy row id itself. */
  lemma BoundAgreesIff(global: U64, topic: Topic)
    ensures (forall row: U64 | Encodable(topic, row) :: BoundAgrees(global, topic, row))
       <==> (global == 0 || Marked(global) || topic != ProjectLaunched)
  {
    if !(global == 0 || Marked(global) || topic != ProjectLaunched) {
      assert Encodable(topic, 1) && !BoundAgrees(global, topic, 1);
    } else {
      forall row: U64 | Encodable(topic, row) ensures BoundAgrees(global, topic, row) {
        BoundAgreesHere(global, topic, row);
      }
    }
  }

  /** Project row 1 is skipped under the unversioned id 7, though its event id is greater. */
  lemma LegacyBoundIsWrong()
    ensures Encodable(ProjectLaunched, 1) && !BoundAgrees(7, ProjectLaunched, 1)
  {}

  /** Packing loses nothing: the topic and the row come back out of the id. */
  lemma EncodeRoundTrip(topic: Topic, row: U64)
    requires Encodable(topic, row)
    ensures var id := Encode(topic, row).value;
            && LooksEncoded(id)
            && (id - MARKER) % STRIDE == Ordinal(topic)
            && SourceAfterID(id, topic) == row
  {}

  /** The bounds of two topics differ by at most one row. */
  lemma BoundsAreClose(global: U64, s: Topic, t: Topic)
    requires global == 0 || LooksEncoded(global)
    ensures SourceAfterID(global, s) <= SourceAfterID(global, t) + 1
  {}

  // ---------------------------------------------------------------- events and pages

  /** What a client receives, without the payload. */
  datatype Event = Event(topic: Topic, cursor: Cursor)

  predicate Genuine(e: Event) {
    LooksEncoded(e.cursor.id) && (e.cursor.id - MARKER) % STRIDE == Ordinal(e.topic)
  }

  lemma SameCursorSameEvent(e: Event, f: Event)
    requires Genuine(e) && Genuine(f) && e.cursor == f.cursor
    ensures e == f
  {}

  ghost predicate Ascending(s: seq<Event>) { forall i, j :: 0 <= i < j < |s| ==> Before(s[i].cursor, s[j].cursor) }

  /** page is the beginning of the log, cut at limit: the specification of one poll. */
  ghost predicate IsPage(page: seq<Event>, log: set<Event>, limit: nat) {
    && Ascending(page)
    && |page| <= limit
    && (forall e :: e in page ==> e in log)
    && (forall e :: e in log && e !in page ==> |page| == limit && forall x :: x in page ==> Before(x.cursor, e.cursor))
  }

  lemma {:induction false} AtOrAfter(s: seq<Event>, n: nat, e: Event)
    requires Ascending(s) && n < |s| && e in s && e !in s[..n]
    ensures s[n] == e || Before(s[n].cursor, e.cursor)
  {
    var i :| 0 <= i < |s| && s[i] == e;
    assert i >= n by { assert forall j :: 0 <= j < n ==> s[j] in s[..n]; }
  }

  lemma {:induction false} NotInPrefix(s: seq<Event>, n: nat)
    requires Ascending(s) && n < |s|
    ensures s[n] !in s[..n]
  {}

  lemma {:induction false} SharedPrefix(page: seq<Event>, log: set<Event>, limit: nat, sorted: seq<Event>, n: nat)
    requires IsPage(page, log, limit)
    requires Ascending(sorted) && (forall e :: e in sorted <==> e in log)
    requires n <= |page| && n <= |sorted|
    ensures page[..n] == sorted[..n]
  {
    if n > 0 {
      var m := n - 1;
      SharedPrefix(page, log, limit, sorted, m);
      NotInPrefix(page, m);
      NotInPrefix(sorted, m);
      AtOrAfter(sorted, m, page[m]);
      assert sorted[m] in log;
      if sorted[m] in page { AtOrAfter(page, m, sorted[m]); }
      assert page[..n] == page[..m] + [page[m]] && sorted[..n] == sorted[..m] + [sorted[m]];
    }
  }

  /** A page is exactly the first limit events of the sorted log. */
  lemma {:induction false} PageIsPrefix(page: seq<Event>, log: set<Event>, limit: nat, sorted: seq<Event>)
    requires IsPage(page, log, limit)
    requires Ascending(sorted) && (forall e :: e in sorted <==> e in log)
    ensures page == sorted[..if |sorted| < limit then |sorted| else limit]
  {
    var n := if |page| < |sorted| then |page| else |sorted|;
    SharedPrefix(page, log, limit, sorted, n);
    if |page| < |sorted| {
      NotInPrefix(sorted, n);
      assert page == page[..n] && sorted[n] in log;
      assert |page| == limit;
    } else {
      assert sorted == sorted[..n];
      OnlyThese(page, n);
      assert page == page[..n];
    }
  }

  lemma {:induction false} OnlyThese(s: seq<Event>, n: nat)
    requires Ascending(s) && n <= |s| && forall e :: e in s ==> e in s[..n]
    ensures n == |s|
  {
    if n < |s| { NotInPrefix(s, n); }
  }

  /** The ids on the wire: the highest bit, eight times the row, and the number of the topic. */
  lemma {:induction false} EncodedIs(topic: Topic, row: U64)
    requires 0 < row && row <= 0x0FFF_FFFF_FFFF_FFFE
    ensures Encode(topic, row) == Some(0x8000_0000_0000_0000 + row * 8 + match topic
              case ProjectLaunched => 1
              case LeaderboardSettled => 2
              case NoticeUpdated => 3
              case AnnouncementUpdated => 4
              case DiscountUpdated => 5
              case PriceUpdated => 6)
  {}

  /** Rows beyond what fits below the highest bit cannot be packed, nor can row 0. */
  lemma {:induction false} EncodableIff(topic: Topic, row: U64)
    ensures Encode(topic, row).Some? <==> Encodable(topic, row)
    ensures Encodable(topic, row) <==> row > 0 && row * 8 + Ordinal(topic) < 0x8000_0000_0000_0000
  {}

  function TopicAt(n: int): Topic
    requires 1 <= n <= 6
  {
    if n == 1 then ProjectLaunched else if n == 2 then LeaderboardSettled else if n == 3 then NoticeUpdated
    else if n == 4 then AnnouncementUpdated else if n == 5 then DiscountUpdated else PriceUpdated
  }

  /** An id is accepted as packed exactly when it is the packed id of some row of some topic. */
  lemma {:induction false} LooksEncodedIff(id: U64)
    ensures LooksEncoded(id) <==> exists topic, row: U64 :: Encode(topic, row) == Some(id)
  {
    if LooksEncoded(id) {
      var payload := id - 0x8000_0000_0000_0000;
      var topic, row := TopicAt(payload % 8), payload / 8;
      assert payload == row * 8 + payload % 8 && Ordinal(topic) == payload % 8;
      assert Encode(topic, row) == Some(id);
    } else if exists topic, row: U64 :: Encode(topic, row) == Some(id) {
      var topic, row: U64 :| Encode(topic, row) == Some(id);
      EncodeRoundTrip(topic, row);
    }
  }

  /** Cursors are ordered by time, and by id at the same time. */
  lemma {:induction false} BeforeIff(a: Cursor, b: Cursor)
    ensures Before(a, b) <==> a.after < b.after || (a.after == b.after && a.id < b.id)
  {}
}
