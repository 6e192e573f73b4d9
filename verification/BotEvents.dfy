/** The durable event source behind the Bot subscription: five tables, six topics, one cursor. Every
    listing is proved to be the next page of the one global log. */
module BotEvents {
  import opened Options
  import opened BotCursor
  import opened BotPages

  datatype Result<T> = Ok(value: T) | Overflow

  /** A row that announces one event of its topic. */
  datatype Row = Row(id: U64, at: int, topic: Topic)

  /** A snapshot of the rows that can become events, each table in ORDER BY (time, id) order. prices and
      bulk are read by different queries from the same table. */
  datatype Database = Database(
    launches: seq<Row>, settlements: seq<Row>, settings: seq<Row>, prices: seq<Row>, bulk: seq<Row>)

  ghost predicate InTableOrder(rows: seq<Row>) {
    forall i, j :: 0 <= i < j < |rows| ==> RowBefore(rows[i], rows[j])
  }

  predicate RowBefore(r: Row, s: Row) { r.at < s.at || (r.at == s.at && r.id < s.id) }

  ghost predicate WellFormed(db: Database) {
    && InTableOrder(db.launches) && (forall r :: r in db.launches ==> r.topic == ProjectLaunched)
    && InTableOrder(db.settlements) && (forall r :: r in db.settlements ==> r.topic == LeaderboardSettled)
    && InTableOrder(db.settings)
    && (forall r :: r in db.settings ==> r.topic in {NoticeUpdated, AnnouncementUpdated, DiscountUpdated})
    && InTableOrder(db.prices) && (forall r :: r in db.prices ==> r.topic == PriceUpdated)
    && InTableOrder(db.bulk) && (forall r :: r in db.bulk ==> r.topic == PriceUpdated)
    && (forall p, b :: p in db.prices && b in db.bulk ==> p.id != b.id)
  }

  predicate EncodableRow(r: Row) { Encodable(r.topic, r.id) }

  function EventOf(r: Row): Event {
    Event(r.topic, Cursor(r.at, if EncodableRow(r) then Encode(r.topic, r.id).value else 0))
  }

  ghost predicate IsNew(r: Row, topics: set<Topic>, cursor: Cursor, cutoff: int) {
    r.topic in topics && EncodableRow(r) && r.at <= cutoff && Before(cursor, EventOf(r).cursor)
  }

  /** The events of a table that a subscriber at the cursor has still to receive. */
  ghost function TableLog(rows: seq<Row>, topics: set<Topic>, cursor: Cursor, cutoff: int): set<Event> {
    set r | r in rows && IsNew(r, topics, cursor, cutoff) :: EventOf(r)
  }

  /** The global log after the cursor, over all tables. */
  ghost function LogAfter(db: Database, topics: set<Topic>, cursor: Cursor, cutoff: int): set<Event> {
    TableLog(db.launches, topics, cursor, cutoff) + TableLog(db.settlements, topics, cursor, cutoff)
    + TableLog(db.settings, topics, cursor, cutoff)
    + (TableLog(db.prices, topics, cursor, cutoff) + TableLog(db.bulk, topics, cursor, cutoff))
  }

  /** What the log after a cursor consists of: the events of those rows of the asked topics that are old enough, can
      be packed, and come after the cursor by time, or at its time by packed id. */
  lemma {:induction false} LogIs(db: Database, topics: set<Topic>, cursor: Cursor, cutoff: int, e: Event)
    ensures e in LogAfter(db, topics, cursor, cutoff) <==>
            exists r :: (r in db.launches || r in db.settlements || r in db.settings || r in db.prices || r in db.bulk)
              && r.topic in topics && r.at <= cutoff && Encode(r.topic, r.id) == Some(e.cursor.id)
              && e.topic == r.topic && e.cursor.after == r.at
              && (r.at > cursor.after || (r.at == cursor.after && e.cursor.id > cursor.id))
  {
    hide Encodable;
  }

  ghost predicate AllEncodable(db: Database) {
    forall r :: r in db.launches + db.settlements + db.settings + db.prices + db.bulk ==> EncodableRow(r)
  }

  // ---------------------------------------------------------------- the SQL queries

  predicate Matches(r: Row, topics: set<Topic>, after: int, afterID: U64, cutoff: int) {
    r.topic in topics && r.at <= cutoff && (r.at > after || (r.at == after && r.id > afterID))
  }

  function Filter(rows: seq<Row>, topics: set<Topic>, after: int, afterID: U64, cutoff: int): (kept: seq<Row>)
    ensures forall r :: r in kept <==> r in rows && Matches(r, topics, after, afterID, cutoff)
  {
    if rows == [] then []
    else
      (if Matches(rows[0], topics, after, afterID, cutoff) then [rows[0]] else [])
      + Filter(rows[1..], topics, after, afterID, cutoff)
  }

  function Query(rows: seq<Row>, topics: set<Topic>, after: int, afterID: U64, cutoff: int, limit: nat): seq<Row> {
    var kept := Filter(rows, topics, after, afterID, cutoff);
    if |kept| > limit then kept[..limit] else kept
  }

  lemma {:induction false} FilterKeepsOrder(rows: seq<Row>, topics: set<Topic>, after: int, afterID: U64, cutoff: int)
    requires InTableOrder(rows)
    ensures InTableOrder(Filter(rows, topics, after, afterID, cutoff))
  {
    if rows != [] {
      FilterKeepsOrder(rows[1..], topics, after, afterID, cutoff);
      var rest := Filter(rows[1..], topics, after, afterID, cutoff);
      assert forall i :: 0 <= i < |rest| ==> rest[i] in rest && rest[i] in rows[1..];
    }
  }

  function Events(rows: seq<Row>): (events: seq<Event>)
    ensures |events| == |rows|
  {
    seq(|rows|, i requires 0 <= i < |rows| => EventOf(rows[i]))
  }

  // ---------------------------------------------------------------- one table

  lemma {:induction false} RowsAreGenuine(r: Row)
    requires EncodableRow(r)
    ensures Genuine(EventOf(r))
  {
    EncodeRoundTrip(r.topic, r.id);
  }

  lemma {:induction false} RowOrderIsCursorOrder(r: Row, s: Row)
    requires EncodableRow(r) && EncodableRow(s) && RowBefore(r, s)
    ensures Before(EventOf(r).cursor, EventOf(s).cursor)
  {}

  /** Enough leading rows of an ordered selection make a sufficient listing of its events. */
  lemma {:induction false} LeadingRowsSuffice(kept: seq<Row>, n: nat, limit: nat, log: set<Event>)
    requires InTableOrder(kept) && n <= |kept| && (n == |kept| || limit <= n)
    requires forall i :: 0 <= i < n ==> EncodableRow(kept[i])
    requires forall e :: e in log <==> exists r :: r in kept && EncodableRow(r) && e == EventOf(r)
    ensures Sufficient(Events(kept[..n]), log, limit)
  {
    var events := Events(kept[..n]);
    forall i, j | 0 <= i < j < n ensures Before(events[i].cursor, events[j].cursor) {
      RowOrderIsCursorOrder(kept[i], kept[j]);
    }
    forall e | e in events ensures e in log {
      var i :| 0 <= i < n && events[i] == e;
      assert kept[i] in kept && e == EventOf(kept[i]);
    }
    forall e | e in log && e !in events ensures |Earlier(events, e)| >= limit {
      var r :| r in kept && EncodableRow(r) && e == EventOf(r);
      var k :| 0 <= k < |kept| && kept[k] == r;
      assert k >= n by { assert forall j :: 0 <= j < n ==> events[j] == EventOf(kept[j]) && events[j] in events; }
      forall i | 0 <= i < n ensures Before(events[i].cursor, e.cursor) { RowOrderIsCursorOrder(kept[i], r); }
      assert Earlier(events, e) == set x | x in events;
      SizeOfDistinct(events);
    }
  }

  /** With the bound derived for its topic, a query selects exactly the rows that are new. */
  lemma {:induction false} QuerySelectsNew(rows: seq<Row>, topic: Topic, cursor: Cursor, cutoff: int)
    requires ValidCursor(cursor)
    ensures var kept := Filter(rows, {topic}, cursor.after, SourceAfterID(cursor.id, topic), cutoff);
            forall e :: e in TableLog(rows, {topic}, cursor, cutoff) <==>
              exists r :: r in kept && EncodableRow(r) && e == EventOf(r)
  {
    forall r | EncodableRow(r) && r.topic == topic
      ensures Matches(r, {topic}, cursor.after, SourceAfterID(cursor.id, topic), cutoff) <==>
              IsNew(r, {topic}, cursor, cutoff)
    {
      BoundAgreesHere(cursor.id, topic, r.id);
    }
  }

  /** listProjectLaunches, listLeaderboardSettlements and each half of listProjectPriceUpdates. */
  method ListTable(rows: seq<Row>, topic: Topic, cursor: Cursor, cutoff: int, limit: nat)
    returns (result: Result<seq<Event>>)
    requires InTableOrder(rows) && ValidCursor(cursor)
    ensures result.Ok? ==> Sufficient(result.value, TableLog(rows, {topic}, cursor, cutoff), limit)
    ensures result.Overflow? ==> exists r :: r in rows && !EncodableRow(r)
  {
    var afterID := SourceAfterID(cursor.id, topic);
    var fetched := Query(rows, {topic}, cursor.after, afterID, cutoff, limit);
    ghost var kept := Filter(rows, {topic}, cursor.after, afterID, cutoff);
    var events := [];
    for i := 0 to |fetched|
      invariant events == Events(fetched[..i])
      invariant forall j :: 0 <= j < i ==> EncodableRow(fetched[j])
    {
      var encoded := Encode(fetched[i].topic, fetched[i].id);
      if encoded.None? {
        assert fetched[i] == kept[i] && kept[i] in kept;
        return Overflow;
      }
      events := events + [Event(fetched[i].topic, Cursor(fetched[i].at, encoded.value))];
    }
    FilterKeepsOrder(rows, {topic}, cursor.after, afterID, cutoff);
    QuerySelectsNew(rows, topic, cursor, cutoff);
    assert fetched == kept[..|fetched|];
    LeadingRowsSuffice(kept, |fetched|, limit, TableLog(rows, {topic}, cursor, cutoff));
    assert fetched[..|fetched|] == fetched;
    result := Ok(events);
  }

  lemma {:induction false} TableLogIsGenuine(rows: seq<Row>, topics: set<Topic>, cursor: Cursor, cutoff: int)
    ensures forall e :: e in TableLog(rows, topics, cursor, cutoff) ==> Genuine(e) && e.topic in topics
  {
    forall e | e in TableLog(rows, topics, cursor, cutoff) ensures Genuine(e) && e.topic in topics {
      var r :| r in rows && IsNew(r, topics, cursor, cutoff) && e == EventOf(r);
      RowsAreGenuine(r);
    }
  }

  // ---------------------------------------------------------------- the settings table

  /** The shared query uses the smallest bound of the selected topics. It can only bring back one row too
      many: the first one, at the cursor's own instant. */
  lemma {:induction false} SharedBoundLosesOneRow(rows: seq<Row>, topics: set<Topic>, cursor: Cursor, cutoff: int,
                                                  least: U64, kept: seq<Row>)
    requires InTableOrder(rows) && ValidCursor(cursor)
    requires forall t :: t in topics ==> least <= SourceAfterID(cursor.id, t) <= least + 1
    requires kept == Filter(rows, topics, cursor.after, least, cutoff)
    ensures forall i :: 0 < i < |kept| && EncodableRow(kept[i]) ==> Before(cursor, EventOf(kept[i]).cursor)
    ensures (forall t :: t in topics ==> SourceAfterID(cursor.id, t) == least) ==>
            forall r :: r in kept && EncodableRow(r) ==> Before(cursor, EventOf(r).cursor)
  {
    FilterKeepsOrder(rows, topics, cursor.after, least, cutoff);
    forall i | 0 <= i < |kept| && EncodableRow(kept[i]) &&
      (i > 0 || forall t :: t in topics ==> SourceAfterID(cursor.id, t) == least)
      ensures Before(cursor, EventOf(kept[i]).cursor)
    {
      var r := kept[i];
      assert r in kept;
      BoundAgreesHere(cursor.id, r.topic, r.id);
      if i > 0 {
        assert kept[0] in kept && RowBefore(kept[0], kept[i]);
      }
    }
  }

  lemma {:induction false} SettingsLog(rows: seq<Row>, topics: set<Topic>, cursor: Cursor, cutoff: int, least: U64,
                                       kept: seq<Row>)
    requires ValidCursor(cursor)
    requires forall t :: t in topics ==> least <= SourceAfterID(cursor.id, t)
    requires kept == Filter(rows, topics, cursor.after, least, cutoff)
    ensures forall e :: e in TableLog(rows, topics, cursor, cutoff) <==>
              exists r :: r in kept && EncodableRow(r) && Before(cursor, EventOf(r).cursor) && e == EventOf(r)
  {
    forall r | EncodableRow(r) && r.topic in topics && IsNew(r, topics, cursor, cutoff)
      ensures Matches(r, topics, cursor.after, least, cutoff)
    {
      BoundAgreesHere(cursor.id, r.topic, r.id);
    }
  }

  /** Of an ordered selection whose only stale row can be its first, enough leading rows without that one
      make a sufficient listing. */
  lemma {:induction false} FirstRowMayBeStale(kept: seq<Row>, n: nat, limit: nat, cursor: Cursor, log: set<Event>)
    requires InTableOrder(kept) && n <= |kept| && (forall i :: 0 <= i < n ==> EncodableRow(kept[i]))
    requires forall i :: 0 < i < |kept| && EncodableRow(kept[i]) ==> Before(cursor, EventOf(kept[i]).cursor)
    requires forall e :: e in log <==>
               exists r :: r in kept && EncodableRow(r) && Before(cursor, EventOf(r).cursor) && e == EventOf(r)
    requires n == |kept| || limit < n || (limit <= n && (n > 0 ==> Before(cursor, EventOf(kept[0]).cursor)))
    requires n == 0 ==> kept == []
    ensures Sufficient(Events(kept[..n][Stale(kept[..n], cursor)..]), log, limit)
  {
    hide Encode, Encodable, Before, Sufficient;
    var skip := Stale(kept[..n], cursor);
    var rest := kept[skip..];
    forall r | r in kept && EncodableRow(r) && Before(cursor, EventOf(r).cursor) ensures r in rest {
      var i :| 0 <= i < |kept| && kept[i] == r;
      assert rest[i - skip] == r;
    }
    forall i | 0 <= i < |rest| && EncodableRow(rest[i]) ensures Before(cursor, EventOf(rest[i]).cursor) {
      assert rest[i] == kept[i + skip];
    }
    LeadingRowsSuffice(rest, n - skip, limit, log);
    assert rest[..n - skip] == kept[..n][skip..];
  }

  /** 1 if the first row is at or before the cursor, else 0. */
  function Stale(rows: seq<Row>, cursor: Cursor): nat {
    if rows != [] && !Before(cursor, EventOf(rows[0]).cursor) then 1 else 0
  }

  const SETTINGS_TOPICS := [NoticeUpdated, AnnouncementUpdated, DiscountUpdated]

  method WantedTopics(selected: set<Topic>) returns (topics: seq<Topic>)
    ensures forall t :: t in topics <==> t in SETTINGS_TOPICS && t in selected
    ensures |topics| == 1 ==> forall t :: t in topics ==> t == topics[0]
  {
    topics := [];
    for i := 0 to 3
      invariant forall t :: t in topics <==> t in SETTINGS_TOPICS[..i] && t in selected
    {
      if SETTINGS_TOPICS[i] in selected { topics := topics + [SETTINGS_TOPICS[i]]; }
    }
    assert SETTINGS_TOPICS[..3] == SETTINGS_TOPICS;
  }

  method LeastBound(topics: seq<Topic>, global: U64) returns (least: U64)
    requires topics != [] && (global == 0 || LooksEncoded(global))
    ensures forall t :: t in topics ==> least <= SourceAfterID(global, t) <= least + 1
    ensures |topics| == 1 ==> least == SourceAfterID(global, topics[0])
  {
    least := 0xFFFF_FFFF_FFFF_FFFF;
    ghost var at := 0;
    for i := 0 to |topics|
      invariant forall j :: 0 <= j < i ==> least <= SourceAfterID(global, topics[j])
      invariant i > 0 ==> at < i && least == SourceAfterID(global, topics[at])
      invariant i == 0 ==> least == 0xFFFF_FFFF_FFFF_FFFF
    {
      var afterID := SourceAfterID(global, topics[i]);
      if afterID <= least {
        least, at := afterID, i;
      }
    }
    forall t | t in topics ensures least <= SourceAfterID(global, t) <= least + 1 {
      BoundsAreClose(global, t, topics[at]);
    }
  }

  /** Turning fetched rows into events: encode, and skip what the subscriber already has. */
  method Project(fetched: seq<Row>, cursor: Cursor) returns (result: Result<seq<Event>>)
    requires forall i :: 0 < i < |fetched| && EncodableRow(fetched[i]) ==> Before(cursor, EventOf(fetched[i]).cursor)
    ensures result.Ok? ==>
            (forall r :: r in fetched ==> EncodableRow(r)) && result.value == Events(fetched[Stale(fetched, cursor)..])
    ensures result.Overflow? ==> exists r :: r in fetched && !EncodableRow(r)
  {
    hide Encodable, Before;
    var events := [];
    ghost var skip := Stale(fetched, cursor);
    for i := 0 to |fetched|
      invariant forall j :: 0 <= j < i ==> EncodableRow(fetched[j])
      invariant events == if i < skip then [] else Events(fetched[skip..i])
    {
      var encoded := Encode(fetched[i].topic, fetched[i].id);
      if encoded.None? {
        return Overflow;
      }
      var event := Event(fetched[i].topic, Cursor(fetched[i].at, encoded.value));
      if !Before(cursor, event.cursor) {
        continue;
      }
      events := events + [event];
      assert fetched[skip..i + 1] == fetched[skip..i] + [fetched[i]];
    }
    assert fetched[skip..|fetched|] == fetched[skip..];
    result := Ok(events);
  }

  /** listSystemSettingEvents: one query for up to three topics, fetching limit rows for each. */
  method ListSettings(rows: seq<Row>, selected: set<Topic>, cursor: Cursor, cutoff: int, limit: nat)
    returns (result: Result<seq<Event>>)
    requires InTableOrder(rows) && ValidCursor(cursor) && limit > 0
    requires forall r :: r in rows ==> r.topic in SETTINGS_TOPICS
    requires exists t :: t in SETTINGS_TOPICS && t in selected
    ensures result.Ok? ==> Sufficient(result.value, TableLog(rows, selected, cursor, cutoff), limit)
    ensures result.Overflow? ==> exists r :: r in rows && !EncodableRow(r)
  {
    hide Encodable, Before, SourceAfterID, Encode, Sufficient;
    var topics := WantedTopics(selected);
    ghost var some :| some in SETTINGS_TOPICS && some in selected;
    assert some in topics;
    var minAfterID := LeastBound(topics, cursor.id);
    var wanted := set t | t in topics;
    var fetched := Query(rows, wanted, cursor.after, minAfterID, cutoff, limit * |topics|);
    ghost var kept := Filter(rows, wanted, cursor.after, minAfterID, cutoff);
    ghost var n := |fetched|;
    assert fetched == kept[..n];
    FilterKeepsOrder(rows, wanted, cursor.after, minAfterID, cutoff);
    SharedBoundLosesOneRow(rows, wanted, cursor, cutoff, minAfterID, kept);
    SettingsLog(rows, wanted, cursor, cutoff, minAfterID, kept);
    result := Project(fetched, cursor);
    if result.Ok? {
      SettingsSuffice(kept, n, |topics|, limit, cursor, TableLog(rows, wanted, cursor, cutoff));
      assert TableLog(rows, wanted, cursor, cutoff) == TableLog(rows, selected, cursor, cutoff);
    }
  }

  lemma {:induction false} SettingsSuffice(kept: seq<Row>, n: nat, topics: nat, limit: nat, cursor: Cursor,
                                           log: set<Event>)
    requires InTableOrder(kept) && limit > 0 && topics > 0
    requires n <= |kept| && (n == |kept| || n == limit * topics)
    requires forall r :: r in kept[..n] ==> EncodableRow(r)
    requires forall i :: 0 < i < |kept| && EncodableRow(kept[i]) ==> Before(cursor, EventOf(kept[i]).cursor)
    requires topics == 1 ==> forall r :: r in kept && EncodableRow(r) ==> Before(cursor, EventOf(r).cursor)
    requires forall e :: e in log <==>
               exists r :: r in kept && EncodableRow(r) && Before(cursor, EventOf(r).cursor) && e == EventOf(r)
    ensures Sufficient(Events(kept[..n][Stale(kept[..n], cursor)..]), log, limit)
  {
    hide Encodable, Before, Sufficient;
    forall i | 0 <= i < n ensures EncodableRow(kept[i]) { assert kept[..n][i] in kept[..n]; }
    assert limit * topics >= limit && (topics > 1 ==> limit * topics > limit);
    if topics == 1 && n > 0 { assert kept[0] in kept; }
    FirstRowMayBeStale(kept, n, limit, cursor, log);
  }

  // ---------------------------------------------------------------- all tables

  ghost predicate AllRowsEncodable(rows: seq<Row>) { forall r :: r in rows ==> EncodableRow(r) }

  /** listProjectPriceUpdates: single and bulk updates, merged, sorted and cut. */
  method ListPrices(prices: seq<Row>, bulk: seq<Row>, cursor: Cursor, cutoff: int, limit: nat)
    returns (result: Result<seq<Event>>)
    requires InTableOrder(prices) && InTableOrder(bulk) && ValidCursor(cursor)
    requires forall p, b :: p in prices && b in bulk ==> p.id != b.id
    ensures result.Ok? ==>
      Sufficient(result.value,
        TableLog(prices, {PriceUpdated}, cursor, cutoff) + TableLog(bulk, {PriceUpdated}, cursor, cutoff), limit)
    ensures result.Overflow? ==> !AllRowsEncodable(prices) || !AllRowsEncodable(bulk)
  {
    hide IsPage, Sufficient;
    var updates := ListTable(prices, PriceUpdated, cursor, cutoff, limit);
    var bulkUpdates := ListTable(bulk, PriceUpdated, cursor, cutoff, limit);
    if updates.Overflow? { return updates; }
    if bulkUpdates.Overflow? { return bulkUpdates; }
    ghost var logA, logB :=
      TableLog(prices, {PriceUpdated}, cursor, cutoff), TableLog(bulk, {PriceUpdated}, cursor, cutoff);
    DistinctRowsDistinctEvents(prices, bulk, cursor, cutoff);
    SufficientTogether(updates.value, bulkUpdates.value, logA, logB, limit);
    TableLogIsGenuine(prices, {PriceUpdated}, cursor, cutoff);
    TableLogIsGenuine(bulk, {PriceUpdated}, cursor, cutoff);
    var events := updates.value + bulkUpdates.value;
    CutIsPage(events, logA + logB, limit);
    events := Truncate(Sort(events), limit);
    PageIsSufficient(events, logA + logB, limit);
    result := Ok(events);
  }

  lemma {:induction false} DistinctRowsDistinctEvents(prices: seq<Row>, bulk: seq<Row>, cursor: Cursor, cutoff: int)
    requires forall p, b :: p in prices && b in bulk ==> p.id != b.id
    ensures TableLog(prices, {PriceUpdated}, cursor, cutoff) !! TableLog(bulk, {PriceUpdated}, cursor, cutoff)
  {
    forall p, b | p in prices && b in bulk && EncodableRow(p) && EncodableRow(b) && p.topic == b.topic
      ensures EventOf(p) != EventOf(b)
    {
      EncodeRoundTrip(p.topic, p.id);
      EncodeRoundTrip(b.topic, b.id);
    }
  }

  function TopicSet(topics: seq<Topic>): set<Topic> { set t | t in topics }

  function EffectiveLimit(limit: int): (n: nat)
    ensures 1 <= n <= 100
    ensures 1 <= limit <= 100 ==> n == limit
    ensures !(1 <= limit <= 100) ==> n == 100
  {
    if limit <= 0 || limit > 100 then 100 else limit
  }

  /** A table contributes only through its own topics. */
  lemma {:induction false} OwnTopics(rows: seq<Row>, own: set<Topic>, topics: set<Topic>, cursor: Cursor, cutoff: int)
    requires forall r :: r in rows ==> r.topic in own
    ensures own !! topics ==> TableLog(rows, topics, cursor, cutoff) == {}
    ensures own <= topics ==> TableLog(rows, topics, cursor, cutoff) == TableLog(rows, own, cursor, cutoff)
    ensures forall e :: e in TableLog(rows, topics, cursor, cutoff) ==> e.topic in own && Genuine(e)
  {
    hide Before, Encodable, Genuine, Encode;
    TableLogIsGenuine(rows, topics, cursor, cutoff);
    TableLogIsGenuine(rows, own, cursor, cutoff);
  }

  /** What List has gathered after asking the tables of the topics in done. */
  ghost predicate Gathered(events: seq<Event>, log: set<Event>, done: set<Topic>, limit: nat) {
    Sufficient(events, log, limit) && forall e :: e in log ==> Genuine(e) && e.topic in done
  }

  lemma {:induction false} GatherMore(events: seq<Event>, log: set<Event>, done: set<Topic>, limit: nat,
                     more: seq<Event>, moreLog: set<Event>, own: set<Topic>)
    requires Gathered(events, log, done, limit) && Gathered(more, moreLog, own, limit) && done !! own
    ensures Gathered(events + more, log + moreLog, done + own, limit)
  {
    hide Sufficient, Genuine;
    SufficientTogether(events, more, log, moreLog, limit);
  }

  /** One poll of the event source returns the next page of the global log over the selected topics, and
      fails only when some row id cannot be packed. */
  method List(db: Database, topics: seq<Topic>, cursor: Cursor, cutoff: int, limit: int)
    returns (result: Result<seq<Event>>)
    requires WellFormed(db) && ValidCursor(cursor)
    ensures result.Ok? ==> IsPage(result.value, LogAfter(db, TopicSet(topics), cursor, cutoff), EffectiveLimit(limit))
    ensures result.Overflow? ==> !AllEncodable(db)
  {
    hide IsPage, Sufficient, TableLog, Genuine;
    var n := EffectiveLimit(limit);
    var selected := TopicSet(topics);
    var events: seq<Event> := [];
    EmptyIsSufficient(n);
    var items := ListOne(db.launches, ProjectLaunched, selected, cursor, cutoff, n);
    if items.Overflow? { return items; }
    GatherMore([], {}, {}, n, items.value, TableLog(db.launches, selected, cursor, cutoff), {ProjectLaunched});
    events := events + items.value;
    items := ListOne(db.settlements, LeaderboardSettled, selected, cursor, cutoff, n);
    if items.Overflow? { return items; }
    ghost var log := {} + TableLog(db.launches, selected, cursor, cutoff);
    GatherMore(events, log, {} + {ProjectLaunched}, n, items.value, TableLog(db.settlements, selected, cursor, cutoff),
      {LeaderboardSettled});
    events := events + items.value;
    log := log + TableLog(db.settlements, selected, cursor, cutoff);
    items := ListSettingsIfSelected(db.settings, selected, cursor, cutoff, n);
    if items.Overflow? { return items; }
    GatherMore(events, log, {} + {ProjectLaunched} + {LeaderboardSettled}, n, items.value,
      TableLog(db.settings, selected, cursor, cutoff), SETTINGS_SET);
    events := events + items.value;
    log := log + TableLog(db.settings, selected, cursor, cutoff);
    items := ListPricesIfSelected(db.prices, db.bulk, selected, cursor, cutoff, n);
    if items.Overflow? { return items; }
    GatherMore(events, log, {} + {ProjectLaunched} + {LeaderboardSettled} + SETTINGS_SET, n, items.value,
      TableLog(db.prices, selected, cursor, cutoff) + TableLog(db.bulk, selected, cursor, cutoff), {PriceUpdated});
    events := events + items.value;
    log := log + (TableLog(db.prices, selected, cursor, cutoff) + TableLog(db.bulk, selected, cursor, cutoff));
    CutIsPage(events, log, n);
    events := Truncate(Sort(events), n);
    assert log == LogAfter(db, selected, cursor, cutoff);
    result := Ok(events);
  }

  method ListOne(rows: seq<Row>, topic: Topic, selected: set<Topic>, cursor: Cursor, cutoff: int, limit: nat)
    returns (result: Result<seq<Event>>)
    requires InTableOrder(rows) && ValidCursor(cursor) && forall r :: r in rows ==> r.topic == topic
    ensures result.Ok? ==> Gathered(result.value, TableLog(rows, selected, cursor, cutoff), {topic}, limit)
    ensures result.Overflow? ==> !AllRowsEncodable(rows)
  {
    OwnTopics(rows, {topic}, selected, cursor, cutoff);
    if topic !in selected { return Ok([]); }
    result := ListTable(rows, topic, cursor, cutoff, limit);
  }

  method ListSettingsIfSelected(rows: seq<Row>, selected: set<Topic>, cursor: Cursor, cutoff: int, limit: nat)
    returns (result: Result<seq<Event>>)
    requires InTableOrder(rows) && ValidCursor(cursor) && limit > 0 && forall r :: r in rows ==> r.topic in SETTINGS_SET
    ensures result.Ok? ==> Gathered(result.value, TableLog(rows, selected, cursor, cutoff), SETTINGS_SET, limit)
    ensures result.Overflow? ==> !AllRowsEncodable(rows)
  {
    hide Sufficient, TableLog, Genuine;
    OwnTopics(rows, SETTINGS_SET, selected, cursor, cutoff);
    if NoticeUpdated in selected || AnnouncementUpdated in selected || DiscountUpdated in selected {
      assert NoticeUpdated in SETTINGS_TOPICS && AnnouncementUpdated in SETTINGS_TOPICS &&
        DiscountUpdated in SETTINGS_TOPICS;
      result := ListSettings(rows, selected, cursor, cutoff, limit);
    } else {
      EmptyIsSufficient(limit);
      result := Ok([]);
    }
  }

  method ListPricesIfSelected(prices: seq<Row>, bulk: seq<Row>, selected: set<Topic>, cursor: Cursor, cutoff: int,
                              limit: nat)
      returns (result: Result<seq<Event>>)
    requires InTableOrder(prices) && InTableOrder(bulk) && ValidCursor(cursor)
    requires forall p, b :: p in prices && b in bulk ==> p.id != b.id
    requires forall r :: r in prices + bulk ==> r.topic == PriceUpdated
    ensures result.Ok? ==>
      Gathered(result.value, TableLog(prices, selected, cursor, cutoff) + TableLog(bulk, selected, cursor, cutoff),
        {PriceUpdated}, limit)
    ensures result.Overflow? ==> !AllRowsEncodable(prices) || !AllRowsEncodable(bulk)
  {
    hide Sufficient, TableLog, Genuine;
    OwnTopics(prices, {PriceUpdated}, selected, cursor, cutoff);
    OwnTopics(bulk, {PriceUpdated}, selected, cursor, cutoff);
    if PriceUpdated in selected {
      result := ListPrices(prices, bulk, cursor, cutoff, limit);
    } else {
      EmptyIsSufficient(limit);
      assert TableLog(prices, selected, cursor, cutoff) + TableLog(bulk, selected, cursor, cutoff) == {};
      result := Ok([]);
    }
  }

  const SETTINGS_SET := {NoticeUpdated, AnnouncementUpdated, DiscountUpdated}

  lemma {:induction false} EmptyIsSufficient(limit: nat)
    ensures Sufficient([], {}, limit)
  {}
}
