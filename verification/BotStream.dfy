/** A Bot subscription over time: normalising what the client asks for, polling the event source, and
    picking up again from the last cursor the client received. */
module BotStream {
  import opened Options
  import opened Text
  import opened BotCursor
  import opened BotPages
  import opened BotEvents

  const READY_DELAY := 2000  // milliseconds, botWebSocketEventReadyDelay
  const PAGE := 100

  // ---------------------------------------------------------------- subscribing

  datatype TimeField = Absent | Malformed | At(time: int)

  datatype Frame = Frame(topics: seq<string>, topic: string, after: TimeField, afterID: U64)

  datatype Subscription = Accepted(topics: seq<Topic>, cursor: Cursor) | Rejected

  function TopicNamed(name: string): Option<Topic> {
    if name == "project.launched" then Some(ProjectLaunched)
    else if name == "leaderboard.settled" then Some(LeaderboardSettled)
    else if name == "system.notice.updated" then Some(NoticeUpdated)
    else if name == "system.announcement.updated" then Some(AnnouncementUpdated)
    else if name == "email.discount.updated" then Some(DiscountUpdated)
    else if name == "project.price.updated" then Some(PriceUpdated)
    else None
  }

  function Requested(frame: Frame): seq<string> { if frame.topics == [] then [frame.topic] else frame.topics }

  ghost predicate Asks(frame: Frame, topic: Topic) {
    exists name :: name in Requested(frame) && TopicNamed(Trim(name)) == Some(topic)
  }

  ghost predicate AllSupported(frame: Frame) {
    forall name :: name in Requested(frame) ==> TopicNamed(Trim(name)).Some?
  }

  /** The cursor a frame stands for: without a time, from just before now; an unversioned id is an old
      project row id, and needs the project topic. */
  ghost function CursorOf(frame: Frame, now: int): Option<Cursor> {
    match frame.after
    case Absent => if frame.afterID == 0 then Some(Cursor(now - READY_DELAY, 0)) else None
    case Malformed => None
    case At(time) =>
      if frame.afterID == 0 || LooksEncoded(frame.afterID) then Some(Cursor(time, frame.afterID))
      else if !Marked(frame.afterID) && Asks(frame, ProjectLaunched) && Encodable(ProjectLaunched, frame.afterID) then
        Some(Cursor(time, Encode(ProjectLaunched, frame.afterID).value))
      else None
  }

  lemma {:induction false} AtMostSixTopics(topics: seq<Topic>)
    requires forall i, j :: 0 <= i < j < |topics| ==> topics[i] != topics[j]
    ensures |topics| <= 6
  {
    DistinctTopics(topics);
    SubsetSize((set t | t in topics), ALL_TOPICS);
  }

  lemma {:induction false} DistinctTopics(topics: seq<Topic>)
    requires forall i, j :: 0 <= i < j < |topics| ==> topics[i] != topics[j]
    ensures |(set t | t in topics)| == |topics|
  {
    if topics != [] {
      var front, last := topics[..|topics| - 1], topics[|topics| - 1];
      DistinctTopics(front);
      assert topics == front + [last];
      assert last !in front;
      OneMoreTopic(front, last);
    }
  }

  lemma {:induction false} OneMoreTopic(front: seq<Topic>, last: Topic)
    requires last !in front
    ensures |(set t | t in front + [last])| == |(set t | t in front)| + 1
  {
    assert (set t | t in front + [last]) == (set t | t in front) + {last};
  }

  /** normalizeBotWebSocketSubscription. */
  method Normalize(frame: Frame, now: int) returns (result: Subscription)
    ensures result.Rejected? <==> !AllSupported(frame) || CursorOf(frame, now).None?
    ensures result.Accepted? ==>
      && (forall t :: t in result.topics <==> Asks(frame, t))
      && (forall i, j :: 0 <= i < j < |result.topics| ==> result.topics[i] != result.topics[j])
      && Some(result.cursor) == CursorOf(frame, now)
      && ValidCursor(result.cursor)
  {
    hide Trim, TopicNamed, Encodable;
    var requested := Requested(frame);
    var topics: seq<Topic> := [];
    for i := 0 to |requested|
      invariant forall j :: 0 <= j < i ==> TopicNamed(Trim(requested[j])).Some?
      invariant forall t :: t in topics <==> exists j :: 0 <= j < i && TopicNamed(Trim(requested[j])) == Some(t)
      invariant forall a, b :: 0 <= a < b < |topics| ==> topics[a] != topics[b]
    {
      var topic := TopicNamed(Trim(requested[i]));
      if topic.None? {
        assert requested[i] in Requested(frame);
        return Rejected;
      }
      if topic.value !in topics { topics := topics + [topic.value]; }
    }
    AtMostSixTopics(topics);
    assert TopicNamed(Trim(requested[0])).Some? && TopicNamed(Trim(requested[0])).value in topics;
    if |topics| == 0 || |topics| > 6 {
      assert false;
    }
    if frame.after.Absent? {
      if frame.afterID != 0 { return Rejected; }
      return Accepted(topics, Cursor(now - READY_DELAY, 0));
    }
    if frame.after.Malformed? { return Rejected; }
    var afterID := frame.afterID;
    if afterID != 0 {
      if Marked(afterID) {
        if !LooksEncoded(afterID) { return Rejected; }
      } else {
        if ProjectLaunched !in topics { return Rejected; }
        var encoded := Encode(ProjectLaunched, afterID);
        if encoded.None? { return Rejected; }
        EncodeRoundTrip(ProjectLaunched, afterID);
        afterID := encoded.value;
      }
    }
    result := Accepted(topics, Cursor(frame.after.time, afterID));
  }

  // ---------------------------------------------------------------- polling

  datatype Poll = Poll(db: Database, cutoff: int)

  /** The facts a snapshot holds about the topics, whatever their time. */
  ghost function Facts(db: Database, topics: set<Topic>): set<Event> {
    set r | r in db.launches + db.settlements + db.settings + (db.prices + db.bulk) && r.topic in topics &&
      EncodableRow(r) :: EventOf(r)
  }

  /** Between two polls the log only grows, and only with rows newer than the earlier cutoff. The ready delay gives
      rows time to become visible; that they stay visible, and that no project is listed later than its rows were
      made, it cannot give. */
  ghost predicate Settled(older: Poll, newer: Poll, topics: set<Topic>) {
    && older.cutoff <= newer.cutoff
    && forall e: Event :: e.cursor.after <= older.cutoff ==>
         (e in Facts(older.db, topics) <==> e in Facts(newer.db, topics))
  }

  lemma {:induction false} LogIsFacts(db: Database, topics: set<Topic>, cursor: Cursor, cutoff: int, e: Event)
    ensures e in LogAfter(db, topics, cursor, cutoff) <==>
            e in Facts(db, topics) && e.cursor.after <= cutoff && Before(cursor, e.cursor)
  {
    hide Encodable, Encode, Before;
    if e in Facts(db, topics) && e.cursor.after <= cutoff && Before(cursor, e.cursor) {
      var r :| r in db.launches + db.settlements + db.settings + (db.prices + db.bulk) && r.topic in topics &&
        EncodableRow(r) && EventOf(r) == e;
      assert IsNew(r, topics, cursor, cutoff);
      assert r in db.launches || r in db.settlements || r in db.settings || r in db.prices || r in db.bulk;
    }
  }

  lemma {:induction false} FactsAreGenuine(db: Database, topics: set<Topic>)
    ensures forall e :: e in Facts(db, topics) ==> Genuine(e)
  {
    forall e | e in Facts(db, topics) ensures Genuine(e) {
      var r :| r in db.launches + db.settlements + db.settings + (db.prices + db.bulk) && EncodableRow(r) &&
        EventOf(r) == e;
      RowsAreGenuine(r);
    }
  }

  /** sent is the beginning of the log after start, as of the poll: increasing, nothing foreign, and
      nothing skipped. */
  ghost predicate NoGap(sent: seq<Event>, start: Cursor, poll: Poll, topics: set<Topic>) {
    var log := LogAfter(poll.db, topics, start, poll.cutoff);
    && Ascending(sent)
    && (forall e :: e in sent ==> e in log)
    && (forall e :: e in log && e !in sent ==> forall x :: x in sent ==> Before(x.cursor, e.cursor))
  }

  /** Nothing of the log after start is left to send. */
  ghost predicate AllOf(sent: seq<Event>, start: Cursor, poll: Poll, topics: set<Topic>) {
    forall e :: e in LogAfter(poll.db, topics, start, poll.cutoff) ==> e in sent
  }

  function Position(start: Cursor, sent: seq<Event>): Cursor { if sent == [] then start else sent[|sent| - 1].cursor }

  lemma {:induction false} PageHasNoGap(page: seq<Event>, n: nat, start: Cursor, poll: Poll, topics: set<Topic>,
                                        limit: nat)
    requires IsPage(page, LogAfter(poll.db, topics, start, poll.cutoff), limit) && n <= |page|
    ensures NoGap(page[..n], start, poll, topics)
  {
    hide LogAfter, Before;
    forall e, x | e in LogAfter(poll.db, topics, start, poll.cutoff) && e !in page[..n] && x in page[..n]
      ensures Before(x.cursor, e.cursor)
    {
      if e in page {
        var i :| 0 <= i < |page| && page[i] == e;
        assert i >= n by { assert forall j :: 0 <= j < n ==> page[..n][j] == page[j]; }
      }
    }
  }

  /** Sending on from the last position leaves no gap and no duplicate, even across polls. */
  lemma {:induction false} ContinueHasNoGap(sent: seq<Event>, start: Cursor, older: Poll, more: seq<Event>, newer: Poll,
                                            topics: set<Topic>)
    requires NoGap(sent, start, older, topics) && Settled(older, newer, topics)
    requires NoGap(more, Position(start, sent), newer, topics)
    ensures NoGap(sent + more, start, newer, topics)
  {
    hide LogAfter, Facts;
    var position := Position(start, sent);
    forall e
      ensures e in LogAfter(newer.db, topics, start, newer.cutoff) <==>
                e in Facts(newer.db, topics) && e.cursor.after <= newer.cutoff && Before(start, e.cursor)
    {
      LogIsFacts(newer.db, topics, start, newer.cutoff, e);
    }
    forall e
      ensures e in LogAfter(newer.db, topics, position, newer.cutoff) <==>
                e in Facts(newer.db, topics) && e.cursor.after <= newer.cutoff && Before(position, e.cursor)
    {
      LogIsFacts(newer.db, topics, position, newer.cutoff, e);
    }
    forall e
      ensures e in LogAfter(older.db, topics, start, older.cutoff) <==>
                e in Facts(older.db, topics) && e.cursor.after <= older.cutoff && Before(start, e.cursor)
    {
      LogIsFacts(older.db, topics, start, older.cutoff, e);
    }
    forall x | x in sent ensures x.cursor == position || Before(x.cursor, position) {}
    assert sent != [] ==> sent[|sent| - 1] in sent;
    forall e | e in LogAfter(newer.db, topics, start, newer.cutoff) && e !in sent + more
      ensures forall x :: x in sent + more ==> Before(x.cursor, e.cursor)
    {
      if sent != [] && e.cursor.after <= older.cutoff {
        assert e in LogAfter(older.db, topics, start, older.cutoff);
      }
      assert Before(position, e.cursor);
    }
  }

  /** Whether or not the tables are settled: continuing leaves no gap exactly when no event behind the last position
      has turned up since, or gone. */
  lemma {:induction false} NoGapIff(sent: seq<Event>, start: Cursor, older: Poll, more: seq<Event>, newer: Poll,
                                    topics: set<Topic>)
    requires NoGap(sent, start, older, topics) && NoGap(more, Position(start, sent), newer, topics)
    ensures NoGap(sent + more, start, newer, topics) <==>
            forall e :: e in sent <==>
              e in LogAfter(newer.db, topics, start, newer.cutoff) && !Before(Position(start, sent), e.cursor)
  {
    hide LogAfter;
    var position := Position(start, sent);
    var log, rest := LogAfter(newer.db, topics, start, newer.cutoff),
      LogAfter(newer.db, topics, position, newer.cutoff);
    var all := sent + more;
    if sent != [] {
      var last := sent[|sent| - 1];
      assert last in sent;
      assert last in LogAfter(older.db, topics, start, older.cutoff);
      LogIsFacts(older.db, topics, start, older.cutoff, last);
    }
    forall e ensures e in rest <==> e in log && Before(position, e.cursor) {
      LogIsFacts(newer.db, topics, start, newer.cutoff, e);
      LogIsFacts(newer.db, topics, position, newer.cutoff, e);
      hide Facts;
    }
    forall x | x in sent ensures x.cursor == position || Before(x.cursor, position) {}
    forall e | e in all ensures e in sent || e in more {}
    forall e | e in sent ensures e in all {}
    if NoGap(all, start, newer, topics) {
      forall e | e in log && e !in all ensures Before(position, e.cursor) {
        LogIsFacts(newer.db, topics, start, newer.cutoff, e);
        assert sent != [] ==> sent[|sent| - 1] in all;
      }
    }
  }

  /** A project that is listed only after its launch was logged and later launches were sent: its event is never
      sent. */
  lemma {:induction false} ListedLateIsMissed()
    ensures var early, late := Row(1, 5, ProjectLaunched), Row(2, 10, ProjectLaunched);
            var start, topics, sent := Cursor(0, 0), {ProjectLaunched}, [EventOf(late)];
            var older := Poll(Database([late], [], [], [], []), 10);
            var newer := Poll(Database([early, late], [], [], [], []), 20);
            && NoGap(sent, start, older, topics) && NoGap([], Position(start, sent), newer, topics)
            && AllOf([], Position(start, sent), newer, topics) && !NoGap(sent, start, newer, topics)
  {
    var early, late := Row(1, 5, ProjectLaunched), Row(2, 10, ProjectLaunched);
    var newer := Poll(Database([early, late], [], [], [], []), 20);
    assert Encodable(ProjectLaunched, 1) && Encodable(ProjectLaunched, 2);
    assert IsNew(early, {ProjectLaunched}, Cursor(0, 0), 20) && early in newer.db.launches;
    assert EventOf(early) in LogAfter(newer.db, {ProjectLaunched}, Cursor(0, 0), 20);
    assert EventOf(late) in [EventOf(late)];
  }

  /** After the k-th poll, what was sent is the beginning of the log as of that poll. The marks say how much had been
      sent before each poll, and at the end. */
  ghost predicate Kept(sent: seq<Event>, marks: seq<nat>, k: nat, start: Cursor, poll: Poll, topics: set<Topic>) {
    k + 1 < |marks| && marks[k] <= marks[k + 1] <= |sent| && NoGap(sent[..marks[k + 1]], start, poll, topics)
  }

  /** The k-th poll sent a full page, or after it everything that was in the log by then has been sent. */
  ghost predicate Advanced(sent: seq<Event>, marks: seq<nat>, k: nat, start: Cursor, poll: Poll, topics: set<Topic>) {
    && k + 1 < |marks| && marks[k] <= marks[k + 1] <= |sent|
    && (marks[k + 1] == marks[k] + PAGE || AllOf(sent[..marks[k + 1]], start, poll, topics))
  }

  lemma {:induction false} StillAdvanced(sent: seq<Event>, marks: seq<nat>, k: nat, start: Cursor, poll: Poll,
                                         topics: set<Topic>, more: seq<Event>, mark: nat)
    ensures Kept(sent, marks, k, start, poll, topics) ==> Kept(sent + more, marks + [mark], k, start, poll, topics)
    ensures Advanced(sent, marks, k, start, poll, topics) ==>
      Advanced(sent + more, marks + [mark], k, start, poll, topics)
  {
    hide NoGap, AllOf;
    if k + 1 < |marks| && marks[k + 1] <= |sent| {
      assert (sent + more)[..marks[k + 1]] == sent[..marks[k + 1]];
    }
  }

  /** streamEvents over a series of polls. budget is how many sends succeed before the connection fails
      or a newer subscription takes over; seen counts the polls answered. As long as it lasts, every poll is answered
      unless a row cannot be packed, and every poll sends a full page or all there is. */
  method Stream(polls: seq<Poll>, topics: seq<Topic>, start: Cursor, budget: nat)
      returns (sent: seq<Event>, seen: nat, caughtUp: bool, ghost marks: seq<nat>)
    requires ValidCursor(start)
    requires forall p :: p in polls ==> WellFormed(p.db)
    requires forall i, j :: 0 <= i < j < |polls| ==> Settled(polls[i], polls[j], TopicSet(topics))
    ensures seen <= |polls| && |sent| <= budget
    ensures seen == 0 ==> sent == []
    ensures seen > 0 ==> NoGap(sent, start, polls[seen - 1], TopicSet(topics))
    ensures caughtUp ==> seen > 0 && AllOf(sent, start, polls[seen - 1], TopicSet(topics))
    ensures ValidCursor(Position(start, sent))
    ensures |marks| == seen + 1 && marks[0] == 0 && marks[seen] == |sent|
    ensures forall k :: 0 <= k < seen ==> Kept(sent, marks, k, start, polls[k], TopicSet(topics))
    ensures |sent| < budget ==> forall k :: 0 <= k < seen ==>
            Advanced(sent, marks, k, start, polls[k], TopicSet(topics))
    ensures |sent| < budget && (forall p :: p in polls ==> AllEncodable(p.db)) ==> seen == |polls|
    ensures |sent| < budget && seen > 0 ==> (caughtUp <==> marks[seen] < marks[seen - 1] + 100)
  {
    hide WellFormed, Settled, LogAfter, LooksEncoded, NoGap, AllOf, Kept, Advanced, AllEncodable;
    var cursor := start;
    sent, seen, caughtUp, marks := [], 0, false, [0];
    while seen < |polls|
      invariant seen <= |polls| && |sent| <= budget
      invariant cursor == Position(start, sent) && ValidCursor(cursor)
      invariant seen == 0 ==> sent == [] && !caughtUp
      invariant seen > 0 ==> NoGap(sent, start, polls[seen - 1], TopicSet(topics))
      invariant caughtUp ==> seen > 0 && AllOf(sent, start, polls[seen - 1], TopicSet(topics))
      invariant |marks| == seen + 1 && marks[0] == 0 && marks[seen] == |sent|
      invariant forall k :: 0 <= k < seen ==> Kept(sent, marks, k, start, polls[k], TopicSet(topics))
      invariant forall k :: 0 <= k < seen ==> Advanced(sent, marks, k, start, polls[k], TopicSet(topics))
      invariant seen > 0 ==> (caughtUp <==> marks[seen] < marks[seen - 1] + PAGE)
    {
      var poll := polls[seen];
      var result := List(poll.db, topics, cursor, poll.cutoff, PAGE);
      if result.Overflow? {
        assert poll in polls;
        return;
      }
      var events := result.value;
      ghost var before, from := sent, cursor;
      var n := 0;
      while n < |events|
        invariant 0 <= n <= |events|
        invariant sent == before + events[..n] && |sent| <= budget
        invariant cursor == Position(start, sent)
      {
        if |sent| == budget { break; }
        sent := sent + [events[n]];
        cursor := events[n].cursor;
        n := n + 1;
      }
      PageHasNoGap(events, n, from, poll, TopicSet(topics), PAGE);
      Extend(before, start,
        if seen == 0 then poll else polls[seen - 1], events[..n], poll, TopicSet(topics), seen == 0);
      caughtUp := n == |events| && n < PAGE;
      if caughtUp {
        assert events[..n] == events;
        AllSent(before, start, poll, events, TopicSet(topics));
      }
      StillValid(sent, start, poll, TopicSet(topics));
      forall k | 0 <= k < seen
        ensures Kept(sent, marks + [|sent|], k, start, polls[k], TopicSet(topics))
        ensures Advanced(sent, marks + [|sent|], k, start, polls[k], TopicSet(topics))
      {
        StillAdvanced(before, marks, k, start, polls[k], TopicSet(topics), events[..n], |sent|);
      }
      marks := marks + [|sent|];
      LastPoll(sent, marks, seen, start, poll, TopicSet(topics));
      seen := seen + 1;
      if n < |events| { return; }
    }
  }

  lemma {:induction false} LastPoll(sent: seq<Event>, marks: seq<nat>, k: nat, start: Cursor, poll: Poll,
                                    topics: set<Topic>)
    requires |marks| == k + 2 && marks[k] <= marks[k + 1] == |sent| && NoGap(sent, start, poll, topics)
    ensures Kept(sent, marks, k, start, poll, topics)
    ensures marks[k + 1] == marks[k] + PAGE || AllOf(sent, start, poll, topics) ==>
      Advanced(sent, marks, k, start, poll, topics)
  {
    hide NoGap, AllOf;
    assert sent[..marks[k + 1]] == sent;
  }

  /** So a subscription that lasts catches up: among more polls than the log has pages, one was after which nothing of
      the log as of that poll was left to send. */
  lemma {:induction false} CatchesUp(sent: seq<Event>, marks: seq<nat>, polls: seq<Poll>, topics: set<Topic>,
                                     start: Cursor)
    requires polls != [] && |marks| == |polls| + 1 && marks[0] == 0 && marks[|polls|] == |sent|
    requires forall k :: 0 <= k < |polls| ==> Advanced(sent, marks, k, start, polls[k], topics)
    requires NoGap(sent, start, polls[|polls| - 1], topics)
    requires var last := polls[|polls| - 1]; 100 * |polls| > |LogAfter(last.db, topics, start, last.cutoff)|
    ensures exists k ::
            0 <= k < |polls| && marks[k + 1] <= |sent| && AllOf(sent[..marks[k + 1]], start, polls[k], topics)
  {
    hide AllOf, LogAfter;
    if forall k :: 0 <= k < |polls| ==> marks[k + 1] == marks[k] + PAGE {
      FullPages(marks, |polls|);
      SentIsSmall(sent, start, polls[|polls| - 1], topics);
    } else {
      var k :| 0 <= k < |polls| && marks[k + 1] != marks[k] + PAGE;
      assert Advanced(sent, marks, k, start, polls[k], topics);
    }
  }

  lemma {:induction false} FullPages(marks: seq<nat>, n: nat)
    requires n < |marks| && marks[0] == 0 && forall k :: 0 <= k < n ==> marks[k + 1] == marks[k] + PAGE
    ensures marks[n] == PAGE * n
  {
    if n > 0 {
      FullPages(marks, n - 1);
      assert marks[(n - 1) + 1] == marks[n - 1] + PAGE;
    }
  }

  /** What was sent is part of the log, without repetition. */
  lemma {:induction false} SentIsSmall(sent: seq<Event>, start: Cursor, poll: Poll, topics: set<Topic>)
    requires NoGap(sent, start, poll, topics)
    ensures |sent| <= |LogAfter(poll.db, topics, start, poll.cutoff)|
  {
    hide LogAfter;
    AscendingSize(sent);
    SubsetSize((set e | e in sent), LogAfter(poll.db, topics, start, poll.cutoff));
  }

  lemma {:induction false} AscendingSize(sent: seq<Event>)
    requires Ascending(sent)
    ensures |(set e | e in sent)| == |sent|
  {
    if sent != [] {
      var front, last := sent[..|sent| - 1], sent[|sent| - 1];
      AscendingSize(front);
      assert sent == front + [last];
      assert last !in front;
      assert (set e | e in sent) == (set e | e in front) + {last};
    }
  }

  lemma {:induction false} Extend(sent: seq<Event>, start: Cursor, older: Poll, more: seq<Event>, newer: Poll,
                                  topics: set<Topic>, first: bool)
    requires first ==> sent == []
    requires !first ==> NoGap(sent, start, older, topics) && Settled(older, newer, topics)
    requires NoGap(more, Position(start, sent), newer, topics)
    ensures NoGap(sent + more, start, newer, topics)
  {
    hide LogAfter, Settled, Before;
    if first { assert sent + more == more; } else { ContinueHasNoGap(sent, start, older, more, newer, topics); }
  }

  lemma {:induction false} StillValid(sent: seq<Event>, start: Cursor, poll: Poll, topics: set<Topic>)
    requires NoGap(sent, start, poll, topics) && ValidCursor(start)
    ensures ValidCursor(Position(start, sent))
  {
    if sent != [] {
      var last := sent[|sent| - 1];
      assert last in sent;
      LogIsFacts(poll.db, topics, start, poll.cutoff, last);
      FactsAreGenuine(poll.db, topics);
    }
  }

  /** A page that is not full has everything after the position, so all is sent. */
  lemma {:induction false} AllSent(sent: seq<Event>, start: Cursor, poll: Poll, page: seq<Event>, topics: set<Topic>)
    requires IsPage(page, LogAfter(poll.db, topics, Position(start, sent), poll.cutoff), PAGE) && |page| < PAGE
    requires NoGap(sent + page, start, poll, topics)
    ensures AllOf(sent + page, start, poll, topics)
  {
    var position := Position(start, sent);
    forall e | e in LogAfter(poll.db, topics, start, poll.cutoff) ensures e in sent + page {
      LogIsFacts(poll.db, topics, start, poll.cutoff, e);
      LogIsFacts(poll.db, topics, position, poll.cutoff, e);
      hide LogAfter, Facts;
      if Before(position, e.cursor) {
        assert e in page;
      } else {
        assert sent[|sent| - 1] in sent + page;
      }
    }
  }

  const ALL_TOPICS :=
    {ProjectLaunched, LeaderboardSettled, NoticeUpdated, AnnouncementUpdated, DiscountUpdated, PriceUpdated}

  ghost function AskedTopics(frame: Frame): set<Topic> { set t | t in ALL_TOPICS && Asks(frame, t) }

  lemma {:induction false} SameTopics(topics: seq<Topic>, frame: Frame)
    requires forall t :: t in topics <==> Asks(frame, t)
    ensures TopicSet(topics) == AskedTopics(frame)
  {
    forall t: Topic ensures t in ALL_TOPICS {
      match t {
        case ProjectLaunched =>
        case LeaderboardSettled =>
        case NoticeUpdated =>
        case AnnouncementUpdated =>
        case DiscountUpdated =>
        case PriceUpdated =>
      }
    }
  }

  /** A client that reconnects with the cursor it last received continues the same log: the two streams
      together have no gap and no duplicate. */
  method Reconnect(polls: seq<Poll>, later: seq<Poll>, frame: Frame, start: Cursor, budget: nat, now: int)
      returns (sent: seq<Event>, more: seq<Event>, seen: nat)
    requires ValidCursor(start) && AllSupported(frame) && frame.after == At(start.after) && frame.afterID == start.id
    requires forall p :: p in polls + later ==> WellFormed(p.db)
    requires forall i, j :: 0 <= i < j < |polls + later| ==>
             Settled((polls + later)[i], (polls + later)[j], AskedTopics(frame))
    ensures seen <= |later|
    ensures sent != [] && seen > 0 ==> NoGap(sent + more, start, later[seen - 1], AskedTopics(frame))
  {
    hide WellFormed, Settled, NoGap, LogAfter, Trim, TopicNamed;
    var first := Normalize(frame, now);
    SameTopics(first.topics, frame);
    forall i | 0 <= i < |polls| ensures polls[i] == (polls + later)[i] && polls[i] in polls + later {}
    forall i | 0 <= i < |later| ensures later[i] == (polls + later)[|polls| + i] && later[i] in polls + later {}
    var polled, caughtUp;
    ghost var marks;
    sent, polled, caughtUp, marks := Stream(polls, first.topics, start, budget);
    more, seen := [], 0;
    if sent == [] { return; }
    var position := Position(start, sent);
    var again := frame.(after := At(position.after), afterID := position.id);
    var second := Normalize(again, now);
    assert forall t :: Asks(again, t) <==> Asks(frame, t);
    SameTopics(second.topics, frame);
    more, seen, caughtUp, marks := Stream(later, second.topics, second.cursor, budget);
    if seen > 0 {
      assert Settled((polls + later)[polled - 1], (polls + later)[|polls| + seen - 1], AskedTopics(frame));
      Extend(sent, start, polls[polled - 1], more, later[seen - 1], AskedTopics(frame), false);
    }
  }

  // ---------------------------------------------------------------- what the names and cursors of a frame mean

  /** The six topics that can be asked for, by their names. */
  lemma {:induction false} TopicsAre(name: string)
    ensures TopicNamed(name) == Some(ProjectLaunched) <==> name == "project.launched"
    ensures TopicNamed(name) == Some(LeaderboardSettled) <==> name == "leaderboard.settled"
    ensures TopicNamed(name) == Some(NoticeUpdated) <==> name == "system.notice.updated"
    ensures TopicNamed(name) == Some(AnnouncementUpdated) <==> name == "system.announcement.updated"
    ensures TopicNamed(name) == Some(DiscountUpdated) <==> name == "email.discount.updated"
    ensures TopicNamed(name) == Some(PriceUpdated) <==> name == "project.price.updated"
  {}

  /** A frame names its topics in a list, or else one in a field. */
  lemma {:induction false} AsksIs(frame: Frame, topic: Topic)
    ensures frame.topics != [] ==>
              (Asks(frame, topic) <==> exists name :: name in frame.topics && TopicNamed(Trim(name)) == Some(topic))
    ensures frame.topics == [] ==> (Asks(frame, topic) <==> TopicNamed(Trim(frame.topic)) == Some(topic))
    ensures AllSupported(frame) <==>
              if frame.topics == [] then TopicNamed(Trim(frame.topic)).Some?
              else forall name :: name in frame.topics ==> TopicNamed(Trim(name)).Some?
  {
    hide TopicNamed, Trim;
  }

  /** The cursor a frame stands for: two seconds ago if it gives neither time nor id; its time with its id if that is
      absent or packed; and an id below the marker is a project row, for frames that ask for project launches. */
  lemma {:induction false} CursorIs(frame: Frame, now: int)
    ensures frame.after.Absent? ==>
              CursorOf(frame, now) == if frame.afterID == 0 then Some(Cursor(now - 2_000, 0)) else None
    ensures frame.after.Malformed? ==> CursorOf(frame, now).None?
    ensures frame.after.At? && frame.afterID == 0 ==> CursorOf(frame, now) == Some(Cursor(frame.after.time, 0))
    ensures frame.after.At? && frame.afterID >= 0x8000_0000_0000_0000 ==>
              CursorOf(frame, now) == if exists topic, row: U64 :: Encode(topic, row) == Some(frame.afterID)
                                      then Some(Cursor(frame.after.time, frame.afterID)) else None
    ensures frame.after.At? && 0 < frame.afterID < 0x8000_0000_0000_0000 ==>
              CursorOf(frame, now) ==
                if Asks(frame, ProjectLaunched) && Encode(ProjectLaunched, frame.afterID).Some?
                then Some(Cursor(frame.after.time, Encode(ProjectLaunched, frame.afterID).value)) else None
  {
    LooksEncodedIff(frame.afterID);
    EncodableIff(ProjectLaunched, frame.afterID);
    hide Asks, LooksEncoded, Encodable, Encode;
    NotMarked(frame.afterID);
  }

  lemma {:induction false} NotMarked(id: U64)
    ensures id < 0x8000_0000_0000_0000 ==> !Marked(id) && !LooksEncoded(id)
    ensures id >= 0x8000_0000_0000_0000 ==> Marked(id)
  {}
}
