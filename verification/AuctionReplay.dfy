/**
 The public replay of a finished auction: one pass over the job's event rows.
 */
module AuctionReplay {
  import opened Wrappers
  import opened AuctionModel

  datatype ReplayError = NotFound | Forbidden

  /** An event as the reply shows it, its time as a wall-clock second of the server's zone. */
  datatype Shown = Shown(kind: EventKind, amount: int, second: int)

  /** What the handler reads of a job; the category is empty if the job has none. */
  datatype Posting = Posting(title: string, category: string, row: Job)

  datatype Replay = Replay(
    title: string,
    category: string,
    events: seq<Shown>,
    startingBid: int,
    winningBid: int,
    savings: int,
    durationSeconds: int,
    bidCount: int)

  const SECOND: int := 1_000_000

  /** Only finished auctions can be replayed. */
  predicate Replayable(status: JobStatus) {
    status == Completed || status == JobAwarded
  }

  predicate Priced(e: Event) {
    e.kind == BidPlaced || e.kind == BidUpdated
  }

  /** The CHECK constraint on the event table. */
  predicate PositiveAmounts(events: seq<Event>) {
    forall e :: e in events ==> e.amount > 0
  }

  ghost predicate InOrder(rows: seq<Event>) {
    forall i, j :: 0 <= i < j < |rows| ==> rows[i].at <= rows[j].at
  }

  /** The event rows of one job, in log order. */
  function RowsOf(events: seq<Event>, job: Uuid): seq<Event> {
    if events == [] then []
    else
      var last := events[|events| - 1];
      RowsOf(events[..|events| - 1], job) + if last.job == job then [last] else []
  }

  /** `price` is the least amount among the priced rows, or 0 when there are none. */
  ghost predicate IsWinning(rows: seq<Event>, price: int) {
    if forall e :: e in rows ==> !Priced(e) then price == 0
    else
      && (exists e :: e in rows && Priced(e) && e.amount == price)
      && (forall e :: e in rows && Priced(e) ==> price <= e.amount)
  }

  /** The price after a pass over the rows, 0 standing for "no price yet". */
  function WinningPrice(rows: seq<Event>): int {
    if rows == [] then 0
    else
      var price, last := WinningPrice(rows[..|rows| - 1]), rows[|rows| - 1];
      if Priced(last) && (price == 0 || last.amount < price) then last.amount else price
  }

  function PricedCount(rows: seq<Event>): nat {
    if rows == [] then 0 else PricedCount(rows[..|rows| - 1]) + if Priced(rows[|rows| - 1]) then 1 else 0
  }

  lemma {:induction false} RowsOfMembers(events: seq<Event>, job: Uuid)
    ensures forall e :: e in RowsOf(events, job) <==> e in events && e.job == job
  {
    if events != [] {
      RowsOfMembers(events[..|events| - 1], job);
      assert events == events[..|events| - 1] + [events[|events| - 1]];
    }
  }

  lemma {:induction false} NoRows(events: seq<Event>, job: Uuid)
    requires forall e :: e in events ==> e.job != job
    ensures RowsOf(events, job) == []
  {
    if events != [] {
      NoRows(events[..|events| - 1], job);
    }
  }

  lemma RowsOfAppend(events: seq<Event>, e: Event, job: Uuid)
    ensures RowsOf(events + [e], job) == RowsOf(events, job) + if e.job == job then [e] else []
  {
    assert (events + [e])[..|events|] == events;
  }

  lemma WinningPriceAppend(rows: seq<Event>, e: Event)
    ensures var price := WinningPrice(rows);
      WinningPrice(rows + [e]) == if Priced(e) && (price == 0 || e.amount < price) then e.amount else price
  {
    assert (rows + [e])[..|rows|] == rows;
  }

  /** Another job's event, or a withdrawal, does not move a job's price. */
  lemma QuietEvent(events: seq<Event>, e: Event, job: Uuid)
    requires e.job != job || !Priced(e)
    ensures WinningPrice(RowsOf(events + [e], job)) == WinningPrice(RowsOf(events, job))
    ensures e.job != job ==> RowsOf(events + [e], job) == RowsOf(events, job)
  {
    RowsOfAppend(events, e, job);
    WinningPriceAppend(RowsOf(events, job), e);
  }

  lemma {:induction false} WinningPriceIsWinning(rows: seq<Event>)
    requires PositiveAmounts(rows)
    ensures IsWinning(rows, WinningPrice(rows))
    ensures WinningPrice(rows) == 0 <==> forall e :: e in rows ==> !Priced(e)
  {
    if rows != [] {
      var init, last := rows[..|rows| - 1], rows[|rows| - 1];
      assert rows == init + [last];
      WinningPriceIsWinning(init);
    }
  }

  /** Rows with equal timestamps may come back in any order: the winning price is still the log's. */
  lemma AnyRowOrderSamePrice(events: seq<Event>, job: Uuid, rows: seq<Event>, price: int)
    requires PositiveAmounts(events)
    requires multiset(rows) == multiset(RowsOf(events, job))
    ensures IsWinning(rows, price) <==> price == WinningPrice(RowsOf(events, job))
  {
    var kept := RowsOf(events, job);
    RowsOfMembers(events, job);
    WinningPriceIsWinning(kept);
    assert forall e :: e in rows <==> e in multiset(rows);
    assert forall e :: e in kept <==> e in multiset(kept);
  }

  lemma PricedCountAppend(rows: seq<Event>, e: Event)
    ensures PricedCount(rows + [e]) == PricedCount(rows) + if Priced(e) then 1 else 0
  {
    assert (rows + [e])[..|rows|] == rows;
  }

  /** One row more in the middle counts as one more at the end. */
  lemma {:induction false} PricedCountInsert(head: seq<Event>, e: Event, tail: seq<Event>)
    ensures PricedCount(head + [e] + tail) == PricedCount(head + tail + [e])
    decreases |tail|
  {
    if tail == [] {
      assert head + [e] + tail == head + tail + [e];
    } else {
      var init, last := tail[..|tail| - 1], tail[|tail| - 1];
      assert head + [e] + tail == head + [e] + init + [last] && head + tail == head + init + [last];
      PricedCountInsert(head, e, init);
      PricedCountAppend(head + [e] + init, last);
      PricedCountAppend(head + init, last);
      PricedCountAppend(head + init, e);
      PricedCountAppend(head + tail, e);
    }
  }

  /** Nor does the order of the rows matter to the count. */
  lemma {:induction false} AnyRowOrderSameCount(a: seq<Event>, b: seq<Event>)
    requires multiset(a) == multiset(b)
    ensures PricedCount(a) == PricedCount(b)
    decreases |a|
  {
    if a == [] {
      assert |multiset(b)| == 0;
    } else {
      var init, last := a[..|a| - 1], a[|a| - 1];
      assert a == init + [last];
      var head, tail := Around(last, b);
      PricedCountInsert(head, last, tail);
      SameRest(init, last, b, head, tail);
      AnyRowOrderSameCount(init, head + tail);
      PricedCountAppend(init, last);
      PricedCountAppend(head + tail, last);
    }
  }

  /** The rows before and after an occurrence of `e`. */
  lemma Around(e: Event, rows: seq<Event>) returns (head: seq<Event>, tail: seq<Event>)
    requires e in multiset(rows)
    ensures rows == head + [e] + tail
  {
    var i :| 0 <= i < |rows| && rows[i] == e;
    head, tail := rows[..i], rows[i + 1..];
  }

  lemma SameRest(init: seq<Event>, e: Event, b: seq<Event>, head: seq<Event>, tail: seq<Event>)
    requires multiset(init + [e]) == multiset(b) && b == head + [e] + tail
    ensures multiset(init) == multiset(head + tail)
  {
    assert multiset(b) == multiset(head + tail) + multiset{e};
    assert multiset(init) == multiset(b) - multiset{e};
  }

  // ----- the newest rows -----

  predicate NewestFirst(rows: seq<Event>) {
    forall i, j :: 0 <= i < j < |rows| ==> rows[i].at >= rows[j].at
  }

  /** What ORDER BY created_at DESC with a limit may return of `rows`, whatever it does with equal times. */
  ghost predicate Newest(recent: seq<Event>, rows: seq<Event>, limit: nat) {
    && |recent| == (if |rows| < limit then |rows| else limit)
    && NewestFirst(recent) && multiset(recent) <= multiset(rows)
    && forall kept, left :: kept in recent && left in multiset(rows) - multiset(recent) ==> kept.at >= left.at
  }

  predicate Reorders(ordered: seq<Event>, rows: seq<Event>) {
    NewestFirst(ordered) && multiset(ordered) == multiset(rows)
  }

  function Capped(rows: seq<Event>, limit: nat): seq<Event> {
    if |rows| < limit then rows else rows[..limit]
  }

  lemma SplitNewest(recent: seq<Event>, rest: seq<Event>)
    requires NewestFirst(recent + rest)
    ensures NewestFirst(recent)
    ensures forall kept, left :: kept in recent && left in rest ==> kept.at >= left.at
  {
    var all := recent + rest;
    forall i, j | 0 <= i < j < |recent| ensures recent[i].at >= recent[j].at {
      assert all[i] == recent[i] && all[j] == recent[j];
    }
    forall kept, left | kept in recent && left in rest ensures kept.at >= left.at {
      var i: nat :| i < |recent| && recent[i] == kept;
      var k: nat :| k < |rest| && rest[k] == left;
      assert all[i] == kept && all[|recent| + k] == left;
    }
  }

  lemma SplitMultiset(recent: seq<Event>, rest: seq<Event>, rows: seq<Event>)
    requires multiset(recent + rest) == multiset(rows)
    ensures |recent + rest| == |rows|
    ensures multiset(recent) <= multiset(rows) && multiset(rows) - multiset(recent) == multiset(rest)
  {
    assert |multiset(recent + rest)| == |recent + rest| && |multiset(rows)| == |rows|;
    assert multiset(recent + rest) == multiset(recent) + multiset(rest);
  }

  lemma CappedIsNewest(ordered: seq<Event>, rows: seq<Event>, limit: nat)
    requires Reorders(ordered, rows)
    ensures Newest(Capped(ordered, limit), rows, limit)
  {
    var recent := Capped(ordered, limit);
    var rest := ordered[|recent|..];
    assert ordered == recent + rest;
    SplitNewest(recent, rest);
    SplitMultiset(recent, rest, rows);
  }

  function InsertNewest(ordered: seq<Event>, e: Event): (more: seq<Event>)
    requires NewestFirst(ordered)
    ensures NewestFirst(more) && multiset(more) == multiset(ordered) + multiset{e}
    ensures forall r :: r in more ==> r in ordered || r == e
  {
    if ordered == [] || ordered[0].at <= e.at then [e] + ordered
    else
      var first, rest := ordered[0], InsertNewest(ordered[1..], e);
      assert ordered == [first] + ordered[1..];
      FirstIsNewest(first, ordered[1..], e, rest);
      FirstKept(first, ordered[1..], e, rest);
      [first] + rest
  }

  lemma FirstKept(first: Event, tail: seq<Event>, e: Event, rest: seq<Event>)
    requires multiset(rest) == multiset(tail) + multiset{e}
    ensures multiset([first] + rest) == multiset([first] + tail) + multiset{e}
  {
    assert multiset([first] + rest) == multiset{first} + multiset(rest);
    assert multiset([first] + tail) == multiset{first} + multiset(tail);
  }

  lemma FirstIsNewest(first: Event, tail: seq<Event>, e: Event, rest: seq<Event>)
    requires NewestFirst([first] + tail) && e.at <= first.at
    requires NewestFirst(rest) && forall r :: r in rest ==> r in tail || r == e
    ensures NewestFirst([first] + rest)
  {
    forall k | 0 <= k < |rest| ensures rest[k].at <= first.at {
      var r := rest[k];
      assert r in rest;
      if r != e {
        var i: nat :| i < |tail| && tail[i] == r;
        assert ([first] + tail)[0] == first && ([first] + tail)[i + 1] == r;
      }
    }
  }

  function Ordered(rows: seq<Event>): (ordered: seq<Event>)
    ensures Reorders(ordered, rows)
  {
    if rows == [] then []
    else
      assert rows == rows[..|rows| - 1] + [rows[|rows| - 1]];
      InsertNewest(Ordered(rows[..|rows| - 1]), rows[|rows| - 1])
  }

  /** Starting bid and winning bid make up the savings, which are never below 0 and 0 if either is missing. */
  predicate Saves(startingBid: int, winningBid: int, savings: int) {
    if startingBid > 0 && winningBid > 0 && winningBid <= startingBid then winningBid + savings == startingBid
    else savings == 0
  }

  /** The second a wall clock shows, `zone` being the zone's offset from UTC in seconds at an instant. */
  function WallSecond(at: Instant, zone: Instant -> int): int {
    at / SECOND + zone(at)
  }

  /** How far the wall clock was moved between the first and the last row. */
  function Drift(rows: seq<Event>, zone: Instant -> int): int {
    if rows == [] then 0 else zone(rows[|rows| - 1].at) - zone(rows[0].at)
  }

  predicate ShownAs(events: seq<Shown>, rows: seq<Event>, zone: Instant -> int) {
    && |events| == |rows|
    && forall i :: 0 <= i < |rows| ==>
         events[i] == Shown(rows[i].kind, rows[i].amount, WallSecond(rows[i].at, zone))
  }

  /** Whole seconds from the first row to the last: never negative, and less than a second off. */
  ghost predicate Lasted(rows: seq<Event>, seconds: int) {
    if |rows| < 2 then seconds == 0
    else 0 <= seconds && -1_000_000 < rows[|rows| - 1].at - rows[0].at - seconds * 1_000_000 < 1_000_000
  }

  lemma SecondsBetween(first: Instant, last: Instant)
    requires first <= last
    ensures 0 <= last / SECOND - first / SECOND
    ensures -SECOND < last - first - (last / SECOND - first / SECOND) * SECOND < SECOND
  {
    assert first == first / SECOND * SECOND + first % SECOND;
    assert last == last / SECOND * SECOND + last % SECOND;
  }

  /** Both ends are formatted, and parsed back, without their fraction of a second or their zone. */
  method Duration(events: seq<Shown>, ghost rows: seq<Event>, ghost zone: Instant -> int) returns (seconds: int)
    requires ShownAs(events, rows, zone) && InOrder(rows)
    ensures Lasted(rows, seconds - Drift(rows, zone))
  {
    seconds := 0;
    if |events| >= 2 {
      seconds := events[|events| - 1].second - events[0].second;
      SecondsBetween(rows[0].at, rows[|rows| - 1].at);
    }
  }

  /** `rows` is the result of the ordered query over the job's events, `zone` the server's time zone. */
  method GetAuctionReplay(posting: Option<Posting>, rows: seq<Event>, zone: Instant -> int)
    returns (reply: Result<Replay, ReplayError>)
    requires PositiveAmounts(rows) && InOrder(rows)
    ensures reply.Success? <==> posting.Some? && posting.value.row.status in {Completed, JobAwarded}
    ensures reply.Failure? ==> reply.error == if posting.None? then NotFound else Forbidden
    ensures reply.Success? ==>
      var r, start := reply.value, posting.value.row.listing.startingBid;
      && (r.title, r.category) == (posting.value.title, posting.value.category)
      && ShownAs(r.events, rows, zone)
      && IsWinning(rows, r.winningBid)
      && r.bidCount == PricedCount(rows)
      && r.startingBid == (if start.Some? then start.value else 0)
      && Saves(r.startingBid, r.winningBid, r.savings)
      && Lasted(rows, r.durationSeconds - Drift(rows, zone))
  {
    if posting.None? {
      return Failure(NotFound);
    }
    var job := posting.value.row;
    if !Replayable(job.status) {
      return Failure(Forbidden);
    }
    var events: seq<Shown> := [];
    var winningBid, bidCount := 0, 0;
    for n := 0 to |rows|
      invariant ShownAs(events, rows[..n], zone)
      invariant winningBid == WinningPrice(rows[..n])
      invariant bidCount == PricedCount(rows[..n])
    {
      var e := rows[n];
      events := events + [Shown(e.kind, e.amount, WallSecond(e.at, zone))];
      assert rows[..n + 1][..n] == rows[..n];
      if e.kind == BidPlaced || e.kind == BidUpdated {
        bidCount := bidCount + 1;
        if winningBid == 0 || e.amount < winningBid {
          winningBid := e.amount;
        }
      }
    }
    assert rows[..|rows|] == rows;
    var durationSeconds := Duration(events, rows, zone);
    var startingBid := if job.listing.startingBid.Some? then job.listing.startingBid.value else 0;
    var savings := 0;
    if startingBid > 0 && winningBid > 0 {
      savings := startingBid - winningBid;
      if savings < 0 {
        savings := 0;
      }
    }
    WinningPriceIsWinning(rows);
    return Success(Replay(
      posting.value.title, posting.value.category,
      events, startingBid, winningBid, savings, durationSeconds, bidCount));
  }
}
