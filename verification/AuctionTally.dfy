/**
 The replay's bid count against the bid rows: the log of a live job holds exactly one
 placed-or-updated event for every price the bid rows say was given to the log.
 */
module AuctionTally {
  import opened Wrappers
  import opened AuctionModel
  import opened AuctionReplay
  import opened AuctionRuns
  import opened AuctionTheorems

  /** How many prices of a bid the log should hold: its updates, and its first price if it was placed. */
  function LoggedPrices(h: History, b: Uuid): nat
    requires b in h.db.bids
  {
    |h.db.bids[b].updates| + if b in h.placed then 1 else 0
  }

  /** One price of one bid. */
  datatype Mark = Mark(bid: Uuid, index: nat)

  function Marks(h: History, job: Uuid): set<Mark> {
    set b, k: nat | b in h.db.bids && h.db.bids[b].job == job && k < LoggedPrices(h, b) :: Mark(b, k)
  }

  ghost predicate Tallied(h: History, j: Uuid)
    requires j in h.db.jobs
  {
    h.db.jobs[j].listing.auctionType == Live ==> PricedCount(RowsOf(h.db.events, j)) == |Marks(h, j)|
  }

  lemma CountAppend(events: seq<Event>, e: Event, job: Uuid)
    ensures PricedCount(RowsOf(events + [e], job)) ==
      PricedCount(RowsOf(events, job)) + if e.job == job && Priced(e) then 1 else 0
  {
    RowsOfAppend(events, e, job);
    var rows := RowsOf(events, job);
    if e.job == job {
      PricedCountAppend(rows, e);
    } else {
      assert rows + [] == rows;
    }
  }

  predicate IsMark(h: History, job: Uuid, m: Mark) {
    m.bid in h.db.bids && h.db.bids[m.bid].job == job && m.index < LoggedPrices(h, m.bid)
  }

  lemma MarksAre(h: History, job: Uuid)
    ensures forall m :: m in Marks(h, job) <==> IsMark(h, job, m)
  {
    forall m: Mark | IsMark(h, job, m) ensures m in Marks(h, job) {
      assert m == Mark(m.bid, m.index);
    }
  }

  /** The bid `b`, if it is there before, is there after, for the same job and with as many logged prices. */
  predicate SameBid(h: History, after: History, b: Uuid) {
    b in h.db.bids ==>
      b in after.db.bids && after.db.bids[b].job == h.db.bids[b].job && LoggedPrices(after, b) == LoggedPrices(h, b)
  }

  /** No bid gets a new logged price. */
  lemma SameMarks(h: History, after: History, j: Uuid)
    requires forall b :: SameBid(h, after, b)
    requires forall b :: b in after.db.bids && b !in h.db.bids ==> LoggedPrices(after, b) == 0
    ensures Marks(after, j) == Marks(h, j)
  {
    MarksAre(h, j);
    MarksAre(after, j);
    forall m: Mark ensures IsMark(h, j, m) <==> IsMark(after, j, m) {
      assert SameBid(h, after, m.bid);
    }
  }

  /** One bid got one more logged price. */
  ghost predicate OneMorePrice(h: History, after: History, id: Uuid) {
    && id in after.db.bids && (id in h.db.bids ==> after.db.bids[id].job == h.db.bids[id].job)
    && LoggedPrices(after, id) == 1 + (if id in h.db.bids then LoggedPrices(h, id) else 0)
    && forall b :: b != id ==> SameBid(h, after, b) && (b in after.db.bids ==> b in h.db.bids)
  }

  lemma NewMark(h: History, after: History, id: Uuid, j: Uuid, m: Mark)
    requires OneMorePrice(h, after, id)
    ensures IsMark(after, j, m) <==>
      IsMark(h, j, m) || (after.db.bids[id].job == j && m == Mark(id, LoggedPrices(after, id) - 1))
  {
    assert m.bid != id ==> SameBid(h, after, m.bid);
  }

  lemma AllMarks(h: History, after: History, id: Uuid, j: Uuid)
    requires OneMorePrice(h, after, id)
    ensures Marks(after, j) ==
      Marks(h, j) + if after.db.bids[id].job == j then {Mark(id, LoggedPrices(after, id) - 1)} else {}
  {
    MarksAre(h, j);
    MarksAre(after, j);
    forall m: Mark ensures
      m in Marks(after, j) <==>
      m in Marks(h, j) || (after.db.bids[id].job == j && m == Mark(id, LoggedPrices(after, id) - 1))
    {
      NewMark(h, after, id, j, m);
    }
  }

  lemma OneMoreMark(h: History, after: History, id: Uuid, j: Uuid)
    requires OneMorePrice(h, after, id)
    ensures |Marks(after, j)| == |Marks(h, j)| + if after.db.bids[id].job == j then 1 else 0
  {
    var mark := Mark(id, LoggedPrices(after, id) - 1);
    MarksAre(h, j);
    assert mark !in Marks(h, j) by {
      assert !IsMark(h, j, mark);
    }
    AllMarks(h, after, id, j);
  }

  /** A new price of one bid is one more price, and on a live job one more event. */
  lemma TallyRepriced(h: History, after: History, id: Uuid, e: Event, j: Uuid)
    requires Repriced(h, after, id, e) && OneMorePrice(h, after, id) && j in h.db.jobs && Tallied(h, j)
    ensures Tallied(after, j)
  {
    OneMoreMark(h, after, id, j);
    CountAppend(h.db.events, e, j);
  }

  lemma TallyPlace(h: History, c: Call, j: Uuid)
    requires ForeignKeys(h.db) && h.placed <= h.db.bids.Keys && j in h.db.jobs && Tallied(h, j)
    requires c.Place? && PlaceBidError(h.db, c.job, c.provider, c.amount, c.newId, c.checkedAt).None?
    ensures j in Step(h, c).db.jobs && Tallied(Step(h, c), j)
  {
    PlaceReprices(h, c);
    assert OneMorePrice(h, Step(h, c), c.newId);
    TallyRepriced(h, Step(h, c), c.newId, Event(c.job, c.amount, BidPlaced, c.now), j);
  }

  lemma TallyUpdate(h: History, c: Call, j: Uuid)
    requires ForeignKeys(h.db) && h.placed <= h.db.bids.Keys && j in h.db.jobs && Tallied(h, j)
    requires c.Update? && UpdateBidError(h.db, c.id, c.provider, c.amount).None?
    ensures j in Step(h, c).db.jobs && Tallied(Step(h, c), j)
  {
    UpdateReprices(h, c);
    assert OneMorePrice(h, Step(h, c), c.id);
    TallyRepriced(h, Step(h, c), c.id, Event(h.db.bids[c.id].job, c.amount, BidUpdated, c.now), j);
  }

  /** Calls that give no bid a new price the log should hold. */
  lemma NoNewPrice(h: History, c: Call)
    requires ForeignKeys(h.db) && h.placed <= h.db.bids.Keys && !c.Place? && !c.Update?
    ensures forall b :: SameBid(h, Step(h, c), b)
    ensures forall b :: b in Step(h, c).db.bids && b !in h.db.bids ==> LoggedPrices(Step(h, c), b) == 0
  {
  }

  lemma MarksKept(h: History, c: Call, j: Uuid)
    requires ForeignKeys(h.db) && h.placed <= h.db.bids.Keys && !c.Place? && !c.Update?
    ensures |Marks(Step(h, c), j)| == |Marks(h, j)|
  {
    NoNewPrice(h, c);
    SameMarks(h, Step(h, c), j);
  }

  /** At most one event is added, and it is a withdrawal. */
  ghost predicate AddsWithdrawal(events: seq<Event>, after: seq<Event>, now: Instant) {
    after == events || exists job, amount :: after == events + [Event(job, amount, BidWithdrawn, now)]
  }

  lemma WithdrawalLogged(h: History, c: Call)
    requires ForeignKeys(h.db) && c.Withdraw?
    ensures AddsWithdrawal(h.db.events, Step(h, c).db.events, c.now)
  {
    if Step(h, c).db.events != h.db.events {
      var bid := h.db.bids[c.id];
      assert Step(h, c).db.events == h.db.events + [Event(bid.job, bid.amount, BidWithdrawn, c.now)];
    }
  }

  lemma WithdrawalUncounted(events: seq<Event>, after: seq<Event>, now: Instant, j: Uuid)
    requires AddsWithdrawal(events, after, now)
    ensures PricedCount(RowsOf(after, j)) == PricedCount(RowsOf(events, j))
  {
    if after != events {
      var job, amount :| after == events + [Event(job, amount, BidWithdrawn, now)];
      CountAppend(events, Event(job, amount, BidWithdrawn, now), j);
    }
  }

  lemma TallyWithdraw(h: History, c: Call, j: Uuid)
    requires ForeignKeys(h.db) && h.placed <= h.db.bids.Keys && j in h.db.jobs && Tallied(h, j)
    requires c.Withdraw? && WithdrawBid(h.db, c.id, c.provider, c.now).result.Success?
    ensures j in Step(h, c).db.jobs && Tallied(Step(h, c), j)
  {
    MarksKept(h, c, j);
    WithdrawalLogged(h, c);
    WithdrawalUncounted(h.db.events, Step(h, c).db.events, c.now, j);
    DeadlineStep(h, c, j);
  }

  lemma TallyQuiet(h: History, c: Call, j: Uuid)
    requires ForeignKeys(h.db) && h.placed <= h.db.bids.Keys && j in h.db.jobs && Tallied(h, j)
    requires c.Publish? || c.Accept? || c.Award? || c.Expire?
    ensures j in Step(h, c).db.jobs && Tallied(Step(h, c), j)
  {
    MarksKept(h, c, j);
  }

  lemma TallyFresh(h: History, c: Call, j: Uuid)
    requires ForeignKeys(h.db) && j !in h.db.jobs && j in Step(h, c).db.jobs
    requires forall e :: e in h.db.events ==> e.job in h.db.jobs
    ensures Tallied(Step(h, c), j)
  {
    NoRows(h.db.events, j);
    NothingElsePublished(h, c, j);
    NoBidsYet(h, Step(h, c), j);
    assert Marks(Step(h, c), j) == {};
  }

  lemma TallyStep(h: History, c: Call, j: Uuid)
    requires Integrity(h) && LogAgrees(h) && j in Step(h, c).db.jobs && (j in h.db.jobs ==> Tallied(h, j))
    ensures Tallied(Step(h, c), j)
  {
    if j !in h.db.jobs {
      TallyFresh(h, c, j);
    } else {
      match c
      case Place(job, provider, amount, newId, checkedAt, _) =>
        if PlaceBidError(h.db, job, provider, amount, newId, checkedAt).None? {
          TallyPlace(h, c, j);
        } else {
          RefusedStep(h, c);
        }
      case Update(id, provider, amount, _) =>
        if UpdateBidError(h.db, id, provider, amount).None? {
          TallyUpdate(h, c, j);
        } else {
          RefusedStep(h, c);
        }
      case Withdraw(id, provider, now) =>
        if WithdrawBid(h.db, id, provider, now).result.Success? {
          TallyWithdraw(h, c, j);
        } else {
          RefusedStep(h, c);
        }
      case _ => TallyQuiet(h, c, j);
    }
  }

  /** In every run the replay of a live job counts exactly the placements and updates its bid rows record. */
  lemma ReplayCountMatchesBids(calls: seq<Call>, j: Uuid)
    requires j in Run(calls).db.jobs && Run(calls).db.jobs[j].listing.auctionType == Live
    ensures PricedCount(RowsOf(Run(calls).db.events, j)) == |Marks(Run(calls), j)|
  {
    RunTallies(calls);
    assert Tallied(Run(calls), j);
  }

  lemma {:induction false} RunTallies(calls: seq<Call>)
    ensures forall j :: j in Run(calls).db.jobs ==> Tallied(Run(calls), j)
  {
    if calls != [] {
      var before, c := Run(calls[..|calls| - 1]), calls[|calls| - 1];
      RunTallies(calls[..|calls| - 1]);
      RunKeepsInv(calls[..|calls| - 1]);
      forall j | j in Step(before, c).db.jobs ensures Tallied(Step(before, c), j) {
        TallyStep(before, c, j);
      }
    }
  }
}
