/**
 Everything in the tables of a run can be traced to a call by someone entitled to make it, and
 deadlines, withdrawals and replays answer exactly to the calls.
 */
module AuctionAccounts {
  import opened Wrappers
  import opened AuctionModel
  import opened AuctionReplay
  import opened AuctionRuns
  import opened AuctionTheorems
  import opened AuctionTally
  import opened AuctionRules

  // ----- extensions -----

  /** The call put a new bid on the job, or lowered one of its bids. */
  predicate BidsOn(h: History, after: History, c: Call, j: Uuid) {
    || (c.Place? && c.job == j && c.newId !in h.db.bids && c.newId in after.db.bids)
    || (c.Update? && c.id in h.db.bids && h.db.bids[c.id].job == j
        && c.id in after.db.bids && after.db.bids[c.id].amount < h.db.bids[c.id].amount)
  }

  predicate ExtendedExactlyIn(h: History, after: History, c: Call, j: Uuid)
    requires j in h.db.jobs
  {
    && j in after.db.jobs
    && if BidsOn(h, after, c, j) && Sniped(h.db.jobs[j], c.now)
       then Extended(h.db.jobs[j], after.db.jobs[j]) else SameTimes(h.db.jobs[j], after.db.jobs[j])
  }

  lemma PlaceExtends(h: History, c: Call, j: Uuid)
    requires ForeignKeys(h.db) && j in h.db.jobs && c.Place?
    ensures ExtendedExactlyIn(h, Step(h, c), c, j)
  {
    var r := PlaceBid(h.db, c.job, c.provider, c.amount, c.newId, c.checkedAt, c.now);
    PlaceAccepted(h.db, c.job, c.provider, c.amount, c.newId, c.checkedAt, c.now);
    if r.result.Success? {
      PlaceEffect(h.db, c.job, c.provider, c.amount, c.newId, c.checkedAt, c.now);
    } else {
      PlaceRefused(h.db, c.job, c.provider, c.amount, c.newId, c.checkedAt, c.now, r.result.error);
    }
  }

  lemma UpdateExtends(h: History, c: Call, j: Uuid)
    requires ForeignKeys(h.db) && j in h.db.jobs && c.Update?
    ensures ExtendedExactlyIn(h, Step(h, c), c, j)
  {
    var r := UpdateBid(h.db, c.id, c.provider, c.amount, c.now);
    UpdateAccepted(h.db, c.id, c.provider, c.amount, c.now);
    if r.result.Success? {
      UpdateEffect(h.db, c.id, c.provider, c.amount, c.now);
    } else {
      UpdateRefused(h.db, c.id, c.provider, c.amount, c.now, r.result.error);
    }
  }

  lemma OthersExtendNothing(h: History, c: Call, j: Uuid)
    requires ForeignKeys(h.db) && j in h.db.jobs && !c.Place? && !c.Update?
    ensures ExtendedExactlyIn(h, Step(h, c), c, j)
  {
  }

  /**
   In every run, a call moves a job's deadline, by five minutes and one extension, exactly if it places or
   lowers a bid on it while it is live, has an extension left of three and at most five minutes to go.
   */
  lemma ExtendedExactly(calls: seq<Call>, c: Call, j: Uuid)
    requires j in Run(calls).db.jobs
    ensures ExtendedExactlyIn(Run(calls), Run(calls + [c]), c, j)
  {
    RunNext(calls, c);
    if c.Place? {
      PlaceExtends(Run(calls), c, j);
    } else if c.Update? {
      UpdateExtends(Run(calls), c, j);
    } else {
      OthersExtendNothing(Run(calls), c, j);
    }
  }

  // ----- who may change a bid -----

  /** How a call may change a bid, and who may make it. */
  predicate Entitled(h: History, c: Call, id: Uuid, after: Bid)
    requires id in h.db.bids
  {
    var bid := h.db.bids[id];
    match c
    case Update(b, provider, amount, _) =>
      && b == id && provider == bid.provider && 0 < amount < bid.amount && bid.status == Active
      && after == bid.(amount := amount, updates := bid.updates + [bid.amount])
    case Withdraw(b, provider, _) =>
      b == id && provider == bid.provider && bid.status == Active && after == bid.(status := Withdrawn)
    case Award(j, b, customer) =>
      && j == bid.job && j in h.db.jobs && customer == h.db.jobs[j].listing.customer && bid.status == Active
      && after == bid.(status := if b == id then Awarded else NotSelected)
    case Expire(j) => j == bid.job && bid.status == Active && after == bid.(status := Expired)
    case _ => false
  }

  /** Only its provider, its job's customer and the deadline sweep change a bid. */
  lemma StrangersChangeNothing(h: History, c: Call, id: Uuid)
    requires ForeignKeys(h.db) && id in h.db.bids
    ensures id in Step(h, c).db.bids
    ensures Step(h, c).db.bids[id] == h.db.bids[id] || Entitled(h, c, id, Step(h, c).db.bids[id])
  {
  }

  // ----- every bid has its calls -----

  /** The bid was placed or accepted by its provider, at its original price. */
  predicate Made(calls: seq<Call>, id: Uuid, bid: Bid) {
    exists c :: c in calls && Makes(c, id, bid)
  }

  predicate Makes(c: Call, id: Uuid, bid: Bid) {
    || (c.Place? && (c.job, c.provider, c.amount, c.newId) == (bid.job, bid.provider, bid.original, id))
    || (c.Accept? && (c.job, c.provider, c.newId) == (bid.job, bid.provider, id))
  }

  /** Each later price was asked for by its provider. */
  predicate Repricings(calls: seq<Call>, id: Uuid, bid: Bid) {
    forall k :: 1 <= k < |PricePath(bid)| ==> AskedFor(calls, id, bid.provider, PricePath(bid)[k])
  }

  predicate AskedFor(calls: seq<Call>, id: Uuid, provider: Uuid, price: int) {
    exists c :: c in calls && c.Update? && (c.id, c.provider, c.amount) == (id, provider, price)
  }

  /** A bid no longer active was ended by a call of whoever may end it. */
  predicate Ended(calls: seq<Call>, id: Uuid, bid: Bid, customer: Uuid) {
    bid.status != Active ==> exists c :: c in calls && Ends(c, id, bid, customer)
  }

  predicate Ends(c: Call, id: Uuid, bid: Bid, customer: Uuid) {
    match bid.status
    case Active => false
    case Withdrawn => c.Withdraw? && (c.id, c.provider) == (id, bid.provider)
    case Awarded => c.Award? && (c.job, c.id, c.customer) == (bid.job, id, customer)
    case NotSelected => c.Award? && c.id != id && (c.job, c.customer) == (bid.job, customer)
    case Expired => c.Expire? && c.job == bid.job
  }

  predicate Accounted(calls: seq<Call>, db: Db, id: Uuid)
    requires id in db.bids && db.bids[id].job in db.jobs
  {
    && Made(calls, id, db.bids[id])
    && Repricings(calls, id, db.bids[id])
    && Ended(calls, id, db.bids[id], db.jobs[db.bids[id].job].listing.customer)
  }

  lemma MadeLater(calls: seq<Call>, c: Call, id: Uuid, a: Bid, b: Bid)
    requires Made(calls, id, a) && (b.job, b.provider, b.original) == (a.job, a.provider, a.original)
    ensures Made(calls + [c], id, b)
  {
    var m :| m in calls && Makes(m, id, a);
    assert m in calls + [c] && Makes(m, id, b);
  }

  lemma AskedLater(calls: seq<Call>, c: Call, id: Uuid, provider: Uuid, price: int)
    requires AskedFor(calls, id, provider, price)
    ensures AskedFor(calls + [c], id, provider, price)
  {
    var u :| u in calls && u.Update? && (u.id, u.provider, u.amount) == (id, provider, price);
    assert u in calls + [c];
  }

  lemma RepricedLater(calls: seq<Call>, c: Call, id: Uuid, a: Bid, b: Bid)
    requires Repricings(calls, id, a) && b.provider == a.provider
    requires PricePath(b) == PricePath(a) ||
      (c.Update? && (c.id, c.provider) == (id, b.provider) && PricePath(b) == PricePath(a) + [c.amount])
    ensures Repricings(calls + [c], id, b)
  {
    forall k | 1 <= k < |PricePath(b)| ensures AskedFor(calls + [c], id, b.provider, PricePath(b)[k]) {
      if k < |PricePath(a)| {
        AskedLater(calls, c, id, a.provider, PricePath(a)[k]);
      } else {
        assert c in calls + [c];
      }
    }
  }

  lemma EndedLater(calls: seq<Call>, c: Call, id: Uuid, a: Bid, b: Bid, customer: Uuid)
    requires Ended(calls, id, a, customer)
    requires b == a || Ends(c, id, b, customer) || b.status == Active
    ensures Ended(calls + [c], id, b, customer)
  {
    if b.status != Active {
      if b == a {
        var e :| e in calls && Ends(e, id, a, customer);
        assert e in calls + [c];
      } else {
        assert c in calls + [c];
      }
    }
  }

  lemma AccountedEdit(calls: seq<Call>, h: History, c: Call, id: Uuid)
    requires ForeignKeys(h.db) && id in h.db.bids && Accounted(calls, h.db, id)
    ensures ForeignKeys(Step(h, c).db) && id in Step(h, c).db.bids && Accounted(calls + [c], Step(h, c).db, id)
  {
    var a := h.db.bids[id];
    StepKeepsForeignKeys(h, c);
    StrangersChangeNothing(h, c, id);
    DeadlineStep(h, c, a.job);
    var b := Step(h, c).db.bids[id];
    assert b.job == a.job;
    MadeLater(calls, c, id, a, b);
    RepricedLater(calls, c, id, a, b);
    EndedLater(calls, c, id, a, b, h.db.jobs[a.job].listing.customer);
  }

  lemma NewBid(h: History, c: Call, id: Uuid)
    requires ForeignKeys(h.db) && id !in h.db.bids && id in Step(h, c).db.bids
    ensures var bid := Step(h, c).db.bids[id]; Makes(c, id, bid) && bid.updates == [] && bid.status == Active
  {
  }

  lemma AccountedNew(calls: seq<Call>, h: History, c: Call, id: Uuid)
    requires ForeignKeys(h.db) && id !in h.db.bids && id in Step(h, c).db.bids
    ensures ForeignKeys(Step(h, c).db) && Accounted(calls + [c], Step(h, c).db, id)
  {
    StepKeepsForeignKeys(h, c);
    NewBid(h, c, id);
    assert c in calls + [c];
  }

  /** In every run each bid's making, each of its prices and its end is a call by whoever was entitled to it. */
  lemma {:induction false} EveryBidAccounted(calls: seq<Call>, id: Uuid)
    requires id in Run(calls).db.bids
    ensures Accounted(calls, Run(calls).db, id)
  {
    if calls != [] {
      var init, last := calls[..|calls| - 1], calls[|calls| - 1];
      assert calls == init + [last];
      if id in Run(init).db.bids {
        EveryBidAccounted(init, id);
        AccountedEdit(init, Run(init), last, id);
      } else {
        AccountedNew(init, Run(init), last, id);
      }
    }
  }

  /** A job's award was made, for that bid, by the job's own customer. */
  lemma AwardedByOwner(calls: seq<Call>, j: Uuid, b: Uuid)
    requires j in Run(calls).db.jobs && Run(calls).db.jobs[j].awardedBid == Some(b)
    ensures Award(j, b, Run(calls).db.jobs[j].listing.customer) in calls
  {
    AwardNamesAwardedBid(calls, j, b);
    EveryBidAccounted(calls, b);
    var bid := Run(calls).db.bids[b];
    var c :| c in calls && Ends(c, b, bid, Run(calls).db.jobs[j].listing.customer);
    assert c == Award(j, b, Run(calls).db.jobs[j].listing.customer);
  }

  // ----- replays of a run -----

  /** The statuses a run reaches; an awarded job names its winner. */
  predicate StatusReached(row: Job) {
    && row.status in {Open, JobAwarded, Closed, ClosedZeroBids}
    && (row.status == JobAwarded ==> row.awardedBid.Some?)
  }

  lemma StatusReachedStep(h: History, c: Call, j: Uuid)
    requires ForeignKeys(h.db) && j in Step(h, c).db.jobs && (j in h.db.jobs ==> StatusReached(h.db.jobs[j]))
    ensures StatusReached(Step(h, c).db.jobs[j])
  {
  }

  lemma {:induction false} StatusesReached(calls: seq<Call>, j: Uuid)
    requires j in Run(calls).db.jobs
    ensures StatusReached(Run(calls).db.jobs[j])
  {
    if calls != [] {
      var init, last := calls[..|calls| - 1], calls[|calls| - 1];
      if j in Run(init).db.jobs {
        StatusesReached(init, j);
      }
      StatusReachedStep(Run(init), last, j);
    }
  }

  /** The job has its winner, and none of its bids can still be changed. */
  ghost predicate Decided(db: Db, j: Uuid)
    requires j in db.jobs
  {
    && db.jobs[j].awardedBid.Some?
    && forall b :: b in db.bids && db.bids[b].job == j ==> db.bids[b].status != Active
  }

  lemma AwardedIsDecided(calls: seq<Call>, j: Uuid)
    requires j in Run(calls).db.jobs && Run(calls).db.jobs[j].status == JobAwarded
    ensures Decided(Run(calls).db, j)
  {
    StatusesReached(calls, j);
    forall b | b in Run(calls).db.bids && Run(calls).db.bids[b].job == j
      ensures Run(calls).db.bids[b].status != Active
    {
      FinalStatuses(calls, b);
    }
  }

  /**
   The replay after a run: refused while the auction is open, given only once it is decided, and then with the
   least price and the number of prices that the bid rows record.
   */
  method ReplayOfRun(
      calls: seq<Call>, j: Uuid, title: string, category: string, rows: seq<Event>, zone: Instant -> int)
    returns (reply: Result<Replay, ReplayError>)
    requires multiset(rows) == multiset(RowsOf(Run(calls).db.events, j)) && InOrder(rows)
    ensures j !in Run(calls).db.jobs ==> reply == Failure(NotFound)
    ensures j in Run(calls).db.jobs && Run(calls).db.jobs[j].status == Open ==> reply == Failure(Forbidden)
    ensures reply.Success? <==> j in Run(calls).db.jobs && Run(calls).db.jobs[j].status == JobAwarded
    ensures reply.Success? ==> Decided(Run(calls).db, j)
    ensures reply.Success? && Run(calls).db.jobs[j].listing.auctionType == Live ==>
      && IsLowest(Run(calls).db.bids, Logged(Run(calls), j), reply.value.winningBid)
      && reply.value.bidCount == |Marks(Run(calls), j)|
  {
    var db := PlayRun(calls);
    AmountsOfRows(calls, j, rows);
    var posting := if j in db.jobs then Some(Posting(title, category, db.jobs[j])) else None;
    reply := GetAuctionReplay(posting, rows, zone);
    if j in db.jobs {
      StatusesReached(calls, j);
    }
    if reply.Success? {
      AwardedIsDecided(calls, j);
      if db.jobs[j].listing.auctionType == Live {
        ReplayMatchesBids(calls, j, rows, reply.value.winningBid);
        AnyRowOrderSameCount(rows, RowsOf(db.events, j));
        ReplayCountMatchesBids(calls, j);
      }
    }
  }

  lemma AmountsOfRows(calls: seq<Call>, j: Uuid, rows: seq<Event>)
    requires multiset(rows) == multiset(RowsOf(Run(calls).db.events, j))
    ensures PositiveAmounts(rows)
  {
    RunKeepsInv(calls);
    RowsOfMembers(Run(calls).db.events, j);
    forall e | e in rows ensures e.amount > 0 {
      assert e in multiset(rows);
      assert e in RowsOf(Run(calls).db.events, j);
    }
  }
}
