/**
 The engine itself: one method per call, one assignment per SQL statement.
 Each method is proved to leave exactly the tables, and give exactly the reply, of the
 function of the same name in `AuctionModel`.
 */
module BiddingEngine {
  import opened Wrappers
  import opened AuctionModel
  import opened AuctionReplay
  import M = AuctionModel

  const RECENT_EVENTS: int := 50

  class Engine {
    var jobs: map<Uuid, Job>
    var bids: map<Uuid, Bid>
    var events: seq<Event>

    ghost function Tables(): Db
      reads this
    {
      Db(jobs, bids, events)
    }

    constructor ()
      ensures Tables() == Db(map[], map[], [])
    {
      jobs, bids, events := map[], map[], [];
    }

    /** INSERT INTO bids: false on a unique violation, which leaves the table as it was. */
    method InsertBid(newId: Uuid, bid: Bid) returns (inserted: bool)
      modifies this`bids
      ensures inserted <==> !Conflicts(old(bids), bid.job, bid.provider, newId)
      ensures bids == if inserted then old(bids)[newId := bid] else old(bids)
    {
      inserted :=
        newId !in bids && forall b :: b in bids ==> !(bids[b].job == bid.job && bids[b].provider == bid.provider);
      if inserted {
        bids := bids[newId := bid];
      }
    }

    /** The event row and the anti-snipe check that follow a live bid or update. */
    method RecordLiveBid(job: Uuid, amount: int, kind: EventKind, now: Instant)
      requires job in jobs
      modifies this`jobs, this`events
      ensures events == old(events) + [Event(job, amount, kind, now)]
      ensures jobs == old(jobs)[job := AntiSnipe(old(jobs)[job], now)]
    {
      events := events + [Event(job, amount, kind, now)];
      var snipeWindow := InSnipeWindow(jobs[job], now);
      if snipeWindow {
        var row := jobs[job];
        jobs := jobs[job := row.(endsAt := Some(row.endsAt.value + SNIPE_WINDOW), extensions := row.extensions + 1)];
      }
    }

    method PlaceBid(job: Uuid, provider: Uuid, amount: int, newId: Uuid, checkedAt: Instant, now: Instant)
      returns (result: Result<Bid, BidError>)
      modifies this
      ensures Reply(Tables(), result) == M.PlaceBid(old(Tables()), job, provider, amount, newId, checkedAt, now)
    {
      if amount <= 0 {
        return Failure(InvalidAmount);
      }
      if job !in jobs {
        return Failure(JobNotFound);
      }
      var row := jobs[job];
      if row.status != Open {
        return Failure(AuctionNotActive);
      }
      if row.endsAt.Some? && row.endsAt.value <= checkedAt {
        return Failure(AuctionClosed);
      }
      if row.listing.startingBid.Some? && amount > row.listing.startingBid.value {
        return Failure(AboveStartingBid);
      }
      var bid := Bid(job, provider, amount, amount, OfferAccepted(row.listing.offer, amount), Active, []);
      var inserted := InsertBid(newId, bid);
      if !inserted {
        return Failure(AlreadyBid);
      }
      jobs := jobs[job := jobs[job].(bidCount := jobs[job].bidCount + 1)];
      if row.listing.auctionType == Live {
        RecordLiveBid(job, amount, BidPlaced, now);
      }
      return Success(bid);
    }

    method UpdateBid(id: Uuid, provider: Uuid, amount: int, now: Instant) returns (result: Result<Bid, BidError>)
      requires ForeignKeys(Tables())
      modifies this
      ensures Reply(Tables(), result) == M.UpdateBid(old(Tables()), id, provider, amount, now)
    {
      if amount <= 0 {
        return Failure(InvalidAmount);
      }
      if id !in bids {
        return Failure(BidNotFound);
      }
      var existing := bids[id];
      if existing.provider != provider {
        return Failure(NotBidOwner);
      }
      if existing.status != Active {
        return Failure(BidNotActive);
      }
      if amount >= existing.amount {
        return Failure(BelowMinimum);
      }
      bids := bids[id := bids[id].(amount := amount, updates := bids[id].updates + [existing.amount])];
      var bid := bids[id];
      if jobs[bid.job].listing.auctionType == Live {
        RecordLiveBid(bid.job, amount, BidUpdated, now);
      }
      return Success(bid);
    }

    method WithdrawBid(id: Uuid, provider: Uuid, now: Instant) returns (result: Result<Bid, BidError>)
      requires ForeignKeys(Tables())
      modifies this
      ensures Reply(Tables(), result) == M.WithdrawBid(old(Tables()), id, provider, now)
    {
      if id !in bids {
        return Failure(BidNotFound);
      }
      var existing := bids[id];
      if existing.provider != provider {
        return Failure(NotBidOwner);
      }
      if existing.status != Active {
        return Failure(BidNotActive);
      }
      bids := bids[id := bids[id].(status := Withdrawn)];
      var bid := bids[id];
      var row := jobs[existing.job];
      jobs := jobs[existing.job := row.(bidCount := if row.bidCount - 1 > 0 then row.bidCount - 1 else 0)];
      if jobs[bid.job].listing.auctionType == Live {
        events := events + [Event(bid.job, bid.amount, BidWithdrawn, now)];
      }
      return Success(bid);
    }

    method AcceptOffer(job: Uuid, provider: Uuid, newId: Uuid, checkedAt: Instant)
      returns (result: Result<Bid, BidError>)
      modifies this
      ensures Reply(Tables(), result) == M.AcceptOffer(old(Tables()), job, provider, newId, checkedAt)
    {
      if job !in jobs {
        return Failure(JobNotFound);
      }
      var row := jobs[job];
      if row.listing.offer.None? {
        return Failure(InvalidAmount);
      }
      if row.status != Open {
        return Failure(AuctionNotActive);
      }
      if row.endsAt.Some? && row.endsAt.value <= checkedAt {
        return Failure(AuctionClosed);
      }
      if row.listing.offer.value <= 0 {
        return Failure(DatabaseError);
      }
      var bid := Bid(job, provider, row.listing.offer.value, row.listing.offer.value, true, Active, []);
      var inserted := InsertBid(newId, bid);
      if !inserted {
        return Failure(AlreadyBid);
      }
      jobs := jobs[job := jobs[job].(bidCount := jobs[job].bidCount + 1)];
      return Success(bid);
    }

    method AwardBid(job: Uuid, id: Uuid, customer: Uuid) returns (result: Result<Bid, BidError>)
      modifies this
      ensures Reply(Tables(), result) == M.AwardBid(old(Tables()), job, id, customer)
    {
      if job !in jobs {
        return Failure(JobNotFound);
      }
      if jobs[job].listing.customer != customer {
        return Failure(PermissionDenied);
      }
      if id !in bids {
        return Failure(BidNotFound);
      }
      var bid := bids[id];
      if bid.job != job {
        return Failure(BidNotFound);
      }
      if bid.status != Active {
        return Failure(BidNotActive);
      }
      bids := bids[id := bids[id].(status := Awarded)];
      var awarded := bids[id];
      bids := Retire(bids, job, Some(id), NotSelected);
      jobs := jobs[job := jobs[job].(
        status := JobAwarded, awardedBid := Some(id), awardedProvider := Some(bid.provider))];
      return Success(awarded);
    }

    method ExpireAuction(job: Uuid) returns (expired: int)
      modifies this
      ensures Reply(Tables(), Success(expired)) == M.ExpireAuction(old(Tables()), job)
    {
      expired := |ActiveBids(Db(jobs, bids, events), job)|;
      bids := Retire(bids, job, None, Expired);
      var status := if expired > 0 then Closed else ClosedZeroBids;
      if job in jobs {
        jobs := jobs[job := jobs[job].(status := status)];
      }
    }

    /** The least active amount of a live job, its stored bid count, its deadline and its 50 newest events. */
    method GetLiveAuctionState(job: Uuid)
      returns (result: Result<LiveState, BidError>)
      ensures job in jobs && jobs[job].status == Open && jobs[job].listing.auctionType == Live <==> result.Success?
      ensures result.Success? ==>
        && IsLowest(bids, ActiveBids(Tables(), job), result.value.lowestBid)
        && result.value.bidCount == jobs[job].bidCount
        && result.value.endsAt == jobs[job].endsAt
        && result.value.extensions == jobs[job].extensions
        && Newest(result.value.recent, RowsOf(events, job), 50)
      ensures result.Failure? ==>
        result.error == if job in jobs && jobs[job].status == Open then FeatureNotEnabled else JobNotFound
    {
      if job !in jobs || jobs[job].status != Open {
        return Failure(JobNotFound);
      }
      if jobs[job].listing.auctionType != Live {
        return Failure(FeatureNotEnabled);
      }
      // MIN(amount_cents), with 0 standing in for the NULL of an empty table.
      var active := ActiveBids(Db(jobs, bids, events), job);
      var lowest := 0;
      var rest: set<Uuid> := active;
      while rest != {}
        invariant rest <= active
        invariant IsLowest(bids, active - rest, lowest)
      {
        var b :| b in rest;
        if rest == active || bids[b].amount < lowest {
          lowest := bids[b].amount;
        }
        assert active - (rest - {b}) == (active - rest) + {b};
        rest := rest - {b};
      }
      var recent := Capped(Ordered(RowsOf(events, job)), RECENT_EVENTS);
      CappedIsNewest(Ordered(RowsOf(events, job)), RowsOf(events, job), RECENT_EVENTS);
      return Success(LiveState(lowest, jobs[job].bidCount, jobs[job].endsAt, jobs[job].extensions, recent));
    }
  }
}
