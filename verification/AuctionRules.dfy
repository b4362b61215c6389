/**
 What each engine call promises, on any tables and in the terms of the rows alone: when it is
 accepted, with which error it is refused, what it changes and what it leaves. Amounts are cents,
 times microseconds; five minutes are 300_000_000.
 */
module AuctionRules {
  import opened Wrappers
  import opened AuctionModel

  // ----- what may change -----

  /** Only the row `id` may differ between the tables. */
  ghost predicate OnlyRow<T>(before: map<Uuid, T>, after: map<Uuid, T>, id: Uuid) {
    after.Keys == before.Keys + {id} && forall k :: k in before && k != id ==> after[k] == before[k]
  }

  predicate SameTimes(a: Job, b: Job) {
    (b.endsAt, b.extensions) == (a.endsAt, a.extensions)
  }

  /** The deadline moved by five minutes, and one extension was used. */
  predicate Extended(a: Job, b: Job) {
    a.endsAt.Some? && b.endsAt == Some(a.endsAt.value + 300_000_000) && b.extensions == a.extensions + 1
  }

  /** A live job with at most five minutes to go and an extension left of its three. */
  predicate Sniped(row: Job, now: Instant) {
    && row.listing.auctionType == Live && row.extensions < 3
    && row.endsAt.Some? && row.endsAt.value - now <= 300_000_000
  }

  predicate ExtendedIfSniped(a: Job, b: Job, now: Instant) {
    if Sniped(a, now) then Extended(a, b) else SameTimes(a, b)
  }

  /** Everything but the deadline, the extensions and the bid count. */
  predicate SameOtherwise(a: Job, b: Job) {
    (b.listing, b.status, b.awardedBid, b.awardedProvider) == (a.listing, a.status, a.awardedBid, a.awardedProvider)
  }

  /** A live job's log gets this event, any other log nothing. */
  predicate Logs(before: Db, after: Db, e: Event)
    requires e.job in before.jobs
  {
    after.events == if before.jobs[e.job].listing.auctionType == Live then before.events + [e] else before.events
  }

  predicate OpenAt(row: Job, at: Instant) {
    row.status == Open && (row.endsAt.Some? ==> at < row.endsAt.value)
  }

  /** No bid of the provider on the job, whatever its status. */
  ghost predicate NoBidYet(db: Db, job: Uuid, provider: Uuid) {
    forall b :: b in db.bids && db.bids[b].job == job ==> db.bids[b].provider != provider
  }

  // ----- placing -----

  /** Accepted exactly for a positive amount within the starting bid, on a job that takes bids, once a provider. */
  lemma PlaceAccepted(
      db: Db, job: Uuid, provider: Uuid, amount: int, id: Uuid, checkedAt: Instant, now: Instant)
    ensures PlaceBid(db, job, provider, amount, id, checkedAt, now).result.Success? <==>
      && amount > 0 && job in db.jobs && OpenAt(db.jobs[job], checkedAt)
      && (db.jobs[job].listing.startingBid.Some? ==> amount <= db.jobs[job].listing.startingBid.value)
      && NoBidYet(db, job, provider) && id !in db.bids
  {
  }

  /** The first check that fails gives the error, and the tables stay as they were. */
  lemma PlaceRefused(
      db: Db, job: Uuid, provider: Uuid, amount: int, id: Uuid, checkedAt: Instant, now: Instant, error: BidError)
    requires PlaceBid(db, job, provider, amount, id, checkedAt, now).result == Failure(error)
    ensures PlaceBid(db, job, provider, amount, id, checkedAt, now).db == db
    ensures error == InvalidAmount <==> amount <= 0
    ensures error == JobNotFound <==> amount > 0 && job !in db.jobs
    ensures error == AuctionNotActive <==> amount > 0 && job in db.jobs && db.jobs[job].status != Open
    ensures error == AuctionClosed <==>
      amount > 0 && job in db.jobs && db.jobs[job].status == Open && !OpenAt(db.jobs[job], checkedAt)
    ensures error == AboveStartingBid <==>
      && amount > 0 && job in db.jobs && OpenAt(db.jobs[job], checkedAt)
      && db.jobs[job].listing.startingBid.Some? && amount > db.jobs[job].listing.startingBid.value
    ensures error in {InvalidAmount, JobNotFound, AuctionNotActive, AuctionClosed, AboveStartingBid, AlreadyBid}
  {
  }

  /** One new active bid at this price; one more in the count; the log and the deadline if the job is live. */
  lemma PlaceEffect(db: Db, job: Uuid, provider: Uuid, amount: int, id: Uuid, checkedAt: Instant, now: Instant)
    requires PlaceBid(db, job, provider, amount, id, checkedAt, now).result.Success?
    ensures var r := PlaceBid(db, job, provider, amount, id, checkedAt, now); var after := r.db;
      && OnlyRow(db.bids, after.bids, id) && OnlyRow(db.jobs, after.jobs, job) && job in db.jobs
      && r.result.value == after.bids[id]
      && var a, b, bid := db.jobs[job], after.jobs[job], after.bids[id];
      && (bid.job, bid.provider, bid.amount, bid.original, bid.status) == (job, provider, amount, amount, Active)
      && bid.updates == []
      && (bid.offerAccepted <==> a.listing.offer.Some? && a.listing.offer.value >= amount)
      && SameOtherwise(a, b) && b.bidCount == a.bidCount + 1 && ExtendedIfSniped(a, b, now)
      && Logs(db, after, Event(job, amount, BidPlaced, now))
  {
  }

  // ----- updating -----

  /** Only the provider, only an active bid, only downwards. */
  lemma UpdateAccepted(db: Db, id: Uuid, provider: Uuid, amount: int, now: Instant)
    requires ForeignKeys(db)
    ensures UpdateBid(db, id, provider, amount, now).result.Success? <==>
      && id in db.bids && db.bids[id].provider == provider && db.bids[id].status == Active
      && 0 < amount < db.bids[id].amount
  {
  }

  lemma UpdateRefused(db: Db, id: Uuid, provider: Uuid, amount: int, now: Instant, error: BidError)
    requires ForeignKeys(db) && UpdateBid(db, id, provider, amount, now).result == Failure(error)
    ensures UpdateBid(db, id, provider, amount, now).db == db
    ensures error == InvalidAmount <==> amount <= 0
    ensures error == BidNotFound <==> amount > 0 && id !in db.bids
    ensures error == NotBidOwner <==> amount > 0 && id in db.bids && db.bids[id].provider != provider
    ensures error == BidNotActive <==>
      amount > 0 && id in db.bids && db.bids[id].provider == provider && db.bids[id].status != Active
    ensures error in {InvalidAmount, BidNotFound, NotBidOwner, BidNotActive, BelowMinimum}
  {
  }

  lemma UpdateEffect(db: Db, id: Uuid, provider: Uuid, amount: int, now: Instant)
    requires ForeignKeys(db) && UpdateBid(db, id, provider, amount, now).result.Success?
    ensures var r := UpdateBid(db, id, provider, amount, now); var after := r.db;
      && id in db.bids && OnlyRow(db.bids, after.bids, id) && OnlyRow(db.jobs, after.jobs, db.bids[id].job)
      && r.result.value == after.bids[id]
      && var was, bid := db.bids[id], after.bids[id];
      && (bid.job, bid.provider, bid.original, bid.offerAccepted, bid.status)
         == (was.job, was.provider, was.original, was.offerAccepted, Active)
      && bid.amount == amount && bid.updates == was.updates + [was.amount]
      && var a, b := db.jobs[was.job], after.jobs[was.job];
      && SameOtherwise(a, b) && b.bidCount == a.bidCount && ExtendedIfSniped(a, b, now)
      && Logs(db, after, Event(was.job, amount, BidUpdated, now))
  {
  }

  // ----- withdrawing -----

  lemma WithdrawAccepted(db: Db, id: Uuid, provider: Uuid, now: Instant)
    requires ForeignKeys(db)
    ensures WithdrawBid(db, id, provider, now).result.Success? <==>
      id in db.bids && db.bids[id].provider == provider && db.bids[id].status == Active
  {
  }

  lemma WithdrawRefused(db: Db, id: Uuid, provider: Uuid, now: Instant, error: BidError)
    requires ForeignKeys(db) && WithdrawBid(db, id, provider, now).result == Failure(error)
    ensures WithdrawBid(db, id, provider, now).db == db
    ensures error == BidNotFound <==> id !in db.bids
    ensures error == NotBidOwner <==> id in db.bids && db.bids[id].provider != provider
    ensures error in {BidNotFound, NotBidOwner, BidNotActive}
  {
  }

  lemma WithdrawEffect(db: Db, id: Uuid, provider: Uuid, now: Instant)
    requires ForeignKeys(db) && WithdrawBid(db, id, provider, now).result.Success?
    ensures var r := WithdrawBid(db, id, provider, now); var after := r.db;
      && id in db.bids && OnlyRow(db.bids, after.bids, id) && OnlyRow(db.jobs, after.jobs, db.bids[id].job)
      && r.result.value == after.bids[id]
      && after.bids[id].status == Withdrawn && after.bids[id].(status := Active) == db.bids[id]
      && var a, b := db.jobs[db.bids[id].job], after.jobs[db.bids[id].job];
      && SameOtherwise(a, b) && SameTimes(a, b)
      && (a.bidCount >= 1 ==> b.bidCount == a.bidCount - 1) && (a.bidCount < 1 ==> b.bidCount == 0)
      && Logs(db, after, Event(db.bids[id].job, db.bids[id].amount, BidWithdrawn, now))
  {
  }

  // ----- accepting the offer -----

  lemma AcceptAccepted(db: Db, job: Uuid, provider: Uuid, id: Uuid, checkedAt: Instant)
    ensures AcceptOffer(db, job, provider, id, checkedAt).result.Success? <==>
      && job in db.jobs && OpenAt(db.jobs[job], checkedAt)
      && db.jobs[job].listing.offer.Some? && db.jobs[job].listing.offer.value > 0
      && NoBidYet(db, job, provider) && id !in db.bids
  {
  }

  lemma AcceptRefused(db: Db, job: Uuid, provider: Uuid, id: Uuid, checkedAt: Instant, error: BidError)
    requires AcceptOffer(db, job, provider, id, checkedAt).result == Failure(error)
    ensures AcceptOffer(db, job, provider, id, checkedAt).db == db
    ensures error == JobNotFound <==> job !in db.jobs
    ensures error == InvalidAmount <==> job in db.jobs && db.jobs[job].listing.offer.None?
    ensures error == AuctionNotActive <==>
      job in db.jobs && db.jobs[job].listing.offer.Some? && db.jobs[job].status != Open
    ensures error == AuctionClosed <==>
      && job in db.jobs && db.jobs[job].listing.offer.Some?
      && db.jobs[job].status == Open && !OpenAt(db.jobs[job], checkedAt)
    ensures error == DatabaseError <==>
      && job in db.jobs && OpenAt(db.jobs[job], checkedAt)
      && db.jobs[job].listing.offer.Some? && db.jobs[job].listing.offer.value <= 0
    ensures error in {JobNotFound, InvalidAmount, AuctionNotActive, AuctionClosed, DatabaseError, AlreadyBid}
  {
  }

  /** Even on a live job no event and no extension. */
  lemma AcceptEffect(db: Db, job: Uuid, provider: Uuid, id: Uuid, checkedAt: Instant)
    requires AcceptOffer(db, job, provider, id, checkedAt).result.Success?
    ensures var r := AcceptOffer(db, job, provider, id, checkedAt); var after := r.db;
      && OnlyRow(db.bids, after.bids, id) && OnlyRow(db.jobs, after.jobs, job) && job in db.jobs
      && r.result.value == after.bids[id] && after.events == db.events
      && var a, b, bid := db.jobs[job], after.jobs[job], after.bids[id];
      && (bid.job, bid.provider, bid.status, bid.offerAccepted) == (job, provider, Active, true)
      && bid.updates == [] && bid.amount == bid.original && a.listing.offer == Some(bid.amount)
      && SameOtherwise(a, b) && SameTimes(a, b) && b.bidCount == a.bidCount + 1
  {
  }

  // ----- awarding -----

  /** Anyone but the job's customer is refused, and nothing changes. */
  lemma OthersCannotAward(db: Db, job: Uuid, id: Uuid, customer: Uuid)
    requires job in db.jobs && db.jobs[job].listing.customer != customer
    ensures AwardBid(db, job, id, customer).result == Failure(PermissionDenied)
    ensures AwardBid(db, job, id, customer).db == db
  {
  }

  lemma AwardAccepted(db: Db, job: Uuid, id: Uuid, customer: Uuid)
    ensures AwardBid(db, job, id, customer).result.Success? <==>
      && job in db.jobs && db.jobs[job].listing.customer == customer
      && id in db.bids && db.bids[id].job == job && db.bids[id].status == Active
  {
  }

  lemma AwardRefused(db: Db, job: Uuid, id: Uuid, customer: Uuid, error: BidError)
    requires AwardBid(db, job, id, customer).result == Failure(error)
    ensures AwardBid(db, job, id, customer).db == db
    ensures error == JobNotFound <==> job !in db.jobs
    ensures error == PermissionDenied <==> job in db.jobs && db.jobs[job].listing.customer != customer
    ensures error == BidNotFound <==>
      job in db.jobs && db.jobs[job].listing.customer == customer && !(id in db.bids && db.bids[id].job == job)
    ensures error in {JobNotFound, PermissionDenied, BidNotFound, BidNotActive}
  {
  }

  /** The winner, the losers among the active bids of the job, and nobody else. */
  lemma AwardEffect(db: Db, job: Uuid, id: Uuid, customer: Uuid)
    requires AwardBid(db, job, id, customer).result.Success?
    ensures var r := AwardBid(db, job, id, customer); var after := r.db;
      && job in db.jobs && id in db.bids && after.bids.Keys == db.bids.Keys
      && OnlyRow(db.jobs, after.jobs, job) && after.events == db.events && r.result.value == after.bids[id]
      && (forall b :: b in db.bids ==>
           after.bids[b] ==
           if b == id then db.bids[b].(status := Awarded)
           else if db.bids[b].job == job && db.bids[b].status == Active then db.bids[b].(status := NotSelected)
           else db.bids[b])
      && var x, y := db.jobs[job], after.jobs[job];
      && SameTimes(x, y) && (y.listing, y.bidCount) == (x.listing, x.bidCount)
      && y.status == JobAwarded && y.awardedBid == Some(id) && y.awardedProvider == Some(db.bids[id].provider)
  {
  }

  // ----- expiring -----

  /** The bids of a job that are active. */
  ghost predicate HasActive(db: Db, job: Uuid) {
    exists b :: b in db.bids && db.bids[b].job == job && db.bids[b].status == Active
  }

  /** The bids that are not as they were. */
  function Changed(before: Db, after: Db): set<Uuid>
    requires after.bids.Keys == before.bids.Keys
  {
    set b | b in before.bids && after.bids[b] != before.bids[b]
  }

  lemma CountActive(db: Db, job: Uuid)
    ensures |ActiveBids(db, job)| > 0 <==> HasActive(db, job)
  {
    if b :| b in db.bids && db.bids[b].job == job && db.bids[b].status == Active {
      assert b in ActiveBids(db, job);
    }
    if |ActiveBids(db, job)| > 0 {
      var b :| b in ActiveBids(db, job);
    }
  }

  /** Every active bid of the job expires, and no other bid changes; the reply is their number. */
  lemma ExpireBids(db: Db, job: Uuid)
    ensures var r := ExpireAuction(db, job); var after := r.db;
      && after.bids.Keys == db.bids.Keys && after.events == db.events
      && (forall b :: b in db.bids ==>
           after.bids[b] ==
           if db.bids[b].job == job && db.bids[b].status == Active then db.bids[b].(status := Expired) else db.bids[b])
      && r.result == Success(|Changed(db, after)|)
  {
    assert Changed(db, ExpireAuction(db, job).db) == ActiveBids(db, job);
  }

  /** The job's status tells whether there was an active bid; nothing else of any job changes. */
  lemma ExpireJob(db: Db, job: Uuid)
    ensures var after := ExpireAuction(db, job).db;
      && after.jobs.Keys == db.jobs.Keys
      && (forall j :: j in db.jobs && j != job ==> after.jobs[j] == db.jobs[j])
      && (job in db.jobs ==>
           && after.jobs[job].status == (if HasActive(db, job) then Closed else ClosedZeroBids)
           && after.jobs[job].(status := db.jobs[job].status) == db.jobs[job])
  {
    CountActive(db, job);
  }
}
