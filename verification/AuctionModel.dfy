/**
 The tables behind the bidding engine and what each engine call does to them.

 Every function here takes the whole database and the values the call reads from the
 outside (clock readings, the freshly drawn row id) and returns the database and the
 reply. `BiddingEngine` performs the same calls statement by statement and is proved
 against these functions; `AuctionRuns` proves what whole runs of them keep.
 */
module AuctionModel {
  import opened Wrappers

  datatype Uuid = Uuid(value: int)

  /** Microseconds since the epoch, the resolution of a TIMESTAMPTZ. */
  type Instant = int

  const SNIPE_WINDOW: int := 5 * 60 * 1_000_000
  const MAX_EXTENSIONS: int := 3

  datatype AuctionType = Sealed | Live

  datatype JobStatus = Draft | Open | Closed | ClosedZeroBids | JobAwarded | Completed | Cancelled

  datatype BidStatus = Active | Awarded | NotSelected | Withdrawn | Expired

  /** The columns of a job the engine only reads. */
  datatype Listing = Listing(customer: Uuid, startingBid: Option<int>, offer: Option<int>, auctionType: AuctionType)

  datatype Job = Job(
    listing: Listing,
    status: JobStatus,
    endsAt: Option<Instant>,
    extensions: int,
    bidCount: int,
    awardedBid: Option<Uuid>,
    awardedProvider: Option<Uuid>)

  /** `updates` lists the amounts a bid had before each update, oldest first. */
  datatype Bid = Bid(
    job: Uuid,
    provider: Uuid,
    amount: int,
    original: int,
    offerAccepted: bool,
    status: BidStatus,
    updates: seq<int>)

  datatype EventKind = BidPlaced | BidUpdated | BidWithdrawn

  datatype Event = Event(job: Uuid, amount: int, kind: EventKind, at: Instant)

  datatype Db = Db(jobs: map<Uuid, Job>, bids: map<Uuid, Bid>, events: seq<Event>)

  datatype BidError =
    | AuctionClosed
    | AuctionNotActive
    | BelowMinimum
    | AlreadyBid
    | NotBidOwner
    | BidNotActive
    | BidNotFound
    | JobNotFound
    | InvalidAmount
    | AboveStartingBid
    | PermissionDenied
    | FeatureNotEnabled
    | DatabaseError

  /** What get_live_auction_state reports. */
  datatype LiveState = LiveState(
    lowestBid: int,
    bidCount: int,
    endsAt: Option<Instant>,
    extensions: int,
    recent: seq<Event>)

  datatype Reply<T> = Reply(db: Db, result: Result<T, BidError>)

  /** The foreign key from bids to jobs. */
  ghost predicate ForeignKeys(db: Db) {
    forall b :: b in db.bids ==> db.bids[b].job in db.jobs
  }

  // ----- rows of one job -----

  /** A UNIQUE (job_id, provider_id) conflict, or a primary key already in use. */
  ghost predicate Conflicts(bids: map<Uuid, Bid>, job: Uuid, provider: Uuid, newId: Uuid) {
    newId in bids || exists b :: b in bids && bids[b].job == job && bids[b].provider == provider
  }

  /** Bids of a job that have not been withdrawn. */
  function Standing(db: Db, job: Uuid): set<Uuid> {
    set b | b in db.bids && db.bids[b].job == job && db.bids[b].status != Withdrawn
  }

  /** Bids of a job whose status is active; their number is what get_bid_count reports. */
  function ActiveBids(db: Db, job: Uuid): set<Uuid> {
    set b | b in db.bids && db.bids[b].job == job && db.bids[b].status == Active
  }

  /** `price` is the least amount among the rows `ids`, or 0 when there are none. */
  ghost predicate IsLowest(bids: map<Uuid, Bid>, ids: set<Uuid>, price: int)
    requires ids <= bids.Keys
  {
    if ids == {} then price == 0
    else (exists b :: b in ids && bids[b].amount == price) && forall b :: b in ids ==> price <= bids[b].amount
  }

  predicate OfferAccepted(offer: Option<int>, amount: int) {
    offer.Some? && amount <= offer.value
  }

  // ----- single statements -----

  function Earlier(a: Instant, b: Instant): Instant {
    if a < b then a else b
  }

  /** Inside the last five minutes, with an extension left. */
  predicate InSnipeWindow(row: Job, now: Instant) {
    row.endsAt.Some? && row.endsAt.value - SNIPE_WINDOW <= now && row.extensions < MAX_EXTENSIONS
  }

  function AntiSnipe(row: Job, now: Instant): Job {
    if InSnipeWindow(row, now)
    then row.(endsAt := Some(row.endsAt.value + SNIPE_WINDOW), extensions := row.extensions + 1)
    else row
  }

  /** Gives every active bid of the job, except `keep`, a final status. */
  function Retire(bids: map<Uuid, Bid>, job: Uuid, keep: Option<Uuid>, status: BidStatus): map<Uuid, Bid> {
    map b | b in bids ::
      if bids[b].job == job && Some(b) != keep && bids[b].status == Active then bids[b].(status := status) else bids[b]
  }

  // ----- the engine's calls -----

  ghost function PlaceBidError(db: Db, job: Uuid, provider: Uuid, amount: int, newId: Uuid, checkedAt: Instant)
    : Option<BidError>
  {
    if amount <= 0 then Some(InvalidAmount)
    else if job !in db.jobs then Some(JobNotFound)
    else
      var row := db.jobs[job];
      if row.status != Open then Some(AuctionNotActive)
      else if row.endsAt.Some? && row.endsAt.value <= checkedAt then Some(AuctionClosed)
      else if row.listing.startingBid.Some? && amount > row.listing.startingBid.value then Some(AboveStartingBid)
      else if Conflicts(db.bids, job, provider, newId) then Some(AlreadyBid)
      else None
  }

  /** `checkedAt` is the engine's clock at the deadline check, `now` the transaction's. */
  ghost function PlaceBid(db: Db, job: Uuid, provider: Uuid, amount: int, newId: Uuid, checkedAt: Instant, now: Instant)
    : Reply<Bid>
  {
    var error := PlaceBidError(db, job, provider, amount, newId, checkedAt);
    if error.Some? then Reply(db, Failure(error.value))
    else
      var row := db.jobs[job];
      var bid := Bid(job, provider, amount, amount, OfferAccepted(row.listing.offer, amount), Active, []);
      var counted := row.(bidCount := row.bidCount + 1);
      var live := row.listing.auctionType == Live;
      Reply(
        Db(db.jobs[job := if live then AntiSnipe(counted, now) else counted],
           db.bids[newId := bid],
           if live then db.events + [Event(job, amount, BidPlaced, now)] else db.events),
        Success(bid))
  }

  function UpdateBidError(db: Db, id: Uuid, provider: Uuid, amount: int): Option<BidError> {
    if amount <= 0 then Some(InvalidAmount)
    else if id !in db.bids then Some(BidNotFound)
    else if db.bids[id].provider != provider then Some(NotBidOwner)
    else if db.bids[id].status != Active then Some(BidNotActive)
    else if amount >= db.bids[id].amount then Some(BelowMinimum)
    else None
  }

  function UpdateBid(db: Db, id: Uuid, provider: Uuid, amount: int, now: Instant): Reply<Bid>
    requires ForeignKeys(db)
  {
    var error := UpdateBidError(db, id, provider, amount);
    if error.Some? then Reply(db, Failure(error.value))
    else
      var existing := db.bids[id];
      var bid := existing.(amount := amount, updates := existing.updates + [existing.amount]);
      var row := db.jobs[bid.job];
      var live := row.listing.auctionType == Live;
      Reply(
        Db(if live then db.jobs[bid.job := AntiSnipe(row, now)] else db.jobs,
           db.bids[id := bid],
           if live then db.events + [Event(bid.job, amount, BidUpdated, now)] else db.events),
        Success(bid))
  }

  function WithdrawBid(db: Db, id: Uuid, provider: Uuid, now: Instant): Reply<Bid>
    requires ForeignKeys(db)
  {
    if id !in db.bids then Reply(db, Failure(BidNotFound))
    else if db.bids[id].provider != provider then Reply(db, Failure(NotBidOwner))
    else if db.bids[id].status != Active then Reply(db, Failure(BidNotActive))
    else
      var bid := db.bids[id].(status := Withdrawn);
      var row := db.jobs[bid.job];
      var count := if row.bidCount - 1 > 0 then row.bidCount - 1 else 0;
      Reply(
        Db(db.jobs[bid.job := row.(bidCount := count)],
           db.bids[id := bid],
           if row.listing.auctionType == Live then db.events + [Event(bid.job, bid.amount, BidWithdrawn, now)]
           else db.events),
        Success(bid))
  }

  /** A job's offer is not constrained to be positive, but a bid's amount is: such an insert fails. */
  ghost function AcceptOfferError(db: Db, job: Uuid, provider: Uuid, newId: Uuid, checkedAt: Instant)
    : Option<BidError>
  {
    if job !in db.jobs then Some(JobNotFound)
    else
      var row := db.jobs[job];
      if row.listing.offer.None? then Some(InvalidAmount)
      else if row.status != Open then Some(AuctionNotActive)
      else if row.endsAt.Some? && row.endsAt.value <= checkedAt then Some(AuctionClosed)
      else if row.listing.offer.value <= 0 then Some(DatabaseError)
      else if Conflicts(db.bids, job, provider, newId) then Some(AlreadyBid)
      else None
  }

  /** Accepting an offer logs no event and never extends the deadline, live or not. */
  ghost function AcceptOffer(db: Db, job: Uuid, provider: Uuid, newId: Uuid, checkedAt: Instant): Reply<Bid> {
    var error := AcceptOfferError(db, job, provider, newId, checkedAt);
    if error.Some? then Reply(db, Failure(error.value))
    else
      var row := db.jobs[job];
      var bid := Bid(job, provider, row.listing.offer.value, row.listing.offer.value, true, Active, []);
      Reply(Db(db.jobs[job := row.(bidCount := row.bidCount + 1)], db.bids[newId := bid], db.events), Success(bid))
  }

  function AwardBidError(db: Db, job: Uuid, id: Uuid, customer: Uuid): Option<BidError> {
    if job !in db.jobs then Some(JobNotFound)
    else if db.jobs[job].listing.customer != customer then Some(PermissionDenied)
    else if id !in db.bids then Some(BidNotFound)
    else if db.bids[id].job != job then Some(BidNotFound)
    else if db.bids[id].status != Active then Some(BidNotActive)
    else None
  }

  function AwardBid(db: Db, job: Uuid, id: Uuid, customer: Uuid): Reply<Bid> {
    var error := AwardBidError(db, job, id, customer);
    if error.Some? then Reply(db, Failure(error.value))
    else
      var bid := db.bids[id].(status := Awarded);
      Reply(
        Db(db.jobs[job := db.jobs[job].(
             status := JobAwarded, awardedBid := Some(id), awardedProvider := Some(bid.provider))],
           Retire(db.bids[id := bid], job, Some(id), NotSelected),
           db.events),
        Success(bid))
  }

  /** Replies with the number of bids expired; a job that does not exist is no error. */
  function ExpireAuction(db: Db, job: Uuid): Reply<int> {
    var count := |ActiveBids(db, job)|;
    var status := if count > 0 then Closed else ClosedZeroBids;
    Reply(
      Db(if job in db.jobs then db.jobs[job := db.jobs[job].(status := status)] else db.jobs,
         Retire(db.bids, job, None, Expired),
         db.events),
      Success(count))
  }

  /** Ids of open jobs whose deadline is at or before `before`. */
  function ExpiredJobs(db: Db, before: Instant): set<Uuid> {
    set j | j in db.jobs && db.jobs[j].status == Open && db.jobs[j].endsAt.Some? && db.jobs[j].endsAt.value <= before
  }
}
