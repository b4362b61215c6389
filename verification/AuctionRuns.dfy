/**
 Whole serial runs of the bidding engine: sequences of calls, each running to completion
 before the next starts. A run starts from empty tables; jobs enter it when they are
 published. Two facts the tables do not keep are carried beside them as history: the
 row each job was published with, and which bids `PlaceBid` (rather than `AcceptOffer`) made.
 */
module AuctionRuns {
  import opened Wrappers
  import opened AuctionModel
  import opened AuctionReplay

  datatype Call =
    | Publish(job: Uuid, listing: Job)
    | Place(job: Uuid, provider: Uuid, amount: int, newId: Uuid, checkedAt: Instant, now: Instant)
    | Update(id: Uuid, provider: Uuid, amount: int, now: Instant)
    | Withdraw(id: Uuid, provider: Uuid, now: Instant)
    | Accept(job: Uuid, provider: Uuid, newId: Uuid, checkedAt: Instant)
    | Award(job: Uuid, id: Uuid, customer: Uuid)
    | Expire(job: Uuid)

  datatype History = History(db: Db, published: map<Uuid, Job>, placed: set<Uuid>)

  const START: History := History(Db(map[], map[], []), map[], {})

  /** A job row as the job service publishes it. */
  predicate Fresh(row: Job) {
    && row.status == Open && row.extensions == 0 && row.bidCount == 0
    && row.awardedBid == None && row.awardedProvider == None
  }

  ghost function Step(h: History, c: Call): History
    requires ForeignKeys(h.db)
  {
    match c
    case Publish(job, listing) =>
      if job in h.db.jobs || !Fresh(listing) then h
      else History(h.db.(jobs := h.db.jobs[job := listing]), h.published[job := listing], h.placed)
    case Place(job, provider, amount, newId, checkedAt, now) =>
      var reply := PlaceBid(h.db, job, provider, amount, newId, checkedAt, now);
      History(reply.db, h.published, if reply.result.Success? then h.placed + {newId} else h.placed)
    case Update(id, provider, amount, now) => h.(db := UpdateBid(h.db, id, provider, amount, now).db)
    case Withdraw(id, provider, now) => h.(db := WithdrawBid(h.db, id, provider, now).db)
    case Accept(job, provider, newId, checkedAt) => h.(db := AcceptOffer(h.db, job, provider, newId, checkedAt).db)
    case Award(job, id, customer) => h.(db := AwardBid(h.db, job, id, customer).db)
    case Expire(job) => h.(db := ExpireAuction(h.db, job).db)
  }

  // ----- what every run keeps -----

  ghost predicate Integrity(h: History) {
    && ForeignKeys(h.db)
    && h.db.jobs.Keys == h.published.Keys
    && h.placed <= h.db.bids.Keys
    && forall j :: j in h.db.jobs ==> Listed(h, j)
  }

  /** The job is as it was published, but for a deadline moved by five minutes per extension, at most three. */
  predicate Listed(h: History, j: Uuid)
    requires j in h.db.jobs
  {
    && j in h.published && Fresh(h.published[j])
    && var listed, row := h.published[j], h.db.jobs[j];
    && row.listing == listed.listing
    && 0 <= row.extensions <= (if row.listing.auctionType == Live then MAX_EXTENSIONS else 0)
    && row.endsAt == if listed.endsAt.None? then None else Some(listed.endsAt.value + SNIPE_WINDOW * row.extensions)
  }

  predicate SameSlot(a: Bid, b: Bid) {
    a.job == b.job && a.provider == b.provider
  }

  ghost predicate OneBidPerProvider(h: History) {
    forall a, b :: a in h.db.bids && b in h.db.bids && SameSlot(h.db.bids[a], h.db.bids[b]) ==> a == b
  }

  /** A bid's status follows its job's: open, awarded once, or closed without an award. */
  ghost predicate StatusesFollow(h: History) {
    forall b :: b in h.db.bids ==> StatusFollows(h.db, b)
  }

  predicate StatusFollows(db: Db, b: Uuid)
    requires b in db.bids
  {
    db.bids[b].job in db.jobs ==>
      var row, status := db.jobs[db.bids[b].job], db.bids[b].status;
      if row.status == Open then status in {Active, Withdrawn}
      else if row.awardedBid.Some? then status in {Awarded, NotSelected, Withdrawn}
      else status in {Expired, Withdrawn}
  }

  ghost predicate Counted(db: Db, j: Uuid)
    requires j in db.jobs
  {
    db.jobs[j].bidCount == |Standing(db, j)|
  }

  ghost predicate CountAgrees(h: History) {
    forall j :: j in h.db.jobs ==> Counted(h.db, j)
  }

  /** The job row and the bid rows name the same winner, and there is at most one. */
  ghost predicate AwardAgrees(h: History) {
    && (forall j :: j in h.db.jobs ==> NamesWinner(h.db, j))
    && (forall b :: b in h.db.bids ==> WinnerNamed(h.db, b))
  }

  predicate NamesWinner(db: Db, j: Uuid)
    requires j in db.jobs
  {
    match db.jobs[j].awardedBid
    case None => true
    case Some(b) =>
      && db.jobs[j].status != Open
      && b in db.bids && db.bids[b].job == j && db.bids[b].status == Awarded
      && db.jobs[j].awardedProvider == Some(db.bids[b].provider)
  }

  predicate WinnerNamed(db: Db, b: Uuid)
    requires b in db.bids
  {
    db.bids[b].status == Awarded && db.bids[b].job in db.jobs ==> db.jobs[db.bids[b].job].awardedBid == Some(b)
  }

  predicate Falling(prices: seq<int>) {
    forall i, j :: 0 <= i < j < |prices| ==> prices[i] > prices[j]
  }

  /** Every price a bid has had, first to current. */
  function PricePath(bid: Bid): seq<int> {
    bid.updates + [bid.amount]
  }

  /** Prices only fall, from a first price the listing allowed. */
  predicate SoundBid(h: History, b: Uuid)
    requires b in h.db.bids
  {
    var bid, placed := h.db.bids[b], b in h.placed;
    bid.job in h.published &&
    var listed := h.published[bid.job].listing;
    && bid.amount > 0
    && Falling(PricePath(bid))
    && PricePath(bid)[0] == bid.original
    && (placed && listed.startingBid.Some? ==> bid.original <= listed.startingBid.value)
    && (placed ==> (bid.offerAccepted <==> OfferAccepted(listed.offer, bid.original)))
    && (!placed ==> bid.offerAccepted && listed.offer == Some(bid.original))
  }

  ghost predicate PricesSound(h: History) {
    forall b :: b in h.db.bids ==> SoundBid(h, b)
  }

  /** Bids whose price the event log has seen: placed ones, and accepted ones once updated. */
  function Logged(h: History, job: Uuid): set<Uuid> {
    set b | b in h.db.bids && h.db.bids[b].job == job && (b in h.placed || h.db.bids[b].updates != [])
  }

  /** The event log of a live job agrees with its logged bids; a sealed job has no events. */
  ghost predicate LogFor(h: History, j: Uuid)
    requires j in h.db.jobs
  {
    if h.db.jobs[j].listing.auctionType == Live
    then IsLowest(h.db.bids, Logged(h, j), WinningPrice(RowsOf(h.db.events, j)))
    else RowsOf(h.db.events, j) == []
  }

  ghost predicate LogAgrees(h: History) {
    && (forall e :: e in h.db.events ==> e.amount > 0 && e.job in h.db.jobs)
    && (forall j :: j in h.db.jobs ==> LogFor(h, j))
  }

  ghost predicate Inv(h: History) {
    && Integrity(h)
    && OneBidPerProvider(h)
    && StatusesFollow(h)
    && CountAgrees(h)
    && AwardAgrees(h)
    && PricesSound(h)
    && LogAgrees(h)
  }

  // ----- one step -----

  lemma StepKeepsForeignKeys(h: History, c: Call)
    requires ForeignKeys(h.db)
    ensures ForeignKeys(Step(h, c).db)
  {
  }

  /** The deadline stays, or on a live job moves by one extension. */
  predicate DeadlineMoves(a: Job, b: Job) {
    && b.listing == a.listing
    && ((b.endsAt, b.extensions) == (a.endsAt, a.extensions) ||
        (a.listing.auctionType == Live && a.extensions < MAX_EXTENSIONS && a.endsAt.Some?
          && (b.endsAt, b.extensions) == (Some(a.endsAt.value + SNIPE_WINDOW), a.extensions + 1)))
  }

  lemma DeadlineStep(h: History, c: Call, j: Uuid)
    requires ForeignKeys(h.db) && j in h.db.jobs
    ensures j in Step(h, c).db.jobs && DeadlineMoves(h.db.jobs[j], Step(h, c).db.jobs[j])
  {
  }

  lemma PublishedStep(h: History, c: Call, j: Uuid)
    requires ForeignKeys(h.db) && h.db.jobs.Keys == h.published.Keys && j in Step(h, c).db.jobs
    ensures j in Step(h, c).published
    ensures j in h.db.jobs ==> Step(h, c).published[j] == h.published[j]
    ensures j !in h.db.jobs ==> Fresh(Step(h, c).published[j]) && Step(h, c).db.jobs[j] == Step(h, c).published[j]
  {
  }

  lemma ListedKept(h: History, after: History, j: Uuid)
    requires j in h.db.jobs && Listed(h, j) && j in after.db.jobs
    requires j in after.published && after.published[j] == h.published[j]
    requires DeadlineMoves(h.db.jobs[j], after.db.jobs[j])
    ensures Listed(after, j)
  {
  }

  lemma ListedStep(h: History, c: Call, j: Uuid)
    requires ForeignKeys(h.db) && j in Step(h, c).db.jobs && h.db.jobs.Keys == h.published.Keys
    requires j in h.db.jobs ==> Listed(h, j)
    ensures Listed(Step(h, c), j)
  {
    PublishedStep(h, c, j);
    if j in h.db.jobs {
      DeadlineStep(h, c, j);
      ListedKept(h, Step(h, c), j);
    }
  }

  lemma StepKeepsKeys(h: History, c: Call)
    requires ForeignKeys(h.db) && h.db.jobs.Keys == h.published.Keys && h.placed <= h.db.bids.Keys
    ensures Step(h, c).db.jobs.Keys == Step(h, c).published.Keys
    ensures Step(h, c).placed <= Step(h, c).db.bids.Keys
  {
  }

  /** Besides at most one new row, in a slot of its own, every bid keeps its job and provider. */
  ghost predicate SlotsKept(bids: map<Uuid, Bid>, after: map<Uuid, Bid>) {
    forall b :: b in after ==>
      if b in bids then SameSlot(after[b], bids[b])
      else forall o :: o in after && o != b ==> o in bids && !SameSlot(bids[o], after[b])
  }

  lemma SlotsInsert(h: History, c: Call)
    requires ForeignKeys(h.db) && (c.Place? || c.Accept?)
    ensures SlotsKept(h.db.bids, Step(h, c).db.bids)
  {
  }

  lemma SlotsEdit(h: History, c: Call)
    requires ForeignKeys(h.db) && !c.Place? && !c.Accept?
    ensures SlotsKept(h.db.bids, Step(h, c).db.bids)
  {
  }

  lemma StepKeepsOneBidPerProvider(h: History, c: Call)
    requires ForeignKeys(h.db) && OneBidPerProvider(h)
    ensures OneBidPerProvider(Step(h, c))
  {
    var after := Step(h, c);
    if c.Place? || c.Accept? {
      SlotsInsert(h, c);
    } else {
      SlotsEdit(h, c);
    }
    forall a, b | a in after.db.bids && b in after.db.bids && SameSlot(after.db.bids[a], after.db.bids[b])
      ensures a == b
    {
    }
  }

  lemma StatusOnAward(h: History, c: Call, b: Uuid)
    requires ForeignKeys(h.db) && c.Award? && b in h.db.bids && StatusFollows(h.db, b)
    requires NamesWinner(h.db, h.db.bids[b].job)
    requires c.job in h.db.jobs && c.id in h.db.bids ==> StatusFollows(h.db, c.id)
    ensures b in Step(h, c).db.bids && StatusFollows(Step(h, c).db, b)
  {
  }

  lemma StatusOnInsert(h: History, c: Call, b: Uuid)
    requires ForeignKeys(h.db) && (c.Place? || c.Accept?)
    requires b in Step(h, c).db.bids && (b in h.db.bids ==> StatusFollows(h.db, b))
    ensures StatusFollows(Step(h, c).db, b)
  {
  }

  lemma StatusOnEdit(h: History, c: Call, b: Uuid)
    requires ForeignKeys(h.db) && !c.Award? && !c.Place? && !c.Accept?
    requires b in h.db.bids && StatusFollows(h.db, b) && NamesWinner(h.db, h.db.bids[b].job)
    ensures b in Step(h, c).db.bids && StatusFollows(Step(h, c).db, b)
  {
  }

  lemma StatusStep(h: History, c: Call, b: Uuid)
    requires ForeignKeys(h.db) && b in Step(h, c).db.bids && (b in h.db.bids ==> StatusFollows(h.db, b))
    requires b in h.db.bids ==> NamesWinner(h.db, h.db.bids[b].job)
    requires c.Award? && c.job in h.db.jobs && c.id in h.db.bids ==> StatusFollows(h.db, c.id)
    ensures StatusFollows(Step(h, c).db, b)
  {
    if c.Award? {
      StatusOnAward(h, c, b);
    } else if c.Place? || c.Accept? {
      StatusOnInsert(h, c, b);
    } else {
      StatusOnEdit(h, c, b);
    }
  }

  lemma NamesWinnerStep(h: History, c: Call, j: Uuid)
    requires ForeignKeys(h.db) && j in Step(h, c).db.jobs
    requires j in h.db.jobs ==> NamesWinner(h.db, j)
    requires c.Award? && c.job in h.db.jobs && c.id in h.db.bids ==> StatusFollows(h.db, c.id)
    ensures NamesWinner(Step(h, c).db, j)
  {
    if c.Award? {
      WinnerOnAward(h, c, j);
    } else if j in h.db.jobs {
      WinnerKept(h, c, j);
    }
  }

  lemma WinnerOnAward(h: History, c: Call, j: Uuid)
    requires ForeignKeys(h.db) && c.Award? && j in h.db.jobs && NamesWinner(h.db, j)
    requires c.job in h.db.jobs && c.id in h.db.bids ==> StatusFollows(h.db, c.id)
    ensures j in Step(h, c).db.jobs && NamesWinner(Step(h, c).db, j)
  {
  }

  lemma WinnerKept(h: History, c: Call, j: Uuid)
    requires ForeignKeys(h.db) && !c.Award? && j in h.db.jobs && NamesWinner(h.db, j)
    ensures j in Step(h, c).db.jobs && NamesWinner(Step(h, c).db, j)
  {
  }

  lemma WinnerNamedStep(h: History, c: Call, b: Uuid)
    requires ForeignKeys(h.db) && b in Step(h, c).db.bids
    requires b in h.db.bids ==> WinnerNamed(h.db, b)
    requires b in h.db.bids && h.db.bids[b].job in h.db.jobs ==> NamesWinner(h.db, h.db.bids[b].job)
    requires c.Award? && c.job in h.db.jobs && c.id in h.db.bids ==> StatusFollows(h.db, c.id)
    ensures WinnerNamed(Step(h, c).db, b)
  {
  }

  lemma PathExtends(bid: Bid, amount: int)
    requires Falling(PricePath(bid)) && amount < bid.amount
    ensures var next := bid.(amount := amount, updates := bid.updates + [bid.amount]);
      PricePath(next) == PricePath(bid) + [amount] && Falling(PricePath(next))
  {
    var path := PricePath(bid);
    assert path[|path| - 1] == bid.amount;
  }

  /** The price stays, or is lowered and the old one kept. */
  predicate PriceMoves(a: Bid, b: Bid) {
    && (b.job, b.provider, b.original, b.offerAccepted) == (a.job, a.provider, a.original, a.offerAccepted)
    && ((b.amount, b.updates) == (a.amount, a.updates) ||
        (0 < b.amount < a.amount && b.updates == a.updates + [a.amount]))
  }

  lemma PriceStep(h: History, c: Call, b: Uuid)
    requires ForeignKeys(h.db) && b in h.db.bids
    ensures b in Step(h, c).db.bids && PriceMoves(h.db.bids[b], Step(h, c).db.bids[b])
  {
  }

  lemma HistoryStep(h: History, c: Call, b: Uuid)
    requires ForeignKeys(h.db) && h.placed <= h.db.bids.Keys && h.db.jobs.Keys == h.published.Keys && b in h.db.bids
    ensures b in Step(h, c).placed <==> b in h.placed
    ensures var j := h.db.bids[b].job; j in Step(h, c).published && Step(h, c).published[j] == h.published[j]
  {
  }

  lemma SoundBidKept(h: History, after: History, b: Uuid)
    requires b in h.db.bids && SoundBid(h, b) && b in after.db.bids && PriceMoves(h.db.bids[b], after.db.bids[b])
    requires b in after.placed <==> b in h.placed
    requires var j := h.db.bids[b].job; j in after.published && after.published[j] == h.published[j]
    ensures SoundBid(after, b)
  {
    if after.db.bids[b].amount < h.db.bids[b].amount {
      PathExtends(h.db.bids[b], after.db.bids[b].amount);
    }
  }

  lemma SoundBidEdit(h: History, c: Call, b: Uuid)
    requires ForeignKeys(h.db) && h.placed <= h.db.bids.Keys && b in h.db.bids && SoundBid(h, b)
    requires h.db.jobs.Keys == h.published.Keys
    ensures b in Step(h, c).db.bids && SoundBid(Step(h, c), b)
  {
    PriceStep(h, c, b);
    HistoryStep(h, c, b);
    SoundBidKept(h, Step(h, c), b);
  }

  lemma SoundBidInsert(h: History, c: Call, b: Uuid)
    requires ForeignKeys(h.db) && h.placed <= h.db.bids.Keys && b !in h.db.bids && b in Step(h, c).db.bids
    requires (c.Place? || c.Accept?) && (c.job in h.db.jobs ==> Listed(h, c.job))
    ensures SoundBid(Step(h, c), b)
  {
  }

  lemma StandingInsert(db: Db, after: Db, id: Uuid, bid: Bid, j: Uuid)
    requires id !in db.bids && after.bids == db.bids[id := bid] && bid.status != Withdrawn
    ensures |Standing(after, j)| == |Standing(db, j)| + if bid.job == j then 1 else 0
  {
    assert Standing(after, j) == if bid.job == j then Standing(db, j) + {id} else Standing(db, j);
  }

  lemma StandingRemove(db: Db, after: Db, id: Uuid, j: Uuid)
    requires id in db.bids && db.bids[id].status == Active
    requires after.bids == db.bids[id := db.bids[id].(status := Withdrawn)]
    ensures |Standing(after, j)| == |Standing(db, j)| - if db.bids[id].job == j then 1 else 0
  {
    assert Standing(after, j) == Standing(db, j) - {id};
    assert db.bids[id].job == j <==> id in Standing(db, j);
  }

  lemma StandingSame(db: Db, after: Db, j: Uuid)
    requires after.bids.Keys == db.bids.Keys
    requires forall b :: b in db.bids ==>
      after.bids[b].job == db.bids[b].job && (after.bids[b].status == Withdrawn <==> db.bids[b].status == Withdrawn)
    ensures Standing(after, j) == Standing(db, j)
  {
  }

  lemma CountOnPublish(h: History, c: Call, j: Uuid)
    requires ForeignKeys(h.db) && c.Publish? && j in Step(h, c).db.jobs && (j in h.db.jobs ==> Counted(h.db, j))
    ensures Counted(Step(h, c).db, j)
  {
    StandingSame(h.db, Step(h, c).db, j);
    if j !in h.db.jobs {
      assert Standing(h.db, j) == {};
    }
  }

  lemma CountOnInsert(h: History, c: Call, j: Uuid)
    requires ForeignKeys(h.db) && (c.Place? || c.Accept?) && j in h.db.jobs && Counted(h.db, j)
    ensures j in Step(h, c).db.jobs && Counted(Step(h, c).db, j)
  {
    var after := Step(h, c).db;
    if after != h.db {
      StandingInsert(h.db, after, c.newId, after.bids[c.newId], j);
    }
  }

  lemma CountOnWithdraw(h: History, c: Call, j: Uuid)
    requires ForeignKeys(h.db) && c.Withdraw? && j in h.db.jobs && Counted(h.db, j)
    ensures j in Step(h, c).db.jobs && Counted(Step(h, c).db, j)
  {
    var after := Step(h, c).db;
    if after != h.db {
      StandingRemove(h.db, after, c.id, j);
    }
  }

  lemma CountOnEdit(h: History, c: Call, j: Uuid)
    requires ForeignKeys(h.db) && (c.Update? || c.Award? || c.Expire?) && j in h.db.jobs && Counted(h.db, j)
    ensures j in Step(h, c).db.jobs && Counted(Step(h, c).db, j)
  {
    StandingSame(h.db, Step(h, c).db, j);
  }

  lemma CountStep(h: History, c: Call, j: Uuid)
    requires ForeignKeys(h.db) && j in Step(h, c).db.jobs && (j in h.db.jobs ==> Counted(h.db, j))
    ensures Counted(Step(h, c).db, j)
  {
    if c.Publish? {
      CountOnPublish(h, c, j);
    } else if c.Place? || c.Accept? {
      CountOnInsert(h, c, j);
    } else if c.Withdraw? {
      CountOnWithdraw(h, c, j);
    } else {
      CountOnEdit(h, c, j);
    }
  }

  /** One row is inserted, or an existing one lowered. */
  lemma LowestWith(bids: map<Uuid, Bid>, after: map<Uuid, Bid>, ids: set<Uuid>, id: Uuid, price: int)
    requires ids <= bids.Keys && ids + {id} <= after.Keys && IsLowest(bids, ids, price)
    requires forall b :: b in ids ==> bids[b].amount > 0 && (b != id ==> after[b].amount == bids[b].amount)
    requires id in ids ==> after[id].amount < bids[id].amount
    ensures IsLowest(after, ids + {id}, if price == 0 || after[id].amount < price then after[id].amount else price)
  {
    var amount := after[id].amount;
    if price != 0 && amount >= price {
      var b :| b in ids && bids[b].amount == price;
      assert b != id;
    } else {
      assert id in ids + {id};
    }
  }

  /** What the log's agreement on a job depends on is as it was. */
  lemma LogUnmoved(h: History, after: History, j: Uuid)
    requires j in h.db.jobs && LogFor(h, j)
    requires j in after.db.jobs && after.db.jobs[j].listing == h.db.jobs[j].listing
    requires Logged(after, j) == Logged(h, j)
    requires forall b :: b in Logged(h, j) ==> after.db.bids[b].amount == h.db.bids[b].amount
    requires WinningPrice(RowsOf(after.db.events, j)) == WinningPrice(RowsOf(h.db.events, j))
    requires h.db.jobs[j].listing.auctionType == Sealed ==> RowsOf(after.db.events, j) == RowsOf(h.db.events, j)
    ensures LogFor(after, j)
  {
  }

  /** One bid of a live job got a new price, and the log one event saying so. */
  lemma LogMoved(h: History, after: History, j: Uuid, id: Uuid, e: Event)
    requires j in h.db.jobs && LogFor(h, j) && h.db.jobs[j].listing.auctionType == Live
    requires j in after.db.jobs && after.db.jobs[j].listing == h.db.jobs[j].listing
    requires after.db.events == h.db.events + [e] && e.job == j && Priced(e)
    requires Logged(after, j) == Logged(h, j) + {id} && after.db.bids[id].amount == e.amount
    requires forall b :: b in Logged(h, j) ==>
      && h.db.bids[b].amount > 0
      && if b == id then e.amount < h.db.bids[b].amount else after.db.bids[b].amount == h.db.bids[b].amount
    ensures LogFor(after, j)
  {
    RowsOfAppend(h.db.events, e, j);
    var rows := RowsOf(h.db.events, j);
    WinningPriceAppend(rows, e);
    LowestWith(h.db.bids, after.db.bids, Logged(h, j), id, WinningPrice(rows));
  }

  /** From `h` to `after` the bid `id` got a new price, which on a live job is logged as `e`. */
  ghost predicate Repriced(h: History, after: History, id: Uuid, e: Event) {
    && Priced(e) && e.job in h.db.jobs && id in after.db.bids
    && after.db.bids == h.db.bids[id := after.db.bids[id]]
    && (after.db.bids[id].job, after.db.bids[id].amount) == (e.job, e.amount)
    && (id in h.db.bids ==> h.db.bids[id].job == e.job && e.amount < h.db.bids[id].amount)
    && (id in after.placed || after.db.bids[id].updates != [])
    && (forall b :: b in h.db.bids && b != id ==> (b in after.placed <==> b in h.placed))
    && (forall j :: j in h.db.jobs ==> j in after.db.jobs && after.db.jobs[j].listing == h.db.jobs[j].listing)
    && after.db.events == if h.db.jobs[e.job].listing.auctionType == Live then h.db.events + [e] else h.db.events
  }

  lemma LogRepriced(h: History, after: History, id: Uuid, e: Event, j: Uuid)
    requires Repriced(h, after, id, e) && h.placed <= h.db.bids.Keys && PricesSound(h) && j in h.db.jobs && LogFor(h, j)
    ensures LogFor(after, j)
  {
    LoggedRepriced(h, after, id, e, j);
    if j != e.job {
      QuietEvent(h.db.events, e, j);
      LogUnmoved(h, after, j);
    } else if h.db.jobs[j].listing.auctionType == Live {
      LoggedPositive(h, j);
      LogMoved(h, after, j, id, e);
    }
  }

  lemma LoggedRepriced(h: History, after: History, id: Uuid, e: Event, j: Uuid)
    requires Repriced(h, after, id, e) && h.placed <= h.db.bids.Keys
    ensures Logged(after, j) == Logged(h, j) + if j == e.job then {id} else {}
  {
  }

  lemma LoggedPositive(h: History, j: Uuid)
    requires PricesSound(h)
    ensures forall b :: b in Logged(h, j) ==> h.db.bids[b].amount > 0
  {
    forall b | b in Logged(h, j) ensures h.db.bids[b].amount > 0 {
      assert SoundBid(h, b);
    }
  }

  lemma LogStepPlace(h: History, c: Call, j: Uuid)
    requires ForeignKeys(h.db) && h.placed <= h.db.bids.Keys && PricesSound(h) && j in h.db.jobs && LogFor(h, j)
    requires c.Place? && PlaceBidError(h.db, c.job, c.provider, c.amount, c.newId, c.checkedAt).None?
    ensures j in Step(h, c).db.jobs && LogFor(Step(h, c), j)
  {
    PlaceReprices(h, c);
    LogRepriced(h, Step(h, c), c.newId, Event(c.job, c.amount, BidPlaced, c.now), j);
  }

  lemma PlaceReprices(h: History, c: Call)
    requires ForeignKeys(h.db) && h.placed <= h.db.bids.Keys
    requires c.Place? && PlaceBidError(h.db, c.job, c.provider, c.amount, c.newId, c.checkedAt).None?
    ensures Repriced(h, Step(h, c), c.newId, Event(c.job, c.amount, BidPlaced, c.now))
  {
  }

  lemma LogStepUpdate(h: History, c: Call, j: Uuid)
    requires ForeignKeys(h.db) && h.placed <= h.db.bids.Keys && PricesSound(h) && j in h.db.jobs && LogFor(h, j)
    requires c.Update? && UpdateBidError(h.db, c.id, c.provider, c.amount).None?
    ensures j in Step(h, c).db.jobs && LogFor(Step(h, c), j)
  {
    UpdateReprices(h, c);
    LogRepriced(h, Step(h, c), c.id, Event(h.db.bids[c.id].job, c.amount, BidUpdated, c.now), j);
  }

  lemma UpdateReprices(h: History, c: Call)
    requires ForeignKeys(h.db) && c.Update? && UpdateBidError(h.db, c.id, c.provider, c.amount).None?
    ensures Repriced(h, Step(h, c), c.id, Event(h.db.bids[c.id].job, c.amount, BidUpdated, c.now))
  {
  }

  lemma LogStepWithdraw(h: History, c: Call, j: Uuid)
    requires ForeignKeys(h.db) && j in h.db.jobs && LogFor(h, j)
    requires c.Withdraw? && WithdrawBid(h.db, c.id, c.provider, c.now).result.Success?
    ensures j in Step(h, c).db.jobs && LogFor(Step(h, c), j)
  {
    var after := Step(h, c);
    var e := Event(h.db.bids[c.id].job, h.db.bids[c.id].amount, BidWithdrawn, c.now);
    assert Logged(after, j) == Logged(h, j);
    if j != e.job {
      QuietEvent(h.db.events, e, j);
      LogUnmoved(h, after, j);
    } else if h.db.jobs[j].listing.auctionType == Live {
      QuietEvent(h.db.events, e, j);
      LogUnmoved(h, after, j);
    }
  }

  /** The remaining calls append no event. */
  lemma LogStepQuiet(h: History, c: Call, j: Uuid)
    requires ForeignKeys(h.db) && j in h.db.jobs && LogFor(h, j) && h.placed <= h.db.bids.Keys
    requires c.Publish? || c.Accept? || c.Award? || c.Expire?
    ensures j in Step(h, c).db.jobs && LogFor(Step(h, c), j)
  {
    LoggedKept(h, c, j);
    LogUnmoved(h, Step(h, c), j);
  }

  lemma LoggedKept(h: History, c: Call, j: Uuid)
    requires ForeignKeys(h.db) && j in h.db.jobs && h.placed <= h.db.bids.Keys
    requires c.Publish? || c.Accept? || c.Award? || c.Expire?
    ensures Logged(Step(h, c), j) == Logged(h, j)
    ensures Step(h, c).db.events == h.db.events
  {
  }

  lemma LogStepFresh(h: History, c: Call, j: Uuid)
    requires ForeignKeys(h.db) && j !in h.db.jobs && j in Step(h, c).db.jobs
    requires forall e :: e in h.db.events ==> e.job in h.db.jobs
    ensures LogFor(Step(h, c), j)
  {
    NoRows(h.db.events, j);
    NothingElsePublished(h, c, j);
    NoBidsYet(h, Step(h, c), j);
  }

  /** A job enters by being published, which touches neither bids nor events. */
  lemma NothingElsePublished(h: History, c: Call, j: Uuid)
    requires ForeignKeys(h.db) && j !in h.db.jobs && j in Step(h, c).db.jobs
    ensures (Step(h, c).db.bids, Step(h, c).db.events) == (h.db.bids, h.db.events)
  {
  }

  lemma NoBidsYet(h: History, after: History, j: Uuid)
    requires ForeignKeys(h.db) && j !in h.db.jobs && after.db.bids == h.db.bids
    ensures Logged(after, j) == {} && forall b :: b in after.db.bids ==> after.db.bids[b].job != j
  {
  }

  lemma RefusedStep(h: History, c: Call)
    requires ForeignKeys(h.db)
    requires match c
      case Place(job, provider, amount, newId, checkedAt, _) =>
        PlaceBidError(h.db, job, provider, amount, newId, checkedAt).Some?
      case Update(id, provider, amount, _) => UpdateBidError(h.db, id, provider, amount).Some?
      case Withdraw(id, provider, now) => WithdrawBid(h.db, id, provider, now).result.Failure?
      case _ => false
    ensures Step(h, c) == h
  {
  }

  lemma LogStep(h: History, c: Call, j: Uuid)
    requires Integrity(h) && PricesSound(h) && LogAgrees(h) && j in Step(h, c).db.jobs
    ensures LogFor(Step(h, c), j)
  {
    if j !in h.db.jobs {
      LogStepFresh(h, c, j);
    } else {
      assert LogFor(h, j);
      match c
      case Place(job, provider, amount, newId, checkedAt, _) =>
        if PlaceBidError(h.db, job, provider, amount, newId, checkedAt).None? {
          LogStepPlace(h, c, j);
        } else {
          RefusedStep(h, c);
        }
      case Update(id, provider, amount, _) =>
        if UpdateBidError(h.db, id, provider, amount).None? {
          LogStepUpdate(h, c, j);
        } else {
          RefusedStep(h, c);
        }
      case Withdraw(id, provider, now) =>
        if WithdrawBid(h.db, id, provider, now).result.Success? {
          LogStepWithdraw(h, c, j);
        } else {
          RefusedStep(h, c);
        }
      case _ => LogStepQuiet(h, c, j);
    }
  }

  lemma EventStep(h: History, c: Call)
    requires ForeignKeys(h.db) && PricesSound(h)
    requires forall e :: e in h.db.events ==> e.amount > 0 && e.job in h.db.jobs
    ensures forall e :: e in Step(h, c).db.events ==> e.amount > 0 && e.job in Step(h, c).db.jobs
  {
  }

  lemma StepKeepsJobs(h: History, c: Call)
    requires Inv(h)
    ensures forall j :: j in Step(h, c).db.jobs ==>
      && Listed(Step(h, c), j)
      && NamesWinner(Step(h, c).db, j)
      && LogFor(Step(h, c), j)
      && Counted(Step(h, c).db, j)
  {
    var after := Step(h, c);
    forall j | j in after.db.jobs
      ensures Listed(after, j) && NamesWinner(after.db, j) && LogFor(after, j) && Counted(after.db, j)
    {
      ListedStep(h, c, j);
      NamesWinnerStep(h, c, j);
      CountStep(h, c, j);
      LogStep(h, c, j);
    }
  }

  lemma StepKeepsBids(h: History, c: Call)
    requires Inv(h)
    ensures forall b :: b in Step(h, c).db.bids ==>
      StatusFollows(Step(h, c).db, b) && WinnerNamed(Step(h, c).db, b) && SoundBid(Step(h, c), b)
  {
    var after := Step(h, c);
    forall b | b in after.db.bids
      ensures StatusFollows(after.db, b) && WinnerNamed(after.db, b) && SoundBid(after, b)
    {
      StatusStep(h, c, b);
      WinnerNamedStep(h, c, b);
      SoundBidStep(h, c, b);
    }
  }

  lemma SoundBidStep(h: History, c: Call, b: Uuid)
    requires Inv(h) && b in Step(h, c).db.bids
    ensures SoundBid(Step(h, c), b)
  {
    if b in h.db.bids {
      SoundBidEdit(h, c, b);
    } else {
      OnlyInsertsAdd(h, c, b);
      SoundBidInsert(h, c, b);
    }
  }

  lemma OnlyInsertsAdd(h: History, c: Call, b: Uuid)
    requires ForeignKeys(h.db) && b !in h.db.bids && b in Step(h, c).db.bids
    ensures c.Place? || c.Accept?
  {
  }

  lemma StepKeepsInv(h: History, c: Call)
    requires Inv(h)
    ensures Inv(Step(h, c))
  {
    StepKeepsForeignKeys(h, c);
    StepKeepsKeys(h, c);
    StepKeepsOneBidPerProvider(h, c);
    EventStep(h, c);
    StepKeepsJobs(h, c);
    StepKeepsBids(h, c);
  }
}
