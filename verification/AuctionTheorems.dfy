/**
 What holds of every serial run of the bidding engine, from empty tables on.
 */
module AuctionTheorems {
  import opened Wrappers
  import opened AuctionModel
  import opened AuctionReplay
  import opened AuctionRuns
  import opened BiddingEngine

  ghost function Run(calls: seq<Call>): (h: History)
    ensures ForeignKeys(h.db)
  {
    if calls == [] then START
    else
      var before, last := Run(calls[..|calls| - 1]), calls[|calls| - 1];
      StepKeepsForeignKeys(before, last);
      Step(before, last)
  }

  /** Every reachable state is sound. */
  lemma {:induction false} RunKeepsInv(calls: seq<Call>)
    ensures Inv(Run(calls))
  {
    if calls != [] {
      RunKeepsInv(calls[..|calls| - 1]);
      StepKeepsInv(Run(calls[..|calls| - 1]), calls[|calls| - 1]);
    }
  }

  lemma RunNext(calls: seq<Call>, c: Call)
    ensures Run(calls + [c]) == Step(Run(calls), c)
  {
    assert (calls + [c])[..|calls|] == calls;
  }

  // ----- what later calls cannot change -----

  /** A bid keeps its identity, its price never rises, and once not active it is final. */
  predicate BidEvolves(a: Bid, b: Bid) {
    && (a.job, a.provider, a.original, a.offerAccepted) == (b.job, b.provider, b.original, b.offerAccepted)
    && b.amount <= a.amount
    && PricePath(a) <= PricePath(b)
    && (a.status != Active ==> b == a)
  }

  /** A job keeps its listing; it never reopens, its deadline never moves back, its award never changes. */
  predicate JobEvolves(a: Job, b: Job) {
    && a.listing == b.listing
    && (a.status != Open ==> b.status != Open)
    && a.extensions <= b.extensions
    && (a.endsAt.Some? <==> b.endsAt.Some?) && (a.endsAt.Some? ==> a.endsAt.value <= b.endsAt.value)
    && (a.awardedBid.Some? ==> (a.awardedBid, a.awardedProvider) == (b.awardedBid, b.awardedProvider))
  }

  ghost predicate Evolves(a: History, b: History) {
    && (forall j :: j in a.db.jobs ==> j in b.db.jobs && JobEvolves(a.db.jobs[j], b.db.jobs[j]))
    && (forall i :: i in a.db.bids ==> i in b.db.bids && BidEvolves(a.db.bids[i], b.db.bids[i]))
    && a.db.events <= b.db.events
  }

  lemma JobStepEvolves(h: History, c: Call, j: Uuid)
    requires ForeignKeys(h.db) && j in h.db.jobs && NamesWinner(h.db, j)
    requires c.Award? && c.id in h.db.bids && c.job in h.db.jobs ==> StatusFollows(h.db, c.id)
    ensures j in Step(h, c).db.jobs && JobEvolves(h.db.jobs[j], Step(h, c).db.jobs[j])
  {
    DeadlineStep(h, c, j);
    if c.Award? {
      AwardedOnce(h, c, j);
    } else {
      AwardUntouched(h, c, j);
    }
  }

  lemma AwardedOnce(h: History, c: Call, j: Uuid)
    requires ForeignKeys(h.db) && j in h.db.jobs && NamesWinner(h.db, j) && c.Award?
    requires c.id in h.db.bids && c.job in h.db.jobs ==> StatusFollows(h.db, c.id)
    ensures j in Step(h, c).db.jobs
    ensures var a, b := h.db.jobs[j], Step(h, c).db.jobs[j];
      && (a.status != Open ==> b.status != Open)
      && (a.awardedBid.Some? ==> (a.awardedBid, a.awardedProvider) == (b.awardedBid, b.awardedProvider))
  {
  }

  lemma AwardUntouched(h: History, c: Call, j: Uuid)
    requires ForeignKeys(h.db) && j in h.db.jobs && !c.Award?
    ensures j in Step(h, c).db.jobs
    ensures var a, b := h.db.jobs[j], Step(h, c).db.jobs[j];
      && (a.status != Open ==> b.status != Open)
      && (a.awardedBid, a.awardedProvider) == (b.awardedBid, b.awardedProvider)
  {
  }

  lemma BidStepEvolves(h: History, c: Call, b: Uuid)
    requires ForeignKeys(h.db) && b in h.db.bids
    ensures b in Step(h, c).db.bids && BidEvolves(h.db.bids[b], Step(h, c).db.bids[b])
  {
    PriceStep(h, c, b);
    if h.db.bids[b].status != Active {
      FinalStep(h, c, b);
    }
  }

  lemma FinalStep(h: History, c: Call, b: Uuid)
    requires ForeignKeys(h.db) && b in h.db.bids && h.db.bids[b].status != Active
    ensures b in Step(h, c).db.bids && Step(h, c).db.bids[b] == h.db.bids[b]
  {
  }

  lemma EventsStepEvolves(h: History, c: Call)
    requires ForeignKeys(h.db)
    ensures h.db.events <= Step(h, c).db.events
  {
  }

  lemma StepEvolves(h: History, c: Call)
    requires Inv(h)
    ensures Evolves(h, Step(h, c))
  {
    forall j | j in h.db.jobs ensures j in Step(h, c).db.jobs && JobEvolves(h.db.jobs[j], Step(h, c).db.jobs[j]) {
      JobStepEvolves(h, c, j);
    }
    forall b | b in h.db.bids ensures b in Step(h, c).db.bids && BidEvolves(h.db.bids[b], Step(h, c).db.bids[b]) {
      BidStepEvolves(h, c, b);
    }
    EventsStepEvolves(h, c);
  }

  /** Between any two moments of a run. */
  lemma {:induction false} RunEvolves(calls: seq<Call>, more: seq<Call>)
    ensures Evolves(Run(calls), Run(calls + more))
    decreases |more|
  {
    if more == [] {
      assert calls + more == calls;
    } else {
      var init, last := more[..|more| - 1], more[|more| - 1];
      assert calls + more == calls + init + [last];
      RunEvolves(calls, init);
      RunNext(calls + init, last);
      RunKeepsInv(calls + init);
      StepEvolves(Run(calls + init), last);
      EvolvesTransitive(Run(calls), Run(calls + init), Run(calls + more));
    }
  }

  lemma EvolvesTransitive(a: History, b: History, c: History)
    requires Evolves(a, b) && Evolves(b, c)
    ensures Evolves(a, c)
  {
  }

  // ----- awards -----

  ghost predicate SoleWinner(db: Db, b: Uuid)
    requires b in db.bids && db.bids[b].job in db.jobs
  {
    && db.jobs[db.bids[b].job].awardedBid == Some(b)
    && db.jobs[db.bids[b].job].awardedProvider == Some(db.bids[b].provider)
    && forall o :: o in db.bids && o != b && db.bids[o].job == db.bids[b].job ==>
         db.bids[o].status !in {Active, Awarded}
  }

  lemma AwardedIsSoleWinner(h: History, b: Uuid)
    requires ForeignKeys(h.db) && StatusesFollow(h) && AwardAgrees(h)
    requires b in h.db.bids && h.db.bids[b].status == Awarded
    ensures SoleWinner(h.db, b)
  {
    var db, job := h.db, h.db.bids[b].job;
    assert WinnerNamed(db, b) && NamesWinner(db, job);
    forall o | o in db.bids && o != b && db.bids[o].job == job ensures db.bids[o].status !in {Active, Awarded} {
      assert StatusFollows(db, o) && WinnerNamed(db, o);
    }
  }

  /** An active bid means an open job. */
  lemma ActiveMeansOpen(calls: seq<Call>, b: Uuid)
    requires b in Run(calls).db.bids && Run(calls).db.bids[b].status == Active
    ensures Run(calls).db.bids[b].job in Run(calls).db.jobs
    ensures Run(calls).db.jobs[Run(calls).db.bids[b].job].status == Open
  {
    RunKeepsInv(calls);
    assert StatusFollows(Run(calls).db, b);
  }

  lemma AwardKept(h: History, later: History, b: Uuid)
    requires ForeignKeys(h.db) && Evolves(h, later) && b in h.db.bids && h.db.bids[b].status == Awarded
    requires ForeignKeys(later.db) && StatusesFollow(later) && AwardAgrees(later)
    ensures b in later.db.bids && later.db.bids[b] == h.db.bids[b]
    ensures h.db.bids[b].job in later.db.jobs && SoleWinner(later.db, b)
  {
    assert BidEvolves(h.db.bids[b], later.db.bids[b]);
    AwardedIsSoleWinner(later, b);
  }

  /** An awarded bid is its job's only winner, and stays so, unchanged, through the rest of the run. */
  lemma AwardSafety(calls: seq<Call>, more: seq<Call>, b: Uuid)
    requires b in Run(calls).db.bids && Run(calls).db.bids[b].status == Awarded
    ensures b in Run(calls + more).db.bids && Run(calls + more).db.bids[b] == Run(calls).db.bids[b]
    ensures Run(calls).db.bids[b].job in Run(calls + more).db.jobs
    ensures SoleWinner(Run(calls + more).db, b)
  {
    RunKeepsInv(calls);
    RunKeepsInv(calls + more);
    RunEvolves(calls, more);
    AwardKept(Run(calls), Run(calls + more), b);
  }

  /** The job row names a winner exactly when that bid is awarded. */
  lemma AwardNamesAwardedBid(calls: seq<Call>, j: Uuid, b: Uuid)
    requires j in Run(calls).db.jobs
    ensures Run(calls).db.jobs[j].awardedBid == Some(b) <==>
      b in Run(calls).db.bids && Run(calls).db.bids[b].job == j && Run(calls).db.bids[b].status == Awarded
  {
    RunKeepsInv(calls);
    var db := Run(calls).db;
    assert NamesWinner(db, j);
    if b in db.bids {
      assert WinnerNamed(db, b);
    }
  }

  // ----- the deadline -----

  const LATEST: int := MAX_EXTENSIONS * SNIPE_WINDOW

  /** How long after the published deadline a bid can still get in. */
  function Grace(listing: Listing): int {
    if listing.auctionType == Live then LATEST else 0
  }

  /** The job is published, and it is not later than the grace after its published deadline. */
  predicate InTime(h: History, job: Uuid, at: Instant) {
    && job in h.published
    && var listed := h.published[job];
    listed.endsAt.Some? ==> at < listed.endsAt.value + Grace(listed.listing)
  }

  lemma BidInTime(h: History, job: Uuid, provider: Uuid, amount: int, newId: Uuid, at: Instant)
    requires forall j :: j in h.db.jobs ==> Listed(h, j)
    requires
      || PlaceBidError(h.db, job, provider, amount, newId, at).None?
      || AcceptOfferError(h.db, job, provider, newId, at).None?
    ensures InTime(h, job, at)
  {
  }

  /** A bid gets in only before the published deadline plus fifteen minutes; on a sealed job, before the deadline. */
  lemma PlacedInTime(calls: seq<Call>, job: Uuid, provider: Uuid, amount: int, newId: Uuid, checkedAt: Instant)
    requires PlaceBidError(Run(calls).db, job, provider, amount, newId, checkedAt).None?
    ensures InTime(Run(calls), job, checkedAt)
  {
    RunKeepsInv(calls);
    BidInTime(Run(calls), job, provider, amount, newId, checkedAt);
  }

  lemma AcceptedInTime(calls: seq<Call>, job: Uuid, provider: Uuid, newId: Uuid, checkedAt: Instant)
    requires AcceptOfferError(Run(calls).db, job, provider, newId, checkedAt).None?
    ensures InTime(Run(calls), job, checkedAt)
  {
    RunKeepsInv(calls);
    BidInTime(Run(calls), job, provider, 1, newId, checkedAt);
  }

  /**
   After a live bid either the extensions are spent or more than five minutes remain, counted from the
   earlier of the two clock readings: the engine's at the deadline check, the database's at the anti-snipe check.
   */
  lemma SnipersAreAnswered(
      calls: seq<Call>, job: Uuid, provider: Uuid, amount: int, newId: Uuid, checkedAt: Instant, now: Instant)
    requires PlaceBidError(Run(calls).db, job, provider, amount, newId, checkedAt).None?
    ensures var row := PlaceBid(Run(calls).db, job, provider, amount, newId, checkedAt, now).db.jobs[job];
      row.listing.auctionType == Live && row.endsAt.Some? ==>
        row.extensions == MAX_EXTENSIONS || row.endsAt.value > Earlier(checkedAt, now) + SNIPE_WINDOW
  {
    RunKeepsInv(calls);
    assert Listed(Run(calls), job);
  }

  /** In every reachable state: published deadline plus five minutes for each of at most three extensions. */
  lemma DeadlineFormula(calls: seq<Call>, j: Uuid)
    requires j in Run(calls).db.jobs
    ensures j in Run(calls).published
    ensures var listed, row := Run(calls).published[j], Run(calls).db.jobs[j];
      && 0 <= row.extensions <= MAX_EXTENSIONS
      && (row.listing.auctionType == Sealed ==> row.extensions == 0)
      && (listed.endsAt.Some? <==> row.endsAt.Some?)
      && (row.endsAt.Some? ==> row.endsAt.value == listed.endsAt.value + row.extensions * SNIPE_WINDOW)
  {
    RunKeepsInv(calls);
    assert Listed(Run(calls), j);
  }

  // ----- prices -----

  lemma {:induction false} FallingLength(prices: seq<int>)
    requires Falling(prices) && |prices| > 0
    ensures |prices| - 1 <= prices[0] - prices[|prices| - 1]
  {
    if |prices| > 1 {
      var init := prices[..|prices| - 1];
      FallingLength(init);
      assert init[|init| - 1] > prices[|prices| - 1];
    }
  }

  /** Every bid's prices fall strictly from its first; so it has fewer updates than its first price. */
  lemma PricesOnlyFall(calls: seq<Call>, b: Uuid)
    requires b in Run(calls).db.bids
    ensures var h := Run(calls); var bid := h.db.bids[b];
      && bid.job in h.published
      && Falling(PricePath(bid)) && PricePath(bid)[0] == bid.original
      && 0 < bid.amount && bid.amount + |bid.updates| <= bid.original
      && (b in h.placed && h.published[bid.job].listing.startingBid.Some? ==>
           bid.amount <= h.published[bid.job].listing.startingBid.value)
      && (bid.offerAccepted ==> OfferAccepted(h.published[bid.job].listing.offer, bid.amount))
  {
    RunKeepsInv(calls);
    assert SoundBid(Run(calls), b);
    FallingLength(PricePath(Run(calls).db.bids[b]));
  }

  // ----- the bid counter -----

  /** The stored count is the number of standing bids and, while the job is open, of active ones. */
  lemma BidCountExact(calls: seq<Call>, j: Uuid)
    requires j in Run(calls).db.jobs
    ensures Run(calls).db.jobs[j].bidCount == |Standing(Run(calls).db, j)|
    ensures Run(calls).db.jobs[j].status == Open ==> Run(calls).db.jobs[j].bidCount == |ActiveBids(Run(calls).db, j)|
  {
    RunKeepsInv(calls);
    var db := Run(calls).db;
    if db.jobs[j].status == Open {
      forall b | b in db.bids && db.bids[b].job == j ensures db.bids[b].status in {Active, Withdrawn} {
        assert StatusFollows(db, b);
      }
      assert ActiveBids(db, j) == Standing(db, j);
    }
  }

  /** Whenever a withdrawal succeeds the counter is positive, so the clamp at zero never takes effect. */
  lemma WithdrawNeverClamps(calls: seq<Call>, id: Uuid, provider: Uuid, now: Instant)
    requires WithdrawBid(Run(calls).db, id, provider, now).result.Success?
    ensures var db := Run(calls).db; var j := db.bids[id].job;
      && db.jobs[j].bidCount >= 1
      && WithdrawBid(db, id, provider, now).db.jobs[j].bidCount == db.jobs[j].bidCount - 1
  {
    RunKeepsInv(calls);
    var db := Run(calls).db;
    assert id in Standing(db, db.bids[id].job);
    assert db.jobs[db.bids[id].job].bidCount == |Standing(db, db.bids[id].job)|;
  }

  // ----- closing -----

  /** The deadline sweep lists exactly the open jobs on which a bid would now be refused as closed. */
  lemma SweptJobsRefuseBids(db: Db, j: Uuid, provider: Uuid, amount: int, newId: Uuid, at: Instant)
    requires amount > 0
    ensures j in ExpiredJobs(db, at) <==> PlaceBidError(db, j, provider, amount, newId, at) == Some(AuctionClosed)
  {
  }

  /** Expiring a job again touches no bid, but always calls it closed without bids: harmless only if there were none. */
  lemma ExpireAgain(db: Db, job: Uuid)
    requires job in db.jobs
    ensures var first := ExpireAuction(db, job); var second := ExpireAuction(first.db, job);
      && first.result == Success(|ActiveBids(db, job)|) && second.result == Success(0)
      && second.db.bids == first.db.bids && second.db.jobs[job].status == ClosedZeroBids
      && (second.db == first.db <==> ActiveBids(db, job) == {})
  {
    var first := ExpireAuction(db, job).db;
    assert ActiveBids(first, job) == {};
    assert Retire(first.bids, job, None, Expired) == first.bids;
    assert ActiveBids(db, job) == {} <==> |ActiveBids(db, job)| == 0;
    assert first.jobs[job].status == ClosedZeroBids ==>
      first.jobs[job := first.jobs[job].(status := ClosedZeroBids)] == first.jobs;
  }

  /** In every reachable state, what a job's bids may be once it is awarded, or closed without an award. */
  lemma FinalStatuses(calls: seq<Call>, b: Uuid)
    requires b in Run(calls).db.bids
    ensures var db := Run(calls).db; var bid := db.bids[b];
      && bid.job in db.jobs
      && (db.jobs[bid.job].awardedBid.Some? ==> bid.status in {Awarded, NotSelected, Withdrawn})
      && (db.jobs[bid.job].awardedBid.None? && db.jobs[bid.job].status != Open ==> bid.status in {Expired, Withdrawn})
  {
    RunKeepsInv(calls);
    assert StatusFollows(Run(calls).db, b);
    assert NamesWinner(Run(calls).db, Run(calls).db.bids[b].job);
  }

  // ----- is closed final? -----

  /** No clock reading of the call is before `at`. */
  predicate NotBefore(c: Call, at: Instant) {
    match c
    case Place(_, _, _, _, checkedAt, now) => checkedAt >= at && now >= at
    case Update(_, _, _, now) => now >= at
    case Withdraw(_, _, now) => now >= at
    case Accept(_, _, _, checkedAt) => checkedAt >= at
    case _ => true
  }

  predicate NoneBefore(calls: seq<Call>, at: Instant) {
    forall c :: c in calls ==> NotBefore(c, at)
  }

  /** The job takes bids at `at`. */
  predicate TakesBids(db: Db, j: Uuid, at: Instant) {
    j in db.jobs && db.jobs[j].status == Open && (db.jobs[j].endsAt.Some? ==> at < db.jobs[j].endsAt.value)
  }

  /** Nothing can move the deadline any more: no extension left, or no active bid that could still be lowered. */
  ghost predicate CannotExtend(db: Db, j: Uuid)
    requires j in db.jobs
  {
    || db.jobs[j].listing.auctionType == Sealed
    || db.jobs[j].extensions >= MAX_EXTENSIONS
    || forall b :: b in ActiveBids(db, j) ==> db.bids[b].amount <= 1
  }

  ghost predicate Stuck(db: Db, j: Uuid, at: Instant) {
    j in db.jobs && db.jobs[j].endsAt.Some? && db.jobs[j].endsAt.value <= at && CannotExtend(db, j)
  }

  lemma StuckBids(h: History, c: Call, j: Uuid, at: Instant)
    requires ForeignKeys(h.db) && Stuck(h.db, j, at) && NotBefore(c, at)
    ensures forall b :: b in ActiveBids(Step(h, c).db, j) ==>
      b in ActiveBids(h.db, j) && Step(h, c).db.bids[b].amount <= h.db.bids[b].amount
  {
  }

  lemma StuckDeadline(h: History, c: Call, j: Uuid, at: Instant)
    requires ForeignKeys(h.db) && Stuck(h.db, j, at) && NotBefore(c, at)
    ensures j in Step(h, c).db.jobs && Step(h, c).db.jobs[j].listing == h.db.jobs[j].listing
    ensures Step(h, c).db.jobs[j].endsAt == h.db.jobs[j].endsAt
    ensures Step(h, c).db.jobs[j].extensions == h.db.jobs[j].extensions
  {
  }

  lemma {:induction false} StaysStuck(calls: seq<Call>, more: seq<Call>, j: Uuid, at: Instant)
    requires Stuck(Run(calls).db, j, at) && NoneBefore(more, at)
    ensures Stuck(Run(calls + more).db, j, at)
    decreases |more|
  {
    if more == [] {
      assert calls + more == calls;
    } else {
      var init, last := more[..|more| - 1], more[|more| - 1];
      assert calls + more == calls + init + [last] && last in more;
      StaysStuck(calls, init, j, at);
      RunNext(calls + init, last);
      StuckBids(Run(calls + init), last, j, at);
      StuckDeadline(Run(calls + init), last, j, at);
    }
  }

  /** From its deadline on, the job never takes bids again, whatever is called. */
  ghost predicate ClosedForGood(calls: seq<Call>, j: Uuid, deadline: Instant) {
    forall more: seq<Call> :: NoneBefore(more, deadline) ==> !TakesBids(Run(calls + more).db, j, deadline)
  }

  /** Lowering a bid after the deadline extends it: `UpdateBid` never looks at the deadline. */
  lemma LoweringReopens(calls: seq<Call>, j: Uuid, b: Uuid)
    requires j in Run(calls).db.jobs && Run(calls).db.jobs[j].status == Open && Run(calls).db.jobs[j].endsAt.Some?
    requires !CannotExtend(Run(calls).db, j)
    requires b in ActiveBids(Run(calls).db, j) && Run(calls).db.bids[b].amount > 1
    ensures !ClosedForGood(calls, j, Run(calls).db.jobs[j].endsAt.value)
  {
    var db := Run(calls).db;
    var deadline := db.jobs[j].endsAt.value;
    var call := Update(b, db.bids[b].provider, 1, deadline);
    RunNext(calls, call);
    assert NoneBefore([call], deadline);
    assert TakesBids(Run(calls + [call]).db, j, deadline);
  }

  /**
   A refusal as closed, at or after the deadline of an open job, is final exactly when it has no extension
   left, is sealed, or has no active bid above one cent.
   */
  lemma ClosedIsFinal(calls: seq<Call>, j: Uuid)
    requires j in Run(calls).db.jobs && Run(calls).db.jobs[j].status == Open && Run(calls).db.jobs[j].endsAt.Some?
    ensures ClosedForGood(calls, j, Run(calls).db.jobs[j].endsAt.value) <==> CannotExtend(Run(calls).db, j)
  {
    var db := Run(calls).db;
    var deadline := db.jobs[j].endsAt.value;
    if CannotExtend(db, j) {
      forall more: seq<Call> | NoneBefore(more, deadline) ensures !TakesBids(Run(calls + more).db, j, deadline) {
        StaysStuck(calls, more, j, deadline);
      }
    } else {
      var b :| b in ActiveBids(db, j) && db.bids[b].amount > 1;
      LoweringReopens(calls, j, b);
    }
  }

  /** What closed for good means to a provider. */
  lemma RefusedForGood(
      calls: seq<Call>, more: seq<Call>, j: Uuid, deadline: Instant, provider: Uuid, amount: int, newId: Uuid,
      checkedAt: Instant)
    requires ClosedForGood(calls, j, deadline) && NoneBefore(more, deadline) && deadline <= checkedAt
    ensures PlaceBidError(Run(calls + more).db, j, provider, amount, newId, checkedAt).Some?
    ensures AcceptOfferError(Run(calls + more).db, j, provider, newId, checkedAt).Some?
    ensures amount > 0 && j in Run(calls + more).db.jobs && Run(calls + more).db.jobs[j].status == Open ==>
      && j in ExpiredJobs(Run(calls + more).db, checkedAt)
      && PlaceBidError(Run(calls + more).db, j, provider, amount, newId, checkedAt) == Some(AuctionClosed)
  {
    assert !TakesBids(Run(calls + more).db, j, deadline);
    if amount > 0 {
      SweptJobsRefuseBids(Run(calls + more).db, j, provider, amount, newId, checkedAt);
    }
  }

  // ----- the log against the live price -----

  lemma LowestUnique(bids: map<Uuid, Bid>, ids: set<Uuid>, p: int, q: int)
    requires ids <= bids.Keys && IsLowest(bids, ids, p) && IsLowest(bids, ids, q)
    ensures p == q
  {
  }

  /** Every bid of `xs` is matched, or beaten, by one of `ys`. */
  ghost predicate Undercut(bids: map<Uuid, Bid>, xs: set<Uuid>, ys: set<Uuid>)
    requires xs <= bids.Keys && ys <= bids.Keys
  {
    forall x :: x in xs ==> exists y :: y in ys && bids[y].amount <= bids[x].amount
  }

  /** Two groups of bids have the same lowest price exactly when each undercuts what the other has extra. */
  lemma SameLowest(bids: map<Uuid, Bid>, xs: set<Uuid>, ys: set<Uuid>, p: int, q: int)
    requires xs <= bids.Keys && ys <= bids.Keys && IsLowest(bids, xs, p) && IsLowest(bids, ys, q)
    requires forall b :: b in xs + ys ==> bids[b].amount > 0
    ensures p == q <==> Undercut(bids, xs - ys, ys) && Undercut(bids, ys - xs, xs)
  {
    if Undercut(bids, xs - ys, ys) && Undercut(bids, ys - xs, xs) {
      assert forall x :: x in xs ==> x in ys || x in xs - ys;
      assert forall y :: y in ys ==> y in xs || y in ys - xs;
    }
  }

  /** Bids made by PlaceBid, withdrawn ones included. */
  function PlacedOn(h: History, job: Uuid): set<Uuid> {
    set b | b in h.db.bids && h.db.bids[b].job == job && b in h.placed
  }

  lemma LoggedPriceIsLowest(h: History, j: Uuid)
    requires Inv(h) && j in h.db.jobs && h.db.jobs[j].listing.auctionType == Live
    ensures IsLowest(h.db.bids, Logged(h, j), WinningPrice(RowsOf(h.db.events, j)))
  {
    assert LogFor(h, j);
  }

  lemma AmountsPositive(h: History)
    requires Inv(h)
    ensures forall b :: b in h.db.bids ==> h.db.bids[b].amount > 0
  {
    forall b | b in h.db.bids ensures h.db.bids[b].amount > 0 {
      assert SoundBid(h, b);
    }
  }

  /**
   Whatever order equal timestamps come back in, the replay's winning price is the least current
   price of the bids the log has seen: those placed, and those accepted at the offer and then updated.
   */
  lemma ReplayMatchesBids(calls: seq<Call>, j: Uuid, rows: seq<Event>, price: int)
    requires j in Run(calls).db.jobs && Run(calls).db.jobs[j].listing.auctionType == Live
    requires multiset(rows) == multiset(RowsOf(Run(calls).db.events, j))
    ensures IsWinning(rows, price) <==> IsLowest(Run(calls).db.bids, Logged(Run(calls), j), price)
  {
    RunKeepsInv(calls);
    var h := Run(calls);
    AnyRowOrderSamePrice(h.db.events, j, rows, price);
    LoggedPriceIsLowest(h, j);
    if IsLowest(h.db.bids, Logged(h, j), price) {
      LowestUnique(h.db.bids, Logged(h, j), price, WinningPrice(RowsOf(h.db.events, j)));
    }
  }

  /** It is the least price among placed bids exactly when no updated accepted bid undercuts them all. */
  lemma ReplayMatchesPlacedBids(calls: seq<Call>, j: Uuid, price: int)
    requires j in Run(calls).db.jobs && Run(calls).db.jobs[j].listing.auctionType == Live
    requires IsLowest(Run(calls).db.bids, PlacedOn(Run(calls), j), price)
    ensures price == WinningPrice(RowsOf(Run(calls).db.events, j)) <==>
      Undercut(Run(calls).db.bids, Logged(Run(calls), j) - PlacedOn(Run(calls), j), PlacedOn(Run(calls), j))
  {
    RunKeepsInv(calls);
    var h := Run(calls);
    AmountsPositive(h);
    LoggedPriceIsLowest(h, j);
    var placed, logged := PlacedOn(h, j), Logged(h, j);
    assert placed - logged == {};
    SameLowest(h.db.bids, placed, logged, price, WinningPrice(RowsOf(h.db.events, j)));
  }

  /**
   The live price shown while the auction is open equals the replay's exactly when every withdrawn
   logged bid is matched by an active one, and every accepted bid never updated by a logged one.
   */
  lemma LivePriceMatchesReplay(calls: seq<Call>, j: Uuid, price: int)
    requires j in Run(calls).db.jobs && Run(calls).db.jobs[j].listing.auctionType == Live
    requires IsLowest(Run(calls).db.bids, ActiveBids(Run(calls).db, j), price)
    ensures price == WinningPrice(RowsOf(Run(calls).db.events, j)) <==>
      && Undercut(
           Run(calls).db.bids, Logged(Run(calls), j) - ActiveBids(Run(calls).db, j), ActiveBids(Run(calls).db, j))
      && Undercut(Run(calls).db.bids, ActiveBids(Run(calls).db, j) - Logged(Run(calls), j), Logged(Run(calls), j))
  {
    RunKeepsInv(calls);
    var h := Run(calls);
    AmountsPositive(h);
    LoggedPriceIsLowest(h, j);
    SameLowest(h.db.bids, ActiveBids(h.db, j), Logged(h, j), price, WinningPrice(RowsOf(h.db.events, j)));
  }

  /** In particular when nobody withdrew and nobody accepted the offer. */
  lemma LivePriceIsReplayed(calls: seq<Call>, j: Uuid, price: int)
    requires j in Run(calls).db.jobs && Run(calls).db.jobs[j].listing.auctionType == Live
    requires Run(calls).db.jobs[j].status == Open
    requires forall b :: b in Run(calls).db.bids && Run(calls).db.bids[b].job == j ==>
      Run(calls).db.bids[b].status != Withdrawn && b in Run(calls).placed
    ensures IsLowest(Run(calls).db.bids, ActiveBids(Run(calls).db, j), price) <==>
      price == WinningPrice(RowsOf(Run(calls).db.events, j))
  {
    RunKeepsInv(calls);
    var h := Run(calls);
    LoggedPriceIsLowest(h, j);
    assert ActiveBids(h.db, j) == Logged(h, j) by {
      forall b | b in h.db.bids && h.db.bids[b].job == j ensures h.db.bids[b].status == Active {
        assert StatusFollows(h.db, b);
      }
    }
    if IsLowest(h.db.bids, ActiveBids(h.db, j), price) {
      LowestUnique(h.db.bids, Logged(h, j), price, WinningPrice(RowsOf(h.db.events, j)));
    }
  }

  // ----- an accepted offer, lowered -----

  /** The default auction duration, 72 hours. */
  const DURATION: int := 72 * 60 * 60 * 1_000_000

  function AcceptedOffer(j: Uuid, provider: Uuid, id: Uuid, listing: Listing): seq<Call> {
    [Publish(j, Job(listing, Open, Some(DURATION), 0, 0, None, None))] + [Accept(j, provider, id, 0)]
  }

  /** Accept the offer, lower it to `price`, award it. */
  function LoweredOffer(j: Uuid, provider: Uuid, id: Uuid, listing: Listing, price: int): seq<Call> {
    AcceptedOffer(j, provider, id, listing) + [Update(id, provider, price, 0)] + [Award(j, id, listing.customer)]
  }

  lemma AcceptedOfferRun(j: Uuid, provider: Uuid, id: Uuid, listing: Listing)
    requires listing.offer.Some? && listing.offer.value > 0
    ensures Run(AcceptedOffer(j, provider, id, listing)) == History(
      Db(map[j := Job(listing, Open, Some(DURATION), 0, 1, None, None)],
         map[id := Bid(j, provider, listing.offer.value, listing.offer.value, true, Active, [])],
         []),
      map[j := Job(listing, Open, Some(DURATION), 0, 0, None, None)],
      {})
  {
    var publish := Publish(j, Job(listing, Open, Some(DURATION), 0, 0, None, None));
    RunNext([], publish);
    assert [] + [publish] == [publish];
    RunNext([publish], Accept(j, provider, id, 0));
  }

  lemma LoweredRun(j: Uuid, provider: Uuid, id: Uuid, listing: Listing, price: int)
    requires listing.auctionType == Live && listing.offer.Some? && 0 < price < listing.offer.value
    ensures Run(AcceptedOffer(j, provider, id, listing) + [Update(id, provider, price, 0)]) == History(
      Db(map[j := Job(listing, Open, Some(DURATION), 0, 1, None, None)],
         map[id := Bid(j, provider, price, listing.offer.value, true, Active, [listing.offer.value])],
         [Event(j, price, BidUpdated, 0)]),
      map[j := Job(listing, Open, Some(DURATION), 0, 0, None, None)],
      {})
  {
    AcceptedOfferRun(j, provider, id, listing);
    RunNext(AcceptedOffer(j, provider, id, listing), Update(id, provider, price, 0));
    var updates: seq<int>, events: seq<Event> := [], [];
    assert updates + [listing.offer.value] == [listing.offer.value];
    assert events + [Event(j, price, BidUpdated, 0)] == [Event(j, price, BidUpdated, 0)];
  }

  /** An awarded job with a deadline, a replay price of `price` and no placed bid at all. */
  lemma LoweredOfferRun(j: Uuid, provider: Uuid, id: Uuid, listing: Listing, price: int)
    requires listing.auctionType == Live && listing.offer.Some? && 0 < price < listing.offer.value
    ensures var h := Run(LoweredOffer(j, provider, id, listing, price));
      && j in h.db.jobs && h.db.jobs[j].listing == listing && h.db.jobs[j].status == JobAwarded
      && h.db.jobs[j].endsAt.Some? && h.db.jobs[j].awardedBid == Some(id)
      && RowsOf(h.db.events, j) == [Event(j, price, BidUpdated, 0)]
      && WinningPrice(RowsOf(h.db.events, j)) == price
      && PlacedOn(h, j) == {}
  {
    var e := Event(j, price, BidUpdated, 0);
    LoweredRun(j, provider, id, listing, price);
    RunNext(
      AcceptedOffer(j, provider, id, listing) + [Update(id, provider, price, 0)], Award(j, id, listing.customer));
    RowsOfAppend([], e, j);
    WinningPriceAppend([], e);
    assert [] + [e] == [e];
  }

  // ----- the replay price against placed bids -----

  /** In whatever run, a job with this listing is replayed with the least price among its placed bids. */
  ghost predicate ReplaysPlaced(listing: Listing) {
    forall calls: seq<Call>, j: Uuid ::
      && j in Run(calls).db.jobs && Run(calls).db.jobs[j].listing == listing
      && Replayable(Run(calls).db.jobs[j].status) ==>
        IsLowest(Run(calls).db.bids, PlacedOn(Run(calls), j), WinningPrice(RowsOf(Run(calls).db.events, j)))
  }

  predicate OfferAtMost(listing: Listing, most: int) {
    listing.offer.None? || listing.offer.value <= most
  }

  /** Below an offer of one cent there is no lower price to update to. */
  lemma OnlyPlacedAreLogged(h: History, j: Uuid)
    requires Inv(h) && j in h.db.jobs && OfferAtMost(h.db.jobs[j].listing, 1)
    ensures Logged(h, j) == PlacedOn(h, j)
  {
    forall b | b in Logged(h, j) ensures b in h.placed {
      assert SoundBid(h, b) && Listed(h, j);
      FallingLength(PricePath(h.db.bids[b]));
    }
  }

  lemma PlacedPriceIsReplayed(calls: seq<Call>, j: Uuid)
    requires j in Run(calls).db.jobs
    requires Run(calls).db.jobs[j].listing.auctionType == Live && OfferAtMost(Run(calls).db.jobs[j].listing, 1)
    ensures IsLowest(Run(calls).db.bids, PlacedOn(Run(calls), j), WinningPrice(RowsOf(Run(calls).db.events, j)))
  {
    RunKeepsInv(calls);
    OnlyPlacedAreLogged(Run(calls), j);
    LoggedPriceIsLowest(Run(calls), j);
  }

  /** A live job's replay is sure to show the least placed price exactly when it has no offer above one cent. */
  lemma ReplayIsLeastPlaced(listing: Listing)
    requires listing.auctionType == Live
    ensures ReplaysPlaced(listing) <==> OfferAtMost(listing, 1)
  {
    if OfferAtMost(listing, 1) {
      forall calls: seq<Call>, j: Uuid | j in Run(calls).db.jobs && Run(calls).db.jobs[j].listing == listing
        ensures IsLowest(Run(calls).db.bids, PlacedOn(Run(calls), j), WinningPrice(RowsOf(Run(calls).db.events, j)))
      {
        PlacedPriceIsReplayed(calls, j);
      }
    } else {
      var j := Uuid(0);
      LoweredOfferRun(j, j, j, listing, 1);
      var h := Run(LoweredOffer(j, j, j, listing, 1));
      assert !IsLowest(h.db.bids, PlacedOn(h, j), WinningPrice(RowsOf(h.db.events, j)));
    }
  }

  // ----- the savings clamp -----

  /** In no run does the replay of a job with this listing show a price above a starting bid of `start`. */
  ghost predicate NeverClamped(listing: Listing, start: int) {
    forall calls: seq<Call>, j: Uuid ::
      && j in Run(calls).db.jobs && Run(calls).db.jobs[j].listing == listing
      && Replayable(Run(calls).db.jobs[j].status) ==>
        WinningPrice(RowsOf(Run(calls).db.events, j)) <= start
  }

  /** A first price of at most `start`, or an update below an offer of at most `start + 1`. */
  lemma LoggedWithinStart(h: History, j: Uuid, start: int, b: Uuid)
    requires Inv(h) && j in h.db.jobs && b in Logged(h, j)
    requires h.db.jobs[j].listing.startingBid == Some(start) && OfferAtMost(h.db.jobs[j].listing, start + 1)
    ensures h.db.bids[b].amount <= start
  {
    assert SoundBid(h, b) && Listed(h, j);
    FallingLength(PricePath(h.db.bids[b]));
  }

  lemma PriceWithinStart(calls: seq<Call>, j: Uuid, start: int)
    requires j in Run(calls).db.jobs && start > 0
    requires var l := Run(calls).db.jobs[j].listing;
      l.auctionType == Live && l.startingBid == Some(start) && OfferAtMost(l, start + 1)
    ensures WinningPrice(RowsOf(Run(calls).db.events, j)) <= start
  {
    RunKeepsInv(calls);
    var h := Run(calls);
    LoggedPriceIsLowest(h, j);
    var price := WinningPrice(RowsOf(h.db.events, j));
    if Logged(h, j) != {} {
      var b :| b in Logged(h, j) && h.db.bids[b].amount == price;
      LoggedWithinStart(h, j, start, b);
    }
  }

  /** Over all replays the clamp on negative savings is dead code exactly when the offer is at most `start + 1`. */
  lemma ClampNeverFires(listing: Listing, start: int)
    requires start > 0 && listing.auctionType == Live && listing.startingBid == Some(start)
    ensures NeverClamped(listing, start) <==> OfferAtMost(listing, start + 1)
  {
    if OfferAtMost(listing, start + 1) {
      forall calls: seq<Call>, j: Uuid | j in Run(calls).db.jobs && Run(calls).db.jobs[j].listing == listing
        ensures WinningPrice(RowsOf(Run(calls).db.events, j)) <= start
      {
        PriceWithinStart(calls, j, start);
      }
    } else {
      var j := Uuid(0);
      LoweredOfferRun(j, j, j, listing, start + 1);
      assert WinningPrice(RowsOf(Run(LoweredOffer(j, j, j, listing, start + 1)).db.events, j)) > start;
    }
  }

  // ----- the engine, call after call -----

  /** One call on an engine object whose tables are those of `h`. */
  method Perform(engine: Engine, ghost h: History, c: Call)
    requires engine.Tables() == h.db && ForeignKeys(h.db)
    modifies engine
    ensures engine.Tables() == Step(h, c).db
  {
    match c
    case Publish(job, listing) =>
      if job !in engine.jobs && Fresh(listing) {
        engine.jobs := engine.jobs[job := listing];
      }
    case Place(job, provider, amount, newId, checkedAt, now) =>
      var _ := engine.PlaceBid(job, provider, amount, newId, checkedAt, now);
    case Update(id, provider, amount, now) =>
      var _ := engine.UpdateBid(id, provider, amount, now);
    case Withdraw(id, provider, now) =>
      var _ := engine.WithdrawBid(id, provider, now);
    case Accept(job, provider, newId, checkedAt) =>
      var _ := engine.AcceptOffer(job, provider, newId, checkedAt);
    case Award(job, id, customer) =>
      var _ := engine.AwardBid(job, id, customer);
    case Expire(job) =>
      var _ := engine.ExpireAuction(job);
  }

  /** Playing a run on an engine object leaves the tables the run describes. */
  method PlayRun(calls: seq<Call>) returns (db: Db)
    ensures db == Run(calls).db
  {
    var engine := new Engine();
    ghost var h := START;
    for n := 0 to |calls|
      invariant fresh(engine) && h == Run(calls[..n]) && engine.Tables() == h.db
    {
      assert calls[..n + 1] == calls[..n] + [calls[n]];
      RunNext(calls[..n], calls[n]);
      Perform(engine, h, calls[n]);
      h := Step(h, calls[n]);
    }
    assert calls[..|calls|] == calls;
    db := Db(engine.jobs, engine.bids, engine.events);
  }
}
