# NoMarkup: a verified model of the auction, rate-limiting, scoring and imaging cores

Dafny 4.11. `dafny verify dfyconfig.toml` checks everything.

## What is modelled

**The reverse auction** (`AuctionModel`, `BiddingEngine`, `AuctionRules`, `AuctionRuns`, `AuctionTheorems`,
`AuctionTally`, `AuctionAccounts`, `AuctionReplay`).
The job, bid and event tables, and every engine call that changes them. `BiddingEngine.Engine` performs each
call statement by statement; `AuctionModel` gives the tables and reply each call must end with; `AuctionRules` states,
row by row and in numbers, when each call is accepted, how it is refused and what it changes; `AuctionRuns`,
`AuctionTheorems`, `AuctionTally` and `AuctionAccounts` prove what every serial run keeps. *Serial* is an assumption stated here once:
`update_bid`, `withdraw_bid`, `accept_offer_price` and `expire_auction` are several statements without a transaction,
so the whole-run results are about calls that do not overlap. A run starts from empty tables and a job enters it when
it is published, open and without bids. Clock readings and new row ids are parameters; `place_bid` has two clock
readings, the engine's at the deadline check and the database's at the start of the transaction, and neither is assumed
to be ahead of the other.

**Two row-lock protocols, interleaved statement by statement** (`PlaceBidRace`, `JoinChallenge`): any number of
transactions, any interleaving, READ COMMITTED visibility, waiting on row locks and on uncommitted unique keys,
rollback at any point. `PlaceBidSerial` shows that every interleaving of bids ends with the tables of a serial run apart
from the job's status, and with the status too exactly when the job is open at every commit. What is proved of serial
runs carries over to those executions.

**Two sliding windows over Redis sorted sets** (`SortedSets`, `RateLimiter`, `ViewerCount`): trimming, whole-second
key expiry and counting, against the full history that was never trimmed. The history is a ghost field, for
comparison only. Calls are atomic and the clock does not run backwards.

**Trust scoring** (`RecencyWeighting`, `RecencyEffect`, `TrustScore`, `ScoreLaws`, `CancelledContracts`) and **fraud
patterns** (`BidPatterns`, `CompositeRisk`), over reals. 2^(-x) and ln(1+n) are function parameters known only to be
monotone and within range, where needed also strictly decreasing and halving per unit. Hash-map loops pick the next key
arbitrarily, so their results hold for every iteration order.

**BlurHash packing** (`Base83`, `BlurHash`, `BlurColours`), **paging** (`Paging`) and the **list splitter** (`TextLists`).

## Properties that turned out false, and exactly when they hold

- *The replay's winning price is the least price among placed bids.* Accepting the offer logs nothing, but updating
  that bid logs an update. `AuctionTheorems.LoweredOfferRun` is a run that ends with an awarded job, a replay price and
  no placed bid. The price is always the least over placed bids and updated accepted bids (`ReplayMatchesBids`). That
  it is the least over placed bids in every replay of a job holds if and only if the job has no offer above one cent
  (`ReplayIsLeastPlaced`).
- *With a starting bid set, savings are never negative before the clamp.* The offer price is not checked against the
  starting bid. In no replay does the clamp fire if and only if there is no offer or it is at most one cent above the
  starting bid (`ClampNeverFires`).
- *A job past its deadline takes no more bids.* `update_bid` never looks at the deadline, and on a live job it extends
  it, also afterwards. The deadline is final if and only if the job is sealed, has no extension left or has no active
  bid above one cent (`ClosedIsFinal`).
- *The pages add up to the list.* OFFSET and the page count use the raw page size, LIMIT caps it at 100. The pages
  cover the rows if and only if `Covers` holds (`PagesPartition`), and has_next is right if and only if `NextKnown`
  holds (`HasNextIsRight`); it can be trusted whatever the rows if and only if the page size is 1 to 100
  (`HasNextForAll`).
- *Bids are only ever placed on open jobs.* `place_bid` reads the status before its transaction and does not look again
  under the row lock. `PlaceBidSerial.RacedBid` is an execution that ends with an active bid on an awarded job, tables no
  serial run has. The committed tables are those of uninterrupted calls if and only if the job is open at every commit
  (`SerialExactlyWhenOpen`).
- *The viewer count includes everyone seen under 120 seconds ago and nobody seen longer ago.* It compares whole seconds.
  `CountsTooFew` misses a user seen 119.3 seconds ago, `CountsTooMany` counts one seen 120.9 seconds ago. Everyone seen
  up to 119 seconds ago is counted and nobody seen 121 seconds ago is (`GetViewerCount`); the count is the intended one
  if and only if nobody `Straddles` the 120 seconds (`NominalExactly`).
- *One more cancellation never helps.* On the same contracts that is so. A new contract, cancelled, also dilutes the
  dispute rate: it raises the risk dimension if and only if `CancellingPays` holds (`CancellingRisk`). It lowers the
  completion rate too: the overall score rises if and only if `CancellingLifts` holds (`CancellingNeverHelps`), with a
  user for whom it does (`CancellingCanLift`) and one whose risk dimension gains but whose overall score falls
  (`CancellingCanCostMore`).
- *Expiring twice is harmless.* The second call relabels a job closed with bids as closed without
  (`ExpireAgain`).

Where comments and code differ the code is followed: a comment in `compute_feedback_score` puts the confidence after
10 reviews at about 0.91, the formula gives 10/15; the error for a second bid says "active bid", but a withdrawn bid
blocks the provider too.

## Model

| member | source | states |
|---|---|---|
| BiddingEngine.Engine.PlaceBid | engines/bidding/src/engine.rs:29-160 | Every check in order, then the bid row, the counter, the event and the anti-snipe extension: tables and reply are those of the specification function; a refusal leaves the tables alone |
| BiddingEngine.Engine.UpdateBid | engines/bidding/src/engine.rs:174-283 | Only a strictly lower positive amount on one's own active bid; the old price goes into the history; on a live job an event and an extension check follow |
| BiddingEngine.Engine.WithdrawBid | engines/bidding/src/engine.rs:290-358 | The bid becomes withdrawn, the counter drops (clamped at zero), a live job logs it |
| BiddingEngine.Engine.AcceptOffer | engines/bidding/src/engine.rs:365-426 | A bid at exactly the offer; no event, no extension; an offer that is not positive fails on the amount constraint |
| BiddingEngine.Engine.AwardBid | engines/bidding/src/engine.rs:435-516 | Only the owner, only an active bid of that job; the winner is awarded, the other active bids are not selected, the job row names the winner |
| BiddingEngine.Engine.ExpireAuction | engines/bidding/src/engine.rs:680-706 | All active bids expire and are counted; the job's status tells whether there were any |
| BiddingEngine.Engine.GetLiveAuctionState | engines/bidding/src/engine.rs:779-818 | Succeeds exactly for an open live job, and then the reported lowest bid is attained by an active bid and beaten by none, 0 when there is none; with it come the 50 newest events, newest first |
| AuctionRules.PlaceAccepted | engines/bidding/src/engine.rs:35-97 | A bid is accepted exactly if it is positive, within the starting bid, on a job open at that time, and the provider's first there |
| AuctionRules.PlaceRefused | engines/bidding/src/engine.rs:35-97 | Which error every other bid gets, and that it changes nothing |
| AuctionRules.PlaceEffect | engines/bidding/src/engine.rs:62-135 | One new active bid at that price, flagged if the offer is met; one more in the count; on a live job one event, and the deadline five minutes later exactly if at most five were left and an extension of three |
| AuctionRules.UpdateAccepted | engines/bidding/src/engine.rs:180-194 | Exactly a lower positive price, by the bid's own provider, while it is active |
| AuctionRules.UpdateRefused | engines/bidding/src/engine.rs:180-194 | Which error every other update gets, and that it changes nothing |
| AuctionRules.UpdateEffect | engines/bidding/src/engine.rs:196-256 | The price, the old one at the end of the history, the event and the deadline as for a new bid; nothing else |
| AuctionRules.WithdrawAccepted | engines/bidding/src/engine.rs:295-302 | Exactly by the bid's own provider while it is active |
| AuctionRules.WithdrawRefused | engines/bidding/src/engine.rs:295-302 | Which error every other withdrawal gets, and that it changes nothing |
| AuctionRules.WithdrawEffect | engines/bidding/src/engine.rs:304-340 | The bid is withdrawn, the count one lower, a live job logs it at its last price; no deadline moves |
| AuctionRules.AcceptAccepted | engines/bidding/src/engine.rs:370-415 | Exactly a positive offer, on a job open at that time, by a provider without a bid there |
| AuctionRules.AcceptRefused | engines/bidding/src/engine.rs:370-415 | Which error every other acceptance gets, in this order, and that it changes nothing |
| AuctionRules.AcceptEffect | engines/bidding/src/engine.rs:393-425 | A bid at the offer, one more in the count, and nothing else even on a live job |
| AuctionRules.OthersCannotAward | engines/bidding/src/engine.rs:451-457 | Whoever is not the job's customer is refused, and no table changes |
| AuctionRules.AwardAccepted | engines/bidding/src/engine.rs:446-470 | Exactly by the job's customer, of an active bid on that job |
| AuctionRules.AwardRefused | engines/bidding/src/engine.rs:446-470 | Which error every other award gets, and that it changes nothing |
| AuctionRules.AwardEffect | engines/bidding/src/engine.rs:472-506 | That bid is awarded, the job's other active bids are not selected, no other bid changes; the job row names bid and provider |
| AuctionRules.ExpireBids | engines/bidding/src/engine.rs:680-692 | Exactly the job's active bids expire, and the reply is their number |
| AuctionRules.ExpireJob | engines/bidding/src/engine.rs:693-706 | The job is closed if there was one, closed without bids if not, and nothing else of any job changes |
| AuctionTheorems.RunKeepsInv | engines/bidding/src/engine.rs:29-706 | Every serial run, call by call, keeps the whole invariant: keys, one bid a provider, statuses, counter, deadline, award, prices and log |
| AuctionTheorems.PlayRun | engines/bidding/src/engine.rs:29-706 | Playing a run on the engine object ends with the tables of that run, so every result below is about the engine's methods |
| AuctionTheorems.RunEvolves | engines/bidding/src/engine.rs:188-218 | Between any two moments of a run: bids keep identity, prices never rise, final bids never change again, jobs never reopen, deadlines never move back, awards never change, the log only grows |
| AuctionTheorems.ActiveMeansOpen | engines/bidding/src/engine.rs:51-53 | In every run an active bid is on an open job |
| AuctionTheorems.AwardSafety | engines/bidding/src/engine.rs:435-506 | An awarded bid is the only winner of its job, named by the job row with its provider, unchanged through the rest of the run |
| AuctionTheorems.AwardNamesAwardedBid | engines/bidding/src/engine.rs:474-504 | The job row names a bid exactly when that bid is of this job and awarded |
| AuctionTheorems.FinalStatuses | engines/bidding/src/engine.rs:485-504 | After an award every bid of the job is awarded, not selected or withdrawn; after closing without one, expired or withdrawn |
| AuctionTheorems.PlacedInTime | engines/bidding/src/engine.rs:55-59 | A placed bid passed its check before the published deadline plus 15 minutes, on a sealed job before the deadline itself |
| AuctionTheorems.AcceptedInTime | engines/bidding/src/engine.rs:387-391 | The same for accepting the offer |
| AuctionTheorems.SnipersAreAnswered | engines/bidding/src/engine.rs:115-132 | After a live bid either three extensions are spent or more than five minutes remain, counted from the earlier of the engine's clock at the deadline check and the database's at the anti-snipe check |
| AuctionTheorems.DeadlineFormula | engines/bidding/src/engine.rs:239-256 | In every run the deadline is the published one plus five minutes per extension, with at most three, none on sealed jobs |
| AuctionAccounts.ExtendedExactly | engines/bidding/src/engine.rs:115-132 | In every run a call moves a deadline, by five minutes and one extension, exactly if it places or lowers a bid on a live job with at most five minutes to go and fewer than three extensions used |
| AuctionAccounts.StrangersChangeNothing | engines/bidding/src/engine.rs:186-192 | Only its own provider, its job's customer and the expiry ever change a bid, each only in their own way |
| AuctionAccounts.EveryBidAccounted | engines/bidding/src/engine.rs:29-706 | In every run each bid's making, each of its later prices and its end is a call by whoever was entitled to it |
| AuctionAccounts.AwardedByOwner | engines/bidding/src/engine.rs:453-457 | Whenever a job names an awarded bid, the run has an award of that bid by the job's own customer |
| AuctionTheorems.PricesOnlyFall | engines/bidding/src/engine.rs:180-218 | A bid's recorded prices and current price fall strictly from the original; it stays positive, within the starting bid if placed, within the offer if flagged, and has fewer updates than its first price |
| AuctionTheorems.BidCountExact | engines/bidding/src/engine.rs:663-672 | The stored counter is the number of bids not withdrawn, and on an open job the number of active ones |
| AuctionTheorems.WithdrawNeverClamps | engines/bidding/src/engine.rs:314-318 | Whenever a withdrawal succeeds the counter is positive, so the clamp at zero is never what decides it |
| AuctionTheorems.ClosedIsFinal | engines/bidding/src/engine.rs:188-255 | An open job past its deadline never takes bids again, whatever is called from then on, if and only if it is sealed, out of extensions or without an active bid above one cent |
| AuctionTheorems.RefusedForGood | engines/bidding/src/engine.rs:55-59 | And then every placed bid and every accepted offer is refused for the rest of the run, and while the job is open the deadline sweep lists it and bids are refused as closed |
| AuctionTheorems.ExpireAgain | engines/bidding/src/engine.rs:680-706 | A second expiry changes no bid but relabels the job as closed without bids; it is a no-op exactly when there was no active bid |
| AuctionReplay.GetAuctionReplay | gateway/internal/handler/auction_replay.go:38-164 | Answers exactly for jobs completed or awarded; the winning price is attained by a placed or updated event and none is lower; title, category, count; savings and winning price make up the starting bid, never below 0; the duration is within a second of the true one once the change of the server's UTC offset in between is taken off |
| AuctionAccounts.ReplayOfRun | gateway/internal/handler/auction_replay.go:69-164 | After any run: forbidden while the job is open; given only when the job names its winner and none of its bids is active; then with the price and the count the bid rows record |
| AuctionReplay.AnyRowOrderSamePrice | gateway/internal/handler/auction_replay.go:72-113 | Whatever order rows with equal timestamps come back in, the winning price is that of the log |
| AuctionReplay.AnyRowOrderSameCount | gateway/internal/handler/auction_replay.go:72-113 | Nor does that order change the bid count |
| AuctionTally.ReplayCountMatchesBids | gateway/internal/handler/auction_replay.go:105-106 | In every run the replay of a live job counts exactly the placements and updates its bid rows record: the two redundant histories agree |
| AuctionTheorems.ReplayMatchesBids | gateway/internal/handler/auction_replay.go:104-111 | In every run the replay price of a live job is the least current price over the bids the log has seen, 0 exactly when there are none |
| AuctionTheorems.ReplayMatchesPlacedBids | gateway/internal/handler/auction_replay.go:104-111 | It is the least over placed bids if and only if no updated accepted bid undercuts all of them |
| AuctionTheorems.LivePriceMatchesReplay | engines/bidding/src/engine.rs:793-811 | The live lowest price equals the replay price if and only if every withdrawn logged bid is matched by an active one and every accepted, never updated bid by a logged one |
| AuctionTheorems.LivePriceIsReplayed | engines/bidding/src/engine.rs:793-811 | In particular on an open job where nobody withdrew and nobody accepted the offer |
| AuctionTheorems.ReplayIsLeastPlaced | gateway/internal/handler/auction_replay.go:104-111 | Over all replays of live jobs with a given listing the price is the least over placed bids if and only if there is no offer above one cent |
| AuctionTheorems.LoweredOfferRun | engines/bidding/src/engine.rs:174-225 | For any price below the offer, a run that ends with an awarded job, that replay price and no placed bid: accept, lower, award |
| AuctionTheorems.ClampNeverFires | gateway/internal/handler/auction_replay.go:146-152 | Over all replays of live jobs the negative-savings clamp is dead code if and only if there is no offer or it is at most one cent above the starting bid |
| PlaceBidRace.CommittedStateAgrees | engines/bidding/src/engine.rs:71-135 | Under every interleaving: counter equals number of bids and of events, one bid a provider, deadline by formula, at most three extensions |
| PlaceBidRace.AnswersAreRight | engines/bidding/src/engine.rs:71-135 | A transaction reports success exactly when its bid is in, with its own row and its event; a duplicate is reported only when a bid of that provider is committed; every committed bid has its anti-snipe guarantee |
| PlaceBidRace.CommitExtendsExactly | engines/bidding/src/engine.rs:115-132 | A commit moves the committed deadline, by five minutes and one extension, exactly if at most five minutes were left and an extension of three |
| PlaceBidRace.ReadAnswer | engines/bidding/src/engine.rs:41-62 | The first reading refuses exactly an amount not allowed or a job not open then, and writes nothing |
| PlaceBidRace.InsertAnswer | engines/bidding/src/engine.rs:71-97 | With no other uncommitted bid of the provider, the insert fails exactly if one is committed |
| PlaceBidRace.GoesThrough | engines/bidding/src/engine.rs:99-135 | Once the row is free, a transaction goes through to its commit |
| PlaceBidSerial.CommitsAreSerial | engines/bidding/src/engine.rs:29-135 | Apart from the job's status, every interleaving ends with the tables of the serial run that places the committed bids one after another in commit order, none of them refused |
| PlaceBidSerial.SameTables | engines/bidding/src/engine.rs:29-135 | Unless another call changes the job's status, job row, bids and log are exactly those of that run |
| PlaceBidSerial.SerialExactlyWhenOpen | engines/bidding/src/engine.rs:41-135 | With status changes at any moment, the tables are those of the same status changes and uninterrupted bids in commit order if and only if the job is open at every commit |
| PlaceBidSerial.RacedBid | engines/bidding/src/engine.rs:41-135 | A job awarded between the status read and the row lock still gets the bid: an active bid on an awarded job, which no serial run has |
| JoinChallenge.CapacityHolds | gateway/internal/handler/challenge.go:368-424 | Under every interleaving the participants never exceed the limit and no provider is in twice |
| JoinChallenge.AnswersAreRight | gateway/internal/handler/challenge.go:378-424 | Joined is answered exactly when the row is committed; full and already joined only when still true of the committed rows |
| JoinChallenge.OnlyActiveJoined | gateway/internal/handler/challenge.go:378-389 | Under every interleaving only transactions that found the challenge active get past it, and only those that did not are told so |
| JoinChallenge.JoinAloneAnswer | gateway/internal/handler/challenge.go:378-424 | A join nobody interferes with is refused as inactive, then as full, then as already in, and otherwise adds that provider |
| SortedSets.OldestExists | gateway/internal/cache/redis.go:142-142 | A non-empty sorted set has a member of least score, whichever ZRANGE returns |
| RateLimiter.Limiter.RateLimitCheck | gateway/internal/cache/redis.go:113-153 | Allowed exactly when fewer than the limit of all earlier calls, allowed or denied, are in the window; a denial's retry-after is 1 to window seconds + 1 and names the wait after which the oldest counted call is outside, and not a full second more than needed |
| RateLimiter.RetryHint | gateway/internal/cache/redis.go:145-148 | The retry-after arithmetic lands between 1 and window seconds + 1 by itself: the clamp never decides it |
| RateLimiter.TrimmedHoldsWindow | gateway/internal/cache/redis.go:118-131 | Neither trimming nor key expiry ever drops a call that still counts |
| RateLimiter.WindowInTime | gateway/internal/cache/redis.go:116-123 | What counts is younger than the window, and everything at least a microsecond younger counts |
| RateLimiter.AnswerAll | gateway/internal/cache/redis.go:113-153 | Any sequence of calls gets the answers of a counter over the full history |
| RateLimiter.SpanBound | gateway/internal/cache/redis.go:113-153 | With a window of whole microseconds, any span shorter than the window holds at most the limit of allowed calls |
| ViewerCount.Viewers.PingViewer | gateway/internal/handler/job.go:935-951 | The trimmed set stays in step with the full ping history |
| ViewerCount.Viewers.GetViewerCount | gateway/internal/handler/job.go:979-982 | Counts everyone seen up to 119 seconds ago and nobody seen 120 seconds ago or earlier if anyone pinged this second, otherwise everyone up to 120 and nobody at 121 or earlier; and exactly those within that many whole seconds |
| ViewerCount.NominalExactly | gateway/internal/handler/job.go:940-982 | The count lies between those seen under 120 seconds ago and those seen up to 120 seconds ago if and only if no user straddles the 120 seconds |
| ViewerCount.CountsTooFew | gateway/internal/handler/job.go:940-982 | A user seen 119.3 seconds ago is missed |
| ViewerCount.CountsTooMany | gateway/internal/handler/job.go:979-982 | A user seen 120.9 seconds ago is counted |
| ViewerCount.CountAfter | gateway/internal/handler/job.go:935-982 | After any ordered sequence of pings the count depends on the history alone |
| ViewerCount.LastPingIsLatest | gateway/internal/handler/job.go:940-943 | What is kept for a user is their latest ping, and only users who pinged have one |
| RecencyWeighting.RecencyWeightedAverage | engines/trust/src/scoring.rs:72-91 | The loop yields the weighted mean, none exactly when there is no review or no weight |
| RecencyWeighting.WeightAntitone | engines/trust/src/scoring.rs:50-63 | Older reviews never weigh more |
| RecencyWeighting.WeightRange | engines/trust/src/scoring.rs:48-63 | Weights stay between the floor and 1, positive with a positive half-life |
| RecencyWeighting.ChebyshevHolds | engines/trust/src/scoring.rs:80-84 | The sum inequality behind the weighting, for lists of any length |
| RecencyWeighting.ImprovingRaises | engines/trust/src/scoring.rs:72-91 | If newer reviews are rated no lower, the weighted average is at least the plain one |
| RecencyWeighting.DecliningLowers | engines/trust/src/scoring.rs:72-91 | If newer reviews are rated no higher, it is at most the plain one |
| RecencyWeighting.AverageInRange | engines/trust/src/scoring.rs:72-91 | It lies between the lowest and the highest rating |
| RecencyWeighting.AverageExists | engines/trust/src/scoring.rs:86-88 | With a positive half-life or floor, the no-weight exit is never taken for a non-empty list |
| RecencyEffect.WeightAtHalfLives | engines/trust/src/scoring.rs:59-63 | After k half-lives a review weighs 1/2^k, or the floor if that is more |
| RecencyEffect.WeightWithoutHalfLife | engines/trust/src/scoring.rs:50-57 | Without a half-life every review but those of today weighs the floor |
| RecencyEffect.WeightStrict | engines/trust/src/scoring.rs:50-63 | A review weighs strictly more exactly if it is newer, the other is not of today, and it is not itself down at the floor |
| RecencyEffect.AverageOfTwo | engines/trust/src/scoring.rs:72-91 | The average of a review of today and one k half-lives old counts the older one w = max(floor, 1/2^k): (x + w y) / (1 + w) |
| RecencyEffect.ImprovingRaisesStrictly | engines/trust/src/scoring.rs:72-91 | If newer reviews are rated no lower, the average is strictly above the plain one if and only if somebody weighing more rated strictly higher |
| RecencyEffect.DecliningLowersStrictly | engines/trust/src/scoring.rs:72-91 | The mirror image for newer reviews rated no higher |
| TrustScore.FeedbackMonotone | engines/trust/src/scoring.rs:129-181 | With the same number of reviews, no input worse means no lower feedback score |
| TrustScore.VolumeMonotone | engines/trust/src/scoring.rs:231-280 | More work, recency, repeat customers, completion or a faster known response never lowers the volume score |
| ScoreLaws.FiveNeutralReviews | engines/trust/src/scoring.rs:129-147 | Apart from adjustments the feedback score is the rating averaged with five neutral reviews more |
| ScoreLaws.FeedbackAddsUp | engines/trust/src/scoring.rs:129-181 | Trend, five-star share, disputes lost and one-star share each add or cost an amount given in numbers, within 0 and 1 |
| ScoreLaws.CountsGive | engines/trust/src/scoring.rs:231-280 | Up to ten recent jobs give 0.02 each, up to five repeat customers 0.03 each |
| ScoreLaws.JobsGive | engines/trust/src/scoring.rs:231-280 | Completed jobs give up to 0.40, logarithmically up to fifty |
| ScoreLaws.RatesGive | engines/trust/src/scoring.rs:231-280 | The completion rate gives 0.15 of itself, a response time up to 0.10, an unknown one 0.05 |
| ScoreLaws.NothingGives | engines/trust/src/scoring.rs:231-280 | Nothing done, nothing completed and a slow response score 0 |
| ScoreLaws.SingleIncidents | engines/trust/src/scoring.rs:313-328 | What cancellations, disputes, no-shows or late deliveries cost by themselves, in numbers |
| ScoreLaws.IncidentsAddUp | engines/trust/src/scoring.rs:313-328 | And together: the costs add up, down to 0 |
| ScoreLaws.FraudLaw | engines/trust/src/scoring.rs:354-359 | A tenth for each of up to five signals, 0.3 for active flags however many |
| ScoreLaws.OverallLaw | engines/trust/src/scoring.rs:376-380 | 35, 20, 25 and 20 hundredths of feedback, volume, risk and fraud |
| ScoreLaws.UnderReviewExactly | engines/trust/src/engine.rs:847-860 | A user is under review if and only if a fraud flag is active |
| ScoreLaws.ClearedFlagsRestore | engines/trust/src/engine.rs:858-913 | With the last flag cleared the tier is the greatest whose numbers the user reaches |
| ScoreLaws.StandingIs | engines/trust/src/engine.rs:840-913 | The tier looks at the overall score, the completed jobs up to the largest i32, the reviews and the plain average rating |
| TrustScore.RiskMonotone | engines/trust/src/scoring.rs:313-328 | More incidents on the same contracts never raise the risk score |
| TrustScore.CompositeIsWeightedSum | engines/trust/src/models.rs:93-95 | For real dimension scores the composite's clamp never fires: it equals the plain weighted sum |
| TrustScore.PerfectOverall | engines/trust/src/scoring.rs:376-380 | The overall score is 1 exactly when feedback and volume are, no contract has an incident of any kind, and there is no signal and no flag |
| TrustScore.CascadeIsGreatest | engines/trust/src/engine.rs:870-913 | For an unflagged user the cascade returns exactly the greatest tier whose whole requirement row is met |
| TrustScore.TierMonotone | engines/trust/src/engine.rs:840-913 | A user at least as good in every column, with no more flags, never gets a lower tier |
| TrustScore.EndToEndMonotone | engines/trust/src/engine.rs:171-199 | No worse in any input, no worse in overall score or tier |
| TrustScore.MishapsNeverHelp | engines/trust/src/scoring.rs:313-359 | On the same contracts, one more cancellation, dispute, no-show, late delivery, signal or flag never raises overall score or tier |
| CancelledContracts.CancellingRisk | engines/trust/src/scoring.rs:313-328 | A new contract that is then cancelled raises the risk dimension if and only if cancellations are at their cap, disputes below theirs, and the other penalties leave something to gain |
| CancelledContracts.OverallChange | engines/trust/src/engine.rs:616-629 | The overall score moves by a quarter of what the risk dimension gains less 0.03 of what the completion rate loses |
| CancelledContracts.CancellingNeverHelps | engines/trust/src/engine.rs:616-629 | With the completion rate recomputed, and the response time as it was, that contract raises the overall score if and only if it pays in the risk dimension and, on the counts, the dilution of the disputes outweighs the loss of the rate; otherwise the tier does not rise either |
| CancelledContracts.CancellingCanLift | engines/trust/src/scoring.rs:313-328 | Ten contracts, five completed, five cancelled, one dispute: an eleventh, cancelled, raises the overall score |
| CancelledContracts.CancellingCanCostMore | engines/trust/src/scoring.rs:313-328 | A thousand contracts, 250 completed, 250 cancelled, one dispute: the risk dimension gains, the overall score falls |
| CancelledContracts.FirstContractCancelled | engines/trust/src/engine.rs:625-629 | The very first contract, cancelled, costs 0.155 of the overall score |
| BidPatterns.DetectRapidFire | engines/fraud/src/behavioral.rs:362-391 | The loop finds the length of the longest stretch of neighbouring gaps under ten seconds and scores it |
| BidPatterns.RapidGaps | engines/fraud/src/behavioral.rs:362-391 | A gap is rapid exactly below ten seconds, whichever bid is the earlier |
| BidPatterns.RapidTiers | engines/fraud/src/behavioral.rs:382-391 | Runs of 2, 3 and 6 gaps score 0.10, 0.25 and 0.40 |
| BidPatterns.AppendNeverLowers | engines/fraud/src/behavioral.rs:362-391 | A later bid never lowers that length or its score |
| BidPatterns.DetectDuplicateAmounts | engines/fraud/src/behavioral.rs:506-544 | The score is that of the greatest number of different jobs bid on at one amount, for every iteration order |
| BidPatterns.DetectBidRotation | engines/fraud/src/behavioral.rs:470-503 | The score is that of the share of jobs with a withdrawn bid, for every iteration order |
| BidPatterns.DetectShillBidding | engines/fraud/src/behavioral.rs:402-465 | The score counts the customer sessions sharing an address or a fingerprint with a bid on that customer's job |
| BidPatterns.ShillTiers | engines/fraud/src/behavioral.rs:446-465 | One or more shared fingerprints score 0.35 or 0.50, else one or more addresses 0.15 or 0.25 |
| BidPatterns.RotationTiers | engines/fraud/src/behavioral.rs:470-503 | The score by fifths of the jobs with a withdrawal, in integers |
| BidPatterns.DuplicateTiers | engines/fraud/src/behavioral.rs:506-544 | The score by the number and the share of jobs at one amount, in integers |
| BidPatterns.GroupingsOrderFree | engines/fraud/src/behavioral.rs:470-544 | Any permutation of the bids gives the same rotation and duplicate scores |
| BidPatterns.ShillOrderFree | engines/fraud/src/behavioral.rs:402-465 | And the same shill score |
| BidPatterns.DuplicateRatioInRange | engines/fraud/src/behavioral.rs:533-533 | The duplicate ratio is within 0..1 |
| BidPatterns.RotationRatioInRange | engines/fraud/src/behavioral.rs:491-491 | The withdrawal ratio is within 0..1 |
| BidPatterns.ScoreBidPatterns | engines/fraud/src/behavioral.rs:296-359 | Rapid fire is reported exactly for a run of at least two, shill exactly if some session shares an address or fingerprint, rotation exactly for five bids on three jobs with a withdrawal on over 40% of them; the score is the clamped sum of all four |
| BidPatterns.SignalsAddUp | engines/fraud/src/behavioral.rs:296-359 | The four scores add up, to 1 at most |
| CompositeRisk.RiskMonotone | engines/fraud/src/behavioral.rs:832-871 | Stronger signals never lower the score or soften the action, whatever the thresholds |
| CompositeRisk.ScoreBounds | engines/fraud/src/behavioral.rs:849-861 | The score is between the weighted average and the strongest signal; one signal above 0.8 keeps it at 0.5 or more, above 0.6 at 0.3 or more |
| CompositeRisk.OneStrongSignalIsReviewed | engines/fraud/src/behavioral.rs:775-871 | With the default thresholds one signal above 0.6 always leads to an action |
| CompositeRisk.ScoreLaw | engines/fraud/src/behavioral.rs:841-861 | 25, 30, 25 and 20 hundredths of the four signals; at least 0.3 with one above 0.6, at least 0.5 with one above 0.8 |
| CompositeRisk.SignalsClipped | engines/fraud/src/behavioral.rs:839-842 | Signals outside 0..1 count as the nearest end |
| CompositeRisk.ActionLaw | engines/fraud/src/behavioral.rs:863-871 | The action is that of the highest threshold reached |
| Base83.Base83Encode | engines/imaging/src/engine.rs:699-706 | The buffer loop writes exactly the base-83 digits, most significant first |
| Base83.DecodeEncoded | engines/imaging/src/engine.rs:699-706 | Decoding an encoded value gives it back modulo the capacity of the width |
| Base83.EncodeDecoded | engines/imaging/src/engine.rs:696-706 | Encoding a decoded string of the alphabet gives it back |
| BlurHash.EncodeBlurhash | engines/imaging/src/engine.rs:708-745 | The hash is the packing of the quantised size, maximum, average colour and components |
| BlurHash.BlurhashLossless | engines/imaging/src/engine.rs:708-782 | It has length 4 + 2·cx·cy over the alphabet, and unpacking returns every quantised value |
| BlurHash.PackLossless | engines/imaging/src/engine.rs:708-745 | Packing loses nothing for any values that fit their fields |
| BlurHash.DcRoundTrip | engines/imaging/src/engine.rs:766-771 | The average colour fits four digits and its three bytes come back |
| BlurHash.AcRoundTrip | engines/imaging/src/engine.rs:777-782 | A component is at most 6858, fits two digits, and its three parts come back |
| BlurColours.SolidColour | engines/imaging/src/engine.rs:747-771 | Decoded and encoded again, every colour gives its own three bytes, red highest |
| BlurColours.NearestByte | engines/imaging/src/engine.rs:747-755 | Light goes to the nearest byte, linearly near black |
| BlurColours.LightClipped | engines/imaging/src/engine.rs:747-755 | Light outside 0..1 gives 0 or 255 |
| BlurColours.ComponentSteps | engines/imaging/src/engine.rs:773-782 | Components keep their order; none is 9, the extremes are 18 and 0 |
| BlurColours.ComponentOrder | engines/imaging/src/engine.rs:777-782 | Within a component red counts 361, green 19 and blue 1 |
| BlurColours.MaximumSteps | engines/imaging/src/engine.rs:720-733 | The quantised maximum is within half a step, and stands for (q + 1) / 167 |
| BlurColours.QuantisedFields | engines/imaging/src/engine.rs:712-743 | The average colour comes from the first factor, the maximum from the largest size among all other components, the components from these in order |
| BlurColours.FieldsInOrder | engines/imaging/src/engine.rs:708-745 | Size, maximum, average colour and components stand in this order, each with its own weights |
| BlurColours.FourByThree | engines/imaging/src/engine.rs:640-688 | The service's own 4 by 3 hashes start with L and have 28 characters |
| BlurColours.AlphabetIs | engines/imaging/src/engine.rs:696-697 | The 83 characters in their order |
| Paging.PagesPartition | engines/bidding/src/engine.rs:593-594 | Pages 1 to total_pages add up to the full list, without gap or repeat, if and only if the page size is 1 to 100, or the list is empty, or it has at most 100 rows and the page size is larger |
| Paging.PageCountExactly | engines/bidding/src/grpc.rs:275-279 | The page count is right up to 2^31 - 1 pages, and negative beyond |
| Paging.HasNextIsRight | engines/bidding/src/grpc.rs:275-289 | From page 1 on, for any page size: has_next says whether rows follow the page if and only if the size is 1 to 100, or larger and the rows that follow are not all cut off from this very page, or smaller and none follow |
| Paging.HasNextForAll | engines/bidding/src/grpc.rs:275-289 | It does so for every list and every page from 1 on if and only if the page size is 1 to 100 |
| TextLists.SplitString | gateway/internal/handler/job.go:882-893 | The parts contain no separator and join back to the text |
| TextLists.SplitUnique | gateway/internal/handler/job.go:882-893 | No other list of such parts joins to the same text |

## Left out

- SQL, Redis, gRPC, HTTP and authentication plumbing, database and Redis failures (with the limiter's fail-open), and the publish to live subscribers.
- created_at, updated_at, awarded_at and withdrawn_at on bids, the timestamps inside bid_updates, and the event row ids.
- The foreign keys of bids and challenge participants to users: providers are taken to exist.
- Overlapping update_bid, withdraw_bid, accept_offer_price and expire_auction calls: they are not transactional, and results about them are for serial runs.
- A place_bid transaction racing an award or an expiry: only its own row effects are covered (`PlaceBidRace` lets the status change at any time).
- The job service's own closing, cancelling and awarding of jobs; a job enters a run by being published and then only the engine changes it.
- The jobs closing within two hours in check_auction_deadlines, list_bids_for_job ordering, rank_bids and the analytics percentiles: not modelled.
- Two limiter calls in the same nanosecond (they share a set member), and other calls between the two round trips of a denial.
- Floating-point rounding, NaN and infinities; the logarithm, the power functions and the cosine transform themselves.
- The reason strings of the fraud results, the u32 limit of the shill counters, geolocation, device fingerprints and historical scores.
- splitCommas and trimSpace, image resizing and cropping, codecs and uploads: not modelled.
- TextLists.SplitString: works on characters where the source works on bytes, which agrees for an ASCII separator.
- Paging.PagesPartition: is for fewer than 2^31 rows; what the page count becomes beyond is in `PageCountExactly`.
