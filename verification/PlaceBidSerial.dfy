/**
 Every interleaving of `PlaceBidRace` ends, apart from the job's status, with the tables of a
 serial run: the committed transactions, one uninterrupted `PlaceBid` each, in the order in which
 they committed. With the status it does so exactly when the job is open at every commit: the
 status is read before the transaction and not looked at again under the row lock.
 */
module PlaceBidSerial {
  import opened Wrappers
  import opened AuctionModel
  import opened PlaceBidRace
  import AuctionRuns
  import AuctionTheorems

  /** A live job as it is published. */
  predicate Publishable(row: Job) {
    AuctionRuns.Fresh(row) && row.listing.auctionType == Live
  }

  /** The transaction as one call. */
  function AsCall(s: State, tx: Uuid): AuctionRuns.Call
    requires tx in s.txs
  {
    var t := s.txs[tx];
    AuctionRuns.Place(s.job, t.provider, t.amount, tx, t.checkedAt, t.now)
  }

  predicate Commits(s: State, a: Action) {
    a.Commit? && At(s, a.tx, Ready)
  }

  /** The committed transactions in commit order, after the job was published. */
  function SerialCalls(job: Uuid, published: Job, actions: seq<Action>): seq<AuctionRuns.Call> {
    if actions == [] then [AuctionRuns.Publish(job, published)]
    else
      var init, last := actions[..|actions| - 1], actions[|actions| - 1];
      var s := Execute(job, published, init);
      SerialCalls(job, published, init) + if Commits(s, last) then [AsCall(s, last.tx)] else []
  }

  /** What is committed. */
  function Tables(s: State): Db {
    Db(map[s.job := s.row], s.bids, s.events)
  }

  /** What is committed apart from status changes made beside the bids: the job counts as open. */
  function Committed(s: State): Db {
    Db(map[s.job := s.row.(status := Open)], s.bids, s.events)
  }

  /** A serial history with these tables, in which every bid came from a `PlaceBid` that succeeded. */
  ghost predicate Mirrors(h: AuctionRuns.History, s: State, published: Job) {
    h == AuctionRuns.History(Committed(s), map[s.job := published], s.bids.Keys)
  }

  lemma NotRefused(s: State, tx: Uuid)
    requires At(s, tx, Ready) && TxSound(s, tx)
    ensures var t := s.txs[tx]; PlaceBidError(Committed(s), s.job, t.provider, t.amount, tx, t.checkedAt).None?
  {
    var t := s.txs[tx];
    assert Committed(s).jobs[s.job] == s.row.(status := Open);
    assert Conflicts(s.bids, s.job, t.provider, tx) ==> Taken(s.bids, t.provider);
  }

  lemma CommitIsPlaceBid(s: State, tx: Uuid)
    requires At(s, tx, Ready) && TxSound(s, tx) && s.row.listing.auctionType == Live
    ensures var t := s.txs[tx];
      PlaceBid(Committed(s), s.job, t.provider, t.amount, tx, t.checkedAt, t.now) ==
      Reply(Committed(Next(s, Commit(tx))), Success(BidRow(s, t)))
  {
    NotRefused(s, tx);
  }

  lemma CommitMirrored(h: AuctionRuns.History, s: State, tx: Uuid, published: Job)
    requires Mirrors(h, s, published) && ForeignKeys(h.db)
    requires At(s, tx, Ready) && TxSound(s, tx) && s.row.listing.auctionType == Live
    ensures Mirrors(AuctionRuns.Step(h, AsCall(s, tx)), Next(s, Commit(tx)), published)
  {
    CommitIsPlaceBid(s, tx);
    assert Next(s, Commit(tx)).bids.Keys == s.bids.Keys + {tx};
  }

  lemma OthersCommitNothing(s: State, a: Action)
    requires !Commits(s, a)
    ensures Committed(Next(s, a)) == Committed(s) && Next(s, a).bids == s.bids && Next(s, a).job == s.job
  {
  }

  lemma PublishedFirst(job: Uuid, published: Job)
    requires Publishable(published)
    ensures Mirrors(AuctionTheorems.Run([AuctionRuns.Publish(job, published)]), Start(job, published), published)
  {
    var publish := AuctionRuns.Publish(job, published);
    assert [] + [publish] == [publish];
    AuctionTheorems.RunNext([], publish);
    assert published.(status := Open) == published;
  }

  /**
   Apart from the job's status, any interleaving amounts to placing the bids one after another, in commit
   order; none of them is refused.
   */
  lemma {:induction false} CommitsAreSerial(job: Uuid, published: Job, actions: seq<Action>)
    requires Publishable(published)
    ensures var h := AuctionTheorems.Run(SerialCalls(job, published, actions));
      Mirrors(h, Execute(job, published, actions), published)
  {
    if actions == [] {
      PublishedFirst(job, published);
    } else {
      var init, last := actions[..|actions| - 1], actions[|actions| - 1];
      var s, calls := Execute(job, published, init), SerialCalls(job, published, init);
      CommitsAreSerial(job, published, init);
      ExecuteKeepsInv(job, published, init);
      if Commits(s, last) {
        assert TxSound(s, last.tx);
        CommitMirrored(AuctionTheorems.Run(calls), s, last.tx, published);
        AuctionTheorems.RunNext(calls, AsCall(s, last.tx));
      } else {
        OthersCommitNothing(s, last);
        assert SerialCalls(job, published, actions) == calls;
      }
    }
  }

  /** Unless another call changes the status, the job stays open. */
  lemma {:induction false} StaysOpen(job: Uuid, published: Job, actions: seq<Action>)
    requires Publishable(published) && forall a :: a in actions ==> !a.SetStatus?
    ensures Execute(job, published, actions).row.status == Open
  {
    if actions != [] {
      var init, last := actions[..|actions| - 1], actions[|actions| - 1];
      assert last in actions;
      StaysOpen(job, published, init);
      ExecuteKeepsInv(job, published, init);
      StatusKept(published, Execute(job, published, init), last);
    }
  }

  lemma StatusKept(published: Job, s: State, a: Action)
    requires Inv(published, s) && !a.SetStatus?
    ensures Next(s, a).row.status == s.row.status
  {
    if Commits(s, a) {
      assert TxSound(s, a.tx);
    }
  }

  /** Without status changes, the concurrent execution and the serial run end with the same tables. */
  lemma SameTables(job: Uuid, published: Job, actions: seq<Action>)
    requires Publishable(published) && forall a :: a in actions ==> !a.SetStatus?
    ensures AuctionTheorems.Run(SerialCalls(job, published, actions)).db == Tables(Execute(job, published, actions))
  {
    CommitsAreSerial(job, published, actions);
    StaysOpen(job, published, actions);
    SameJob(job, published, actions);
  }

  lemma {:induction false} SameJob(job: Uuid, published: Job, actions: seq<Action>)
    ensures Execute(job, published, actions).job == job
  {
    if actions != [] {
      var init, last := actions[..|actions| - 1], actions[|actions| - 1];
      SameJob(job, published, init);
      JobKept(Execute(job, published, init), last);
    }
  }

  lemma JobKept(s: State, a: Action)
    ensures Next(s, a).job == s.job
  {
  }

  // ----- the status race -----

  lemma ExecuteNext(job: Uuid, published: Job, actions: seq<Action>, a: Action)
    ensures Execute(job, published, actions + [a]) == Next(Execute(job, published, actions), a)
  {
    assert (actions + [a])[..|actions|] == actions;
  }

  /** The job is awarded between the status check of one transaction and its first statement. */
  function RacedStart(tx: Uuid, provider: Uuid, amount: int, at: Instant): seq<Action> {
    [] + [ReadAndCheck(tx, provider, amount, at, at)] + [SetStatus(JobAwarded)] + [InsertBid(tx)] + [CountBid(tx)]
  }

  function RacedActions(tx: Uuid, provider: Uuid, amount: int, at: Instant): seq<Action> {
    RacedStart(tx, provider, amount, at) + [InsertEvent(tx)] + [CheckSnipe(tx)] + [Extend(tx)] + [Commit(tx)]
  }

  lemma RacedCount(job: Uuid, published: Job, tx: Uuid, provider: Uuid, amount: int, at: Instant)
    requires Publishable(published) && AllowedAmount(published.listing, amount) && BeforeDeadline(published, at)
    ensures var s := Execute(job, published, RacedStart(tx, provider, amount, at));
      At(s, tx, Counted) && s.pending.status == JobAwarded && s.bids == map[]
  {
    var read, award := ReadAndCheck(tx, provider, amount, at, at), SetStatus(JobAwarded);
    ExecuteNext(job, published, [], read);
    ExecuteNext(job, published, [] + [read], award);
    ExecuteNext(job, published, [] + [read] + [award], InsertBid(tx));
    ExecuteNext(job, published, [] + [read] + [award] + [InsertBid(tx)], CountBid(tx));
  }

  /** The bid gets in, active, on a job already awarded: tables that no serial run has. */
  lemma RacedBid(job: Uuid, published: Job, tx: Uuid, provider: Uuid, amount: int, at: Instant)
    requires Publishable(published) && AllowedAmount(published.listing, amount) && BeforeDeadline(published, at)
    ensures var s := Execute(job, published, RacedActions(tx, provider, amount, at));
      && s.row.status == JobAwarded
      && tx in s.bids && s.bids[tx].status == Active && s.bids[tx].job == s.job
      && forall calls :: AuctionTheorems.Run(calls).db != Tables(s)
  {
    var start := RacedStart(tx, provider, amount, at);
    RacedCount(job, published, tx, provider, amount, at);
    ExecuteNext(job, published, start, InsertEvent(tx));
    ExecuteNext(job, published, start + [InsertEvent(tx)], CheckSnipe(tx));
    ExecuteNext(job, published, start + [InsertEvent(tx)] + [CheckSnipe(tx)], Extend(tx));
    ExecuteNext(job, published, start + [InsertEvent(tx)] + [CheckSnipe(tx)] + [Extend(tx)], Commit(tx));
    var s := Execute(job, published, RacedActions(tx, provider, amount, at));
    assert s.row.status == JobAwarded && tx in s.bids;
    forall calls ensures AuctionTheorems.Run(calls).db != Tables(s) {
      if AuctionTheorems.Run(calls).db == Tables(s) {
        AuctionTheorems.ActiveMeansOpen(calls, tx);
      }
    }
  }

  /** The job is open whenever a bid on it is committed. */
  predicate OpenAtCommits(job: Uuid, published: Job, actions: seq<Action>) {
    actions == [] ||
    var init, last := actions[..|actions| - 1], actions[|actions| - 1];
    var s := Execute(job, published, init);
    OpenAtCommits(job, published, init) && (Commits(s, last) ==> s.row.status == Open)
  }

  /** The effect of one step if a commit were an uninterrupted `PlaceBid` on the tables `db`. */
  ghost function Uninterrupted(db: Db, s: State, a: Action): (after: Db)
    requires s.job in db.jobs
    ensures s.job in after.jobs
  {
    if Commits(s, a) then
      var t := s.txs[a.tx];
      PlaceBid(db, s.job, t.provider, t.amount, a.tx, t.checkedAt, t.now).db
    else if a.SetStatus? && s.lock.None? then
      db.(jobs := db.jobs[s.job := db.jobs[s.job].(status := a.status)])
    else db
  }

  /** The commits and status changes of an execution, each carried out uninterrupted, in that order. */
  ghost function InCommitOrder(job: Uuid, published: Job, actions: seq<Action>): (db: Db)
    ensures job in db.jobs
  {
    if actions == [] then Db(map[job := published], map[], [])
    else
      var init, last := actions[..|actions| - 1], actions[|actions| - 1];
      SameJob(job, published, init);
      Uninterrupted(InCommitOrder(job, published, init), Execute(job, published, init), last)
  }

  /** Same status, no bid that is not there, and no other job. */
  ghost predicate Below(db: Db, s: State) {
    db.jobs.Keys == {s.job} && db.jobs[s.job].status == s.row.status && db.bids.Keys <= s.bids.Keys
  }

  lemma StepStaysBelow(db: Db, s: State, a: Action)
    requires Below(db, s) && (Commits(s, a) ==> TxSound(s, a.tx))
    ensures Below(Uninterrupted(db, s, a), Next(s, a))
    ensures db.bids.Keys != s.bids.Keys ==> Uninterrupted(db, s, a).bids.Keys != Next(s, a).bids.Keys
  {
    var after := Uninterrupted(db, s, a);
    assert after.jobs.Keys == {s.job};
    if db.bids.Keys != s.bids.Keys {
      var b :| b in s.bids && b !in db.bids;
      assert b in Next(s, a).bids && b !in after.bids;
    }
  }

  /** On a job no longer open an uninterrupted `PlaceBid` is refused, but the commit goes through. */
  lemma ClosedCommitDiffers(db: Db, s: State, a: Action)
    requires Below(db, s) && Commits(s, a) && TxSound(s, a.tx) && s.row.status != Open
    ensures Uninterrupted(db, s, a).bids.Keys != Next(s, a).bids.Keys
  {
    assert a.tx !in Uninterrupted(db, s, a).bids && a.tx in Next(s, a).bids;
  }

  lemma StepMatches(s: State, a: Action)
    requires Commits(s, a) ==> TxSound(s, a.tx) && s.row.status == Open && s.row.listing.auctionType == Live
    ensures Uninterrupted(Tables(s), s, a) == Tables(Next(s, a))
  {
    if Commits(s, a) {
      assert s.row.(status := Open) == s.row;
      CommitIsPlaceBid(s, a.tx);
      assert Next(s, a).row.(status := Open) == Next(s, a).row;
    }
  }

  lemma {:induction false} OrderFollows(job: Uuid, published: Job, actions: seq<Action>)
    requires Publishable(published)
    ensures var db, s := InCommitOrder(job, published, actions), Execute(job, published, actions);
      && Below(db, s)
      && (if OpenAtCommits(job, published, actions) then db == Tables(s) else db.bids.Keys != s.bids.Keys)
  {
    if actions != [] {
      var init, last := actions[..|actions| - 1], actions[|actions| - 1];
      var db, s := InCommitOrder(job, published, init), Execute(job, published, init);
      OrderFollows(job, published, init);
      ExecuteKeepsInv(job, published, init);
      SameJob(job, published, init);
      assert Commits(s, last) ==> TxSound(s, last.tx);
      StepStaysBelow(db, s, last);
      if OpenAtCommits(job, published, init) {
        if Commits(s, last) && s.row.status != Open {
          ClosedCommitDiffers(db, s, last);
        } else {
          StepMatches(s, last);
        }
      }
    }
  }

  /**
   The committed tables, status included, are those of the same status changes and uninterrupted bids in
   commit order if and only if the job was open at every commit.
   */
  lemma SerialExactlyWhenOpen(job: Uuid, published: Job, actions: seq<Action>)
    requires Publishable(published)
    ensures InCommitOrder(job, published, actions) == Tables(Execute(job, published, actions)) <==>
      OpenAtCommits(job, published, actions)
  {
    OrderFollows(job, published, actions);
  }
}
