/**
 Any number of PlaceBid transactions on one live job, interleaved statement by statement
 at READ COMMITTED. The job is read, and the deadline checked, before the transaction
 begins, so that reading may be stale. The update of bid_count takes the row lock, which is
 held to the end; until then the new row version is visible to its own transaction only.
 */
module PlaceBidRace {
  import opened Wrappers
  import opened AuctionModel
  import AuctionRules

  datatype Outcome = Placed | Refused | Duplicate | RolledBack

  datatype Phase =
    | Checked
    | Inserted
    | Counted
    | Logged
    | Decided(extend: bool)
    | Ready
    | Done(outcome: Outcome)

  /** `checkedAt` is the engine's clock at the deadline check; `now` is fixed when the transaction begins. */
  datatype Tx = Tx(provider: Uuid, amount: int, checkedAt: Instant, now: Instant, phase: Phase)

  /** `row`, `bids` and `events` are what is committed; a bid's id is that of its transaction. */
  datatype State = State(
    job: Uuid,
    row: Job,
    pending: Job,
    lock: Option<Uuid>,
    bids: map<Uuid, Bid>,
    events: seq<Event>,
    txs: map<Uuid, Tx>)

  datatype Action =
    | ReadAndCheck(tx: Uuid, provider: Uuid, amount: int, checkedAt: Instant, now: Instant)
    | InsertBid(tx: Uuid)
    | CountBid(tx: Uuid)
    | InsertEvent(tx: Uuid)
    | CheckSnipe(tx: Uuid)
    | Extend(tx: Uuid)
    | Commit(tx: Uuid)
    | Rollback(tx: Uuid)
    | SetStatus(status: JobStatus)

  predicate FreshLive(row: Job) {
    row.status == Open && row.listing.auctionType == Live && row.extensions == 0 && row.bidCount == 0
  }

  function Start(job: Uuid, row: Job): State {
    State(job, row, row, None, map[], [], map[])
  }

  /** The amount is positive and within the starting bid. */
  predicate AllowedAmount(listing: Listing, amount: int) {
    amount > 0 && (listing.startingBid.Some? ==> amount <= listing.startingBid.value)
  }

  predicate BeforeDeadline(row: Job, at: Instant) {
    row.endsAt.Some? ==> at < row.endsAt.value
  }

  predicate Taken(bids: map<Uuid, Bid>, provider: Uuid) {
    exists b :: b in bids && bids[b].provider == provider
  }

  /** The rows a transaction inserts. */
  function BidRow(s: State, t: Tx): Bid {
    Bid(s.job, t.provider, t.amount, t.amount, OfferAccepted(s.row.listing.offer, t.amount), Active, [])
  }

  function EventRow(s: State, t: Tx): Event {
    Event(s.job, t.amount, BidPlaced, t.now)
  }

  predicate At(s: State, tx: Uuid, phase: Phase) {
    tx in s.txs && s.txs[tx].phase == phase
  }

  predicate HoldsRow(phase: Phase) {
    phase in {Counted, Logged, Ready} || phase.Decided?
  }

  function Move(s: State, tx: Uuid, phase: Phase): State
    requires tx in s.txs
  {
    s.(txs := s.txs[tx := s.txs[tx].(phase := phase)])
  }

  function Finish(s: State, tx: Uuid, outcome: Outcome): State
    requires tx in s.txs
  {
    Move(s, tx, Done(outcome)).(lock := if s.lock == Some(tx) then None else s.lock)
  }

  /** An uncommitted insert of the same (job, provider) makes another one wait. */
  predicate MustWait(s: State, tx: Uuid)
    requires tx in s.txs
  {
    exists o :: o in s.txs && o != tx && s.txs[o].provider == s.txs[tx].provider
      && (s.txs[o].phase == Inserted || HoldsRow(s.txs[o].phase))
  }

  /** A statement that has to wait, or a transaction not at that statement, changes nothing. */
  function Next(s: State, a: Action): State {
    match a
    case ReadAndCheck(tx, provider, amount, checkedAt, now) =>
      if tx in s.txs then s
      else
        var open := s.row.status == Open && BeforeDeadline(s.row, checkedAt);
        var allowed := open && AllowedAmount(s.row.listing, amount);
        s.(txs := s.txs[tx := Tx(provider, amount, checkedAt, now, if allowed then Checked else Done(Refused))])
    case InsertBid(tx) =>
      if !At(s, tx, Checked) || MustWait(s, tx) then s
      else if Taken(s.bids, s.txs[tx].provider) then Finish(s, tx, Duplicate)
      else Move(s, tx, Inserted)
    case CountBid(tx) =>
      if !At(s, tx, Inserted) || s.lock.Some? then s
      else Move(s, tx, Counted).(lock := Some(tx), pending := s.row.(bidCount := s.row.bidCount + 1))
    case InsertEvent(tx) =>
      if !At(s, tx, Counted) then s else Move(s, tx, Logged)
    case CheckSnipe(tx) =>
      if !At(s, tx, Logged) then s else Move(s, tx, Decided(InSnipeWindow(s.pending, s.txs[tx].now)))
    case Extend(tx) =>
      if !(tx in s.txs && s.txs[tx].phase.Decided?) then s
      else if s.txs[tx].phase.extend && s.pending.endsAt.Some?
      then Move(s, tx, Ready).(pending := s.pending.(
             endsAt := Some(s.pending.endsAt.value + SNIPE_WINDOW),
             extensions := s.pending.extensions + 1))
      else Move(s, tx, Ready)
    case Commit(tx) =>
      if !At(s, tx, Ready) then s
      else Finish(s, tx, Placed).(
             row := s.pending,
             bids := s.bids[tx := BidRow(s, s.txs[tx])],
             events := s.events + [EventRow(s, s.txs[tx])])
    case Rollback(tx) =>
      if tx !in s.txs || s.txs[tx].phase.Done? then s else Finish(s, tx, RolledBack)
    case SetStatus(status) =>
      if s.lock.Some? then s else s.(row := s.row.(status := status))
  }

  /** The row against the row the job was published with and the number of committed bids. */
  predicate RowSound(published: Job, row: Job, bids: int) {
    && row.listing == published.listing
    && row.bidCount == bids
    && 0 <= row.extensions <= MAX_EXTENSIONS
    && row.endsAt == if published.endsAt.None? then None
                     else Some(published.endsAt.value + SNIPE_WINDOW * row.extensions)
  }

  /** Five minutes are left after the earlier of the two clock readings, or the extensions are spent. */
  predicate Answered(row: Job, t: Tx) {
    row.endsAt.Some? ==>
      row.extensions == MAX_EXTENSIONS || row.endsAt.value > Earlier(t.checkedAt, t.now) + SNIPE_WINDOW
  }

  /** The uncommitted version held by the lock's owner, statement by statement. */
  predicate PendingSound(s: State, t: Tx) {
    var counted := s.row.(bidCount := s.row.bidCount + 1);
    && (t.phase in {Counted, Logged} || t.phase.Decided? ==> s.pending == counted)
    && (t.phase.Decided? ==> t.phase.extend == InSnipeWindow(counted, t.now))
    && (t.phase == Ready ==> s.pending == AntiSnipe(counted, t.now))
  }

  ghost predicate TxSound(s: State, tx: Uuid)
    requires tx in s.txs
  {
    var t := s.txs[tx];
    && (s.lock == Some(tx) <==> HoldsRow(t.phase))
    && (HoldsRow(t.phase) ==> PendingSound(s, t))
    && (Uncommitted(t.phase) ==> !Taken(s.bids, t.provider))
    && (!t.phase.Done? ==> BeforeDeadline(s.row, t.checkedAt) && AllowedAmount(s.row.listing, t.amount))
    && (tx in s.bids <==> t.phase == Done(Placed))
    && (tx in s.bids ==> s.bids[tx] == BidRow(s, t) && EventRow(s, t) in s.events && Answered(s.row, t))
    && (t.phase == Done(Duplicate) ==> Taken(s.bids, t.provider))
  }

  /** At most one uncommitted bid a provider. */
  ghost predicate InsertsDistinct(s: State) {
    forall a, b :: a in s.txs && b in s.txs && a != b && s.txs[a].provider == s.txs[b].provider ==>
      !(Uncommitted(s.txs[a].phase) && Uncommitted(s.txs[b].phase))
  }

  predicate Uncommitted(phase: Phase) {
    phase == Inserted || HoldsRow(phase)
  }

  ghost predicate BidsDistinct(s: State) {
    forall a, b :: a in s.bids && b in s.bids && s.bids[a].provider == s.bids[b].provider ==> a == b
  }

  ghost predicate Inv(published: Job, s: State) {
    && RowSound(published, s.row, |s.bids|)
    && BidsDistinct(s)
    && InsertsDistinct(s)
    && |s.events| == |s.bids| && s.bids.Keys <= s.txs.Keys
    && (s.lock.Some? ==> s.lock.value in s.txs)
    && (forall tx :: tx in s.txs ==> TxSound(s, tx))
  }

  lemma OwnStep(s: State, a: Action)
    requires s.bids.Keys <= s.txs.Keys && !a.SetStatus? && !(a.Commit? && At(s, a.tx, Ready))
    requires a.tx in s.txs ==> TxSound(s, a.tx)
    requires s.lock.Some? ==> s.lock.value in s.txs
    ensures a.tx in Next(s, a).txs ==> TxSound(Next(s, a), a.tx)
  {
  }

  lemma OtherStep(s: State, a: Action, o: Uuid)
    requires o in s.txs && TxSound(s, o)
    requires !a.SetStatus? ==> o != a.tx && (a.tx in s.txs ==> TxSound(s, a.tx)) && !(a.Commit? && At(s, a.tx, Ready))
    ensures o in Next(s, a).txs && TxSound(Next(s, a), o)
  {
    var after := Next(s, a);
    OnlyOwnTx(s, a, o);
    if a.SetStatus? {
      assert after.lock == s.lock;
    } else {
      assert after.row == s.row;
    }
  }

  lemma OnlyOwnTx(s: State, a: Action, o: Uuid)
    requires o in s.txs && (!a.SetStatus? ==> o != a.tx && !(a.Commit? && At(s, a.tx, Ready)))
    ensures o in Next(s, a).txs && Next(s, a).txs[o] == s.txs[o]
    ensures (Next(s, a).bids, Next(s, a).events, Next(s, a).job) == (s.bids, s.events, s.job)
  {
  }

  lemma StepKeepsDistinct(s: State, a: Action)
    requires InsertsDistinct(s)
    ensures InsertsDistinct(Next(s, a))
  {
    var after := Next(s, a);
    forall tx | tx in after.txs ensures OnlyFreshInserts(s, after, tx) {
      InsertWaits(s, a, tx);
    }
    InsertsStayDistinct(s, after);
  }

  /** A transaction with an uncommitted bid had one before, or got it while no other of its provider's was there. */
  ghost predicate OnlyFreshInserts(s: State, after: State, tx: Uuid)
    requires tx in after.txs
  {
    Uncommitted(after.txs[tx].phase) ==>
      && tx in s.txs && s.txs[tx].provider == after.txs[tx].provider
      && (Uncommitted(s.txs[tx].phase) || (!MustWait(s, tx) && forall o :: o in s.txs && o != tx ==>
            o in after.txs && after.txs[o] == s.txs[o]))
  }

  lemma InsertWaits(s: State, a: Action, tx: Uuid)
    requires tx in Next(s, a).txs
    ensures OnlyFreshInserts(s, Next(s, a), tx)
  {
  }

  lemma InsertsStayDistinct(s: State, after: State)
    requires InsertsDistinct(s) && forall tx :: tx in after.txs ==> OnlyFreshInserts(s, after, tx)
    ensures InsertsDistinct(after)
  {
  }

  lemma CommitTx(s: State, tx: Uuid, o: Uuid)
    requires At(s, tx, Ready) && o in s.txs && TxSound(s, o) && TxSound(s, tx)
    requires Uncommitted(s.txs[o].phase) && o != tx ==> s.txs[o].provider != s.txs[tx].provider
    requires s.row.extensions <= MAX_EXTENSIONS
    ensures TxSound(Next(s, Commit(tx)), o)
  {
    CommitTakes(s, tx, s.txs[o].provider);
  }

  lemma CommitTakes(s: State, tx: Uuid, provider: Uuid)
    requires At(s, tx, Ready) && tx !in s.bids
    ensures Taken(Next(s, Commit(tx)).bids, provider) <==> Taken(s.bids, provider) || provider == s.txs[tx].provider
  {
    var after := Next(s, Commit(tx)).bids;
    assert after[tx].provider == s.txs[tx].provider;
    forall b | b in s.bids ensures b in after && after[b] == s.bids[b] {
    }
  }

  lemma CommitRow(published: Job, s: State, tx: Uuid)
    requires RowSound(published, s.row, |s.bids|) && At(s, tx, Ready) && TxSound(s, tx) && |s.events| == |s.bids|
    ensures var after := Next(s, Commit(tx));
      RowSound(published, after.row, |after.bids|) && |after.events| == |after.bids|
  {
    var after := Next(s, Commit(tx));
    assert after.bids.Keys == s.bids.Keys + {tx};
    assert |after.bids| == |after.bids.Keys| == |s.bids| + 1;
  }

  lemma CommitDistinct(s: State, tx: Uuid)
    requires BidsDistinct(s) && At(s, tx, Ready) && TxSound(s, tx)
    ensures BidsDistinct(Next(s, Commit(tx)))
  {
  }

  lemma CommitTxs(published: Job, s: State, tx: Uuid)
    requires Inv(published, s) && At(s, tx, Ready)
    ensures forall o :: o in Next(s, Commit(tx)).txs ==> TxSound(Next(s, Commit(tx)), o)
  {
    assert TxSound(s, tx);
    forall o | o in Next(s, Commit(tx)).txs ensures TxSound(Next(s, Commit(tx)), o) {
      assert TxSound(s, o);
      CommitTx(s, tx, o);
    }
  }

  lemma CommitKeepsInv(published: Job, s: State, tx: Uuid)
    requires Inv(published, s) && At(s, tx, Ready)
    ensures Inv(published, Next(s, Commit(tx)))
  {
    assert TxSound(s, tx);
    CommitRow(published, s, tx);
    CommitDistinct(s, tx);
    StepKeepsDistinct(s, Commit(tx));
    CommitTxs(published, s, tx);
  }

  lemma OtherTxs(published: Job, s: State, a: Action)
    requires Inv(published, s) && !(a.Commit? && At(s, a.tx, Ready))
    ensures forall o :: o in Next(s, a).txs ==> TxSound(Next(s, a), o)
  {
    forall o | o in Next(s, a).txs ensures TxSound(Next(s, a), o) {
      if !a.SetStatus? && o == a.tx {
        OwnStep(s, a);
      } else {
        OtherStep(s, a, o);
      }
    }
  }

  lemma StepKeepsInv(published: Job, s: State, a: Action)
    requires Inv(published, s)
    ensures Inv(published, Next(s, a))
  {
    if a.Commit? && At(s, a.tx, Ready) {
      CommitKeepsInv(published, s, a.tx);
    } else {
      StepKeepsDistinct(s, a);
      OtherStepsKeepRow(published, s, a);
      OtherTxs(published, s, a);
    }
  }

  lemma OtherStepsKeepRow(published: Job, s: State, a: Action)
    requires RowSound(published, s.row, |s.bids|) && !(a.Commit? && At(s, a.tx, Ready))
    ensures RowSound(published, Next(s, a).row, |s.bids|)
    ensures (Next(s, a).bids, Next(s, a).events) == (s.bids, s.events) && s.txs.Keys <= Next(s, a).txs.Keys
    ensures Next(s, a).lock.Some? && Next(s, a).lock != s.lock ==> Next(s, a).lock.value in Next(s, a).txs
  {
  }

  function Execute(job: Uuid, published: Job, actions: seq<Action>): State {
    if actions == [] then Start(job, published)
    else Next(Execute(job, published, actions[..|actions| - 1]), actions[|actions| - 1])
  }

  lemma {:induction false} ExecuteKeepsInv(job: Uuid, published: Job, actions: seq<Action>)
    requires FreshLive(published)
    ensures Inv(published, Execute(job, published, actions))
  {
    if actions != [] {
      var init, last := actions[..|actions| - 1], actions[|actions| - 1];
      ExecuteKeepsInv(job, published, init);
      StepKeepsInv(published, Execute(job, published, init), last);
    }
  }

  /**
   However the transactions interleave, what is committed agrees: the count is the number of
   bids, no provider has two, there are as many events as bids, and the deadline has moved by
   five minutes for each of at most three extensions.
   */
  lemma CommittedStateAgrees(job: Uuid, published: Job, actions: seq<Action>)
    requires FreshLive(published)
    ensures var s := Execute(job, published, actions);
      RowSound(published, s.row, |s.bids|) && BidsDistinct(s) && |s.events| == |s.bids|
  {
    ExecuteKeepsInv(job, published, actions);
  }

  /** Every answer given is right, and every placed bid is in, with its event and its answer to sniping. */
  lemma AnswersAreRight(job: Uuid, published: Job, actions: seq<Action>, tx: Uuid)
    requires FreshLive(published) && tx in Execute(job, published, actions).txs
    ensures var s := Execute(job, published, actions); var t := s.txs[tx];
      && (t.phase == Done(Placed) <==> tx in s.bids)
      && (tx in s.bids ==> s.bids[tx] == BidRow(s, t) && EventRow(s, t) in s.events && Answered(s.row, t))
      && (t.phase == Done(Duplicate) ==> Taken(s.bids, t.provider))
  {
    ExecuteKeepsInv(job, published, actions);
    assert TxSound(Execute(job, published, actions), tx);
  }

  // ----- step by step -----

  /** A commit moves the deadline, by five minutes and one extension, exactly if at most five minutes were left. */
  lemma CommitExtendsExactly(job: Uuid, published: Job, actions: seq<Action>, tx: Uuid)
    requires FreshLive(published) && At(Execute(job, published, actions), tx, Ready)
    ensures var s := Execute(job, published, actions); var after := Next(s, Commit(tx));
      AuctionRules.ExtendedIfSniped(s.row, after.row, s.txs[tx].now) && after.row.bidCount == s.row.bidCount + 1
  {
    ExecuteKeepsInv(job, published, actions);
    assert TxSound(Execute(job, published, actions), tx);
    CommitExtends(Execute(job, published, actions), tx);
  }

  lemma CommitExtends(s: State, tx: Uuid)
    requires At(s, tx, Ready) && TxSound(s, tx) && s.row.listing.auctionType == Live
    ensures var after := Next(s, Commit(tx));
      AuctionRules.ExtendedIfSniped(s.row, after.row, s.txs[tx].now) && after.row.bidCount == s.row.bidCount + 1
  {
  }

  /** The first reading refuses exactly what an uninterrupted bid would be refused for without looking at other bids. */
  lemma ReadAnswer(s: State, tx: Uuid, provider: Uuid, amount: int, checkedAt: Instant, now: Instant)
    requires tx !in s.txs
    ensures var after := Next(s, ReadAndCheck(tx, provider, amount, checkedAt, now));
      && (after.row, after.bids, after.events, after.lock) == (s.row, s.bids, s.events, s.lock)
      && tx in after.txs && after.txs[tx].phase ==
           if amount > 0 && AuctionRules.OpenAt(s.row, checkedAt)
             && (s.row.listing.startingBid.None? || amount <= s.row.listing.startingBid.value)
           then Checked else Done(Refused)
  {
  }

  /** Without another uncommitted bid of the provider, the insert is answered at once: a duplicate or not. */
  lemma InsertAnswer(s: State, tx: Uuid)
    requires At(s, tx, Checked)
    requires forall o :: o in s.txs && o != tx && s.txs[o].provider == s.txs[tx].provider ==>
      s.txs[o].phase == Checked || s.txs[o].phase.Done?
    ensures Next(s, InsertBid(tx)).txs[tx].phase ==
      if exists b :: b in s.bids && s.bids[b].provider == s.txs[tx].provider then Done(Duplicate) else Inserted
  {
  }

  /** Once the row is free a transaction goes through to its commit. */
  lemma GoesThrough(s: State, tx: Uuid)
    requires At(s, tx, Inserted) && s.lock.None?
    ensures var counted := Next(Next(s, CountBid(tx)), InsertEvent(tx));
      At(Next(Next(Next(counted, CheckSnipe(tx)), Extend(tx)), Commit(tx)), tx, Done(Placed))
  {
  }
}
