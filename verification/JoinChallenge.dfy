/**
 Any number of JoinChallenge transactions on one challenge, interleaved statement by
 statement. The database runs them at READ COMMITTED: a statement sees committed rows
 and its own, and FOR UPDATE waits until no other transaction holds the challenge row.
 */
module JoinChallenge {
  import opened Wrappers

  datatype Id = Id(value: int)

  datatype Outcome = Joined | NotActive | Full | AlreadyJoined | RolledBack

  datatype Phase =
    | Begun
    | Locked
    | Counted
    | Inserted
    | Done(outcome: Outcome)

  datatype Tx = Tx(provider: Id, phase: Phase)

  /** `rows` holds the committed participants, each under the id of the transaction that inserted it. */
  datatype State = State(limit: Option<int>, rows: map<Id, Id>, lock: Option<Id>, txs: map<Id, Tx>)

  datatype Action =
    | Begin(tx: Id, provider: Id)
    | SelectForUpdate(tx: Id, active: bool)
    | CountRows(tx: Id)
    | InsertRow(tx: Id)
    | Commit(tx: Id)
    | Rollback(tx: Id)

  function Start(limit: Option<int>): State {
    State(limit, map[], None, map[])
  }

  predicate At(s: State, tx: Id, phase: Phase) {
    tx in s.txs && s.txs[tx].phase == phase
  }

  function Move(s: State, tx: Id, phase: Phase): State
    requires tx in s.txs
  {
    s.(txs := s.txs[tx := s.txs[tx].(phase := phase)])
  }

  /** The end of a transaction that committed nothing: whatever it held is released. */
  function Finish(s: State, tx: Id, outcome: Outcome): State
    requires tx in s.txs
  {
    Move(s, tx, Done(outcome)).(lock := if s.lock == Some(tx) then None else s.lock)
  }

  /** A statement that has to wait, or a transaction not at that statement, changes nothing. */
  function Next(s: State, a: Action): State {
    match a
    case Begin(tx, provider) =>
      if tx in s.txs then s else s.(txs := s.txs[tx := Tx(provider, Begun)])
    case SelectForUpdate(tx, active) =>
      if !At(s, tx, Begun) || s.lock.Some? then s
      else if !active then Finish(s, tx, NotActive)
      else Move(s, tx, Locked).(lock := Some(tx))
    case CountRows(tx) =>
      if !At(s, tx, Locked) then s
      else if s.limit.Some? && |s.rows| >= s.limit.value then Finish(s, tx, Full)
      else Move(s, tx, Counted)
    case InsertRow(tx) =>
      if !At(s, tx, Counted) then s
      else if exists o :: o in s.txs && o != tx && s.txs[o] == Tx(s.txs[tx].provider, Inserted) then s
      else if s.txs[tx].provider in s.rows.Values then Finish(s, tx, AlreadyJoined)
      else Move(s, tx, Inserted)
    case Commit(tx) =>
      if !At(s, tx, Inserted) then s
      else Finish(s, tx, Joined).(rows := s.rows[tx := s.txs[tx].provider])
    case Rollback(tx) =>
      if tx !in s.txs || s.txs[tx].phase.Done? then s else Finish(s, tx, RolledBack)
  }

  predicate WithinLimit(limit: Option<int>, count: int) {
    limit.Some? ==> count <= if limit.value > 0 then limit.value else 0
  }

  /** What a transaction's progress says about the committed rows. */
  ghost predicate TxSound(s: State, tx: Id)
    requires tx in s.txs
  {
    var provider, phase := s.txs[tx].provider, s.txs[tx].phase;
    && (s.lock == Some(tx) <==> phase in {Locked, Counted, Inserted})
    && (phase in {Counted, Inserted} && s.limit.Some? ==> |s.rows| < s.limit.value)
    && (phase == Inserted ==> provider !in s.rows.Values)
    && (tx in s.rows <==> phase == Done(Joined))
    && (tx in s.rows ==> s.rows[tx] == provider)
    && (phase == Done(Full) ==> s.limit.Some? && |s.rows| >= s.limit.value)
    && (phase == Done(AlreadyJoined) ==> provider in s.rows.Values)
  }

  ghost predicate Inv(s: State) {
    && WithinLimit(s.limit, |s.rows|)
    && (forall a, b :: a in s.rows && b in s.rows && s.rows[a] == s.rows[b] ==> a == b)
    && s.rows.Keys <= s.txs.Keys
    && (s.lock.Some? ==> s.lock.value in s.txs)
    && (forall tx :: tx in s.txs ==> TxSound(s, tx))
  }

  lemma CommitRows(s: State, tx: Id)
    requires At(s, tx, Inserted) && TxSound(s, tx)
    ensures |Next(s, Commit(tx)).rows| == |s.rows| + 1
    ensures forall p :: p in s.rows.Values ==> p in Next(s, Commit(tx)).rows.Values
  {
    var after := Next(s, Commit(tx));
    assert after.rows.Keys == s.rows.Keys + {tx};
    assert |after.rows| == |after.rows.Keys| && |s.rows| == |s.rows.Keys|;
    forall p | p in s.rows.Values ensures p in after.rows.Values {
      var o :| o in s.rows && s.rows[o] == p;
      assert after.rows[o] == p;
    }
  }

  lemma CommitTx(s: State, tx: Id, o: Id)
    requires At(s, tx, Inserted) && o in s.txs && TxSound(s, tx) && TxSound(s, o)
    ensures TxSound(Next(s, Commit(tx)), o)
  {
    CommitRows(s, tx);
  }

  lemma CommitKeepsInv(s: State, tx: Id)
    requires Inv(s) && At(s, tx, Inserted)
    ensures Inv(Next(s, Commit(tx)))
  {
    assert TxSound(s, tx);
    CommitRows(s, tx);
    forall o | o in s.txs ensures TxSound(Next(s, Commit(tx)), o) {
      assert TxSound(s, o);
      CommitTx(s, tx, o);
    }
  }

  lemma TxStep(s: State, a: Action, o: Id)
    requires s.rows.Keys <= s.txs.Keys && !(a.Commit? && At(s, a.tx, Inserted))
    requires o in s.txs ==> TxSound(s, o)
    requires a.tx in s.txs ==> TxSound(s, a.tx)
    requires s.lock.Some? ==> s.lock.value in s.txs
    ensures o in Next(s, a).txs ==> TxSound(Next(s, a), o)
  {
  }

  lemma StepKeepsInv(s: State, a: Action)
    requires Inv(s)
    ensures Inv(Next(s, a))
  {
    if a.Commit? && At(s, a.tx, Inserted) {
      CommitKeepsInv(s, a.tx);
    } else {
      forall o | o in Next(s, a).txs ensures TxSound(Next(s, a), o) {
        TxStep(s, a, o);
      }
    }
  }

  function Execute(limit: Option<int>, actions: seq<Action>): State {
    if actions == [] then Start(limit)
    else Next(Execute(limit, actions[..|actions| - 1]), actions[|actions| - 1])
  }

  lemma {:induction false} ExecuteKeepsInv(limit: Option<int>, actions: seq<Action>)
    ensures Inv(Execute(limit, actions)) && Execute(limit, actions).limit == limit
  {
    if actions != [] {
      var init, last := actions[..|actions| - 1], actions[|actions| - 1];
      ExecuteKeepsInv(limit, init);
      StepKeepsInv(Execute(limit, init), last);
      StepKeepsLimit(Execute(limit, init), last);
    }
  }

  lemma StepKeepsLimit(s: State, a: Action)
    ensures Next(s, a).limit == s.limit
  {
  }

  /** However the joins interleave: never over the limit, nobody in twice. */
  lemma CapacityHolds(limit: Option<int>, actions: seq<Action>)
    ensures var rows := Execute(limit, actions).rows;
      && WithinLimit(limit, |rows|)
      && forall a, b :: a in rows && b in rows && a != b ==> rows[a] != rows[b]
  {
    ExecuteKeepsInv(limit, actions);
  }

  /** And every answer is right: joined exactly when the row is in, refused only for a reason still true. */
  lemma AnswersAreRight(limit: Option<int>, actions: seq<Action>, tx: Id)
    requires tx in Execute(limit, actions).txs
    ensures var s := Execute(limit, actions); var t := s.txs[tx];
      && (t.phase == Done(Joined) <==> tx in s.rows)
      && (tx in s.rows ==> s.rows[tx] == t.provider)
      && (t.phase == Done(Full) ==> limit.Some? && |s.rows| >= limit.value)
      && (t.phase == Done(AlreadyJoined) ==> t.provider in s.rows.Values)
  {
    ExecuteKeepsInv(limit, actions);
    assert TxSound(Execute(limit, actions), tx);
  }

  /** What a transaction has got to shows what it saw of the challenge, and whose it is. */
  predicate SawChallenge(actions: seq<Action>, tx: Id, t: Tx) {
    && Begin(tx, t.provider) in actions
    && (t.phase in {Locked, Counted, Inserted, Done(Joined), Done(Full), Done(AlreadyJoined)} ==>
         SelectForUpdate(tx, true) in actions)
    && (t.phase == Done(NotActive) ==> SelectForUpdate(tx, false) in actions)
  }

  /** Nobody joins without having found the challenge active, and nobody is turned away as inactive who had. */
  lemma {:induction false} OnlyActiveJoined(limit: Option<int>, actions: seq<Action>, tx: Id)
    requires tx in Execute(limit, actions).txs
    ensures SawChallenge(actions, tx, Execute(limit, actions).txs[tx])
  {
    if actions != [] {
      var init, last := actions[..|actions| - 1], actions[|actions| - 1];
      assert actions == init + [last];
      var s := Execute(limit, init);
      if tx in s.txs {
        OnlyActiveJoined(limit, init, tx);
      }
      SawStep(s, init, last, tx);
    }
  }

  lemma SawStep(s: State, init: seq<Action>, a: Action, tx: Id)
    requires tx in s.txs ==> SawChallenge(init, tx, s.txs[tx])
    requires tx in Next(s, a).txs
    ensures SawChallenge(init + [a], tx, Next(s, a).txs[tx])
  {
    assert a in init + [a] && forall b :: b in init ==> b in init + [a];
  }

  /** One join from beginning to end, with nobody in between. */
  function JoinAlone(s: State, tx: Id, provider: Id, active: bool): State {
    FromLock(Next(Next(s, Begin(tx, provider)), SelectForUpdate(tx, active)), tx)
  }

  function FromLock(s: State, tx: Id): State {
    Next(Next(Next(s, CountRows(tx)), InsertRow(tx)), Commit(tx))
  }

  /** The answer to a join that has the row: full, else already in, else joined. */
  function LockedAnswer(s: State, provider: Id): Outcome {
    if s.limit.Some? && |s.rows| >= s.limit.value then Full
    else if exists o :: o in s.rows && s.rows[o] == provider then AlreadyJoined
    else Joined
  }

  predicate Answered(s: State, tx: Id, after: State, answer: Outcome)
    requires tx in s.txs
  {
    && tx in after.txs && after.txs[tx].phase == Done(answer)
    && after.rows == if answer == Joined then s.rows[tx := s.txs[tx].provider] else s.rows
  }

  lemma DoneStaysDone(s: State, tx: Id, outcome: Outcome)
    requires At(s, tx, Done(outcome))
    ensures FromLock(s, tx) == s && Next(Next(s, InsertRow(tx)), Commit(tx)) == s && Next(s, Commit(tx)) == s
  {
  }

  lemma LockedThrough(s: State, tx: Id)
    requires At(s, tx, Locked) && forall o :: o in s.txs ==> s.txs[o].phase != Inserted
    ensures Answered(s, tx, FromLock(s, tx), LockedAnswer(s, s.txs[tx].provider))
  {
    var provider, counted := s.txs[tx].provider, Next(s, CountRows(tx));
    assert provider in s.rows.Values <==> exists o :: o in s.rows && s.rows[o] == provider;
    if s.limit.Some? && |s.rows| >= s.limit.value {
      DoneStaysDone(counted, tx, Full);
    } else {
      assert At(counted, tx, Counted) && counted.rows == s.rows;
      CountedThrough(counted, tx);
    }
  }

  lemma CountedThrough(s: State, tx: Id)
    requires At(s, tx, Counted) && forall o :: o in s.txs ==> s.txs[o].phase != Inserted
    ensures Answered(
      s, tx, Next(Next(s, InsertRow(tx)), Commit(tx)),
      if s.txs[tx].provider in s.rows.Values then AlreadyJoined else Joined)
  {
    var inserted := Next(s, InsertRow(tx));
    if s.txs[tx].provider in s.rows.Values {
      DoneStaysDone(inserted, tx, AlreadyJoined);
    } else {
      assert At(inserted, tx, Inserted) && inserted.rows == s.rows;
    }
  }

  /** Refused as inactive first, and otherwise answered from the committed rows. */
  lemma JoinAloneAnswer(s: State, tx: Id, provider: Id, active: bool)
    requires Inv(s) && s.lock.None? && tx !in s.txs
    ensures Answered(
      Next(s, Begin(tx, provider)), tx, JoinAlone(s, tx, provider, active),
      if active then LockedAnswer(s, provider) else NotActive)
  {
    forall o | o in s.txs ensures s.txs[o].phase != Inserted {
      assert TxSound(s, o);
    }
    var begun := Next(s, Begin(tx, provider));
    var locked := Next(begun, SelectForUpdate(tx, active));
    assert begun.rows == s.rows && locked.rows == s.rows && begun.limit == s.limit;
    if active {
      LockedThrough(locked, tx);
    } else {
      DoneStaysDone(locked, tx, NotActive);
    }
  }
}
