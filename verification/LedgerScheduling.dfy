/** How ledger transactions that run at the same time affect each other: steps under
    different lock keys commute, and no transaction can be stuck for ever. */
module LedgerScheduling {
  import opened Ledger

  // ---- Commutation ------------------------------------------------------------

  /** States that no aggregate can tell apart: the same transactions and locks, and for
      every aggregate the same stream. Only the interleaving of streams may differ. */
  ghost predicate Equivalent(s: System, s': System) {
    && s.transactions == s'.transactions
    && s.locks == s'.locks
    && forall id :: Stream(s.rows, id) == Stream(s'.rows, id)
  }

  lemma {:induction false} LatestOfStream(rows: seq<Row>, id: AggregateId)
    ensures LatestSequence(Stream(rows, id), id) == LatestSequence(rows, id)
    decreases |rows|
  {
    if rows != [] {
      var init, last := rows[..|rows| - 1], rows[|rows| - 1];
      LatestOfStream(init, id);
      if last.aggregateId == id {
        assert (Stream(init, id) + [last])[..|Stream(init, id)|] == Stream(init, id);
      }
    }
  }

  /** The number an aggregate gets next is decided by its own stream. */
  lemma NextSequenceIsLocal(rows: seq<Row>, rows': seq<Row>, id: AggregateId)
    requires Stream(rows, id) == Stream(rows', id)
    ensures NextSequence(rows, id) == NextSequence(rows', id)
  {
    LatestOfStream(rows, id);
    LatestOfStream(rows', id);
  }

  /** Equivalent states allow the same actions, and taking one leads to equivalent states. */
  lemma StepRespectsEquivalence(hash: Hash, s: System, s': System, a: Action)
    requires Equivalent(s, s') && Enabled(hash, s, a)
    ensures Enabled(hash, s', a) && Equivalent(Step(hash, s, a), Step(hash, s', a))
  {
    if a.Fetch? {
      NextSequenceIsLocal(s.rows, s'.rows, s.transactions[a.t].aggregateId);
    }
    if a.Commit? && s.transactions[a.t].kind.Append? {
      var row := Step(hash, s, a).rows[|s.rows|];
      forall id ensures Stream(s.rows + [row], id) == Stream(s'.rows + [row], id) {
        StreamSnoc(s.rows, row, id);
        StreamSnoc(s'.rows, row, id);
      }
    }
  }

  lemma {:induction false} RunRespectsEquivalence(hash: Hash, s: System, s': System, run: seq<Action>)
    requires Equivalent(s, s') && Valid(hash, s, run)
    ensures Valid(hash, s', run) && Equivalent(Run(hash, s, run), Run(hash, s', run))
    decreases |run|
  {
    if run != [] {
      StepRespectsEquivalence(hash, s, s', run[0]);
      RunRespectsEquivalence(hash, Step(hash, s, run[0]), Step(hash, s', run[0]), run[1..]);
    }
  }

  /** Actions of two existing transactions that use different lock keys. */
  predicate Independent(hash: Hash, s: System, a: Action, b: Action) {
    && !a.Begin? && !b.Begin?
    && a.t < |s.transactions| && b.t < |s.transactions|
    && a.t != b.t
    && hash(s.transactions[a.t].aggregateId) != hash(s.transactions[b.t].aggregateId)
  }

  // A step touches its own transaction, its own lock and its own aggregate's stream.

  lemma StepLeavesTransaction(hash: Hash, s: System, a: Action, t: nat)
    requires !a.Begin? && Enabled(hash, s, a) && t < |s.transactions| && t != a.t
    ensures |Step(hash, s, a).transactions| == |s.transactions|
    ensures Step(hash, s, a).transactions[t] == s.transactions[t]
  {
  }

  /** What a step does to the lock of its own key. */
  datatype LockChange = Keep | Take(holder: nat) | Drop

  function ChangeOf(tx: Transaction, a: Action): LockChange
    requires !a.Begin?
  {
    if a.Acquire? then Take(a.t)
    else if a.Commit? || (a.Abort? && tx.HoldsLock()) then Drop
    else Keep
  }

  function Change(locks: map<LockKey, nat>, key: LockKey, change: LockChange): map<LockKey, nat> {
    match change
    case Keep => locks
    case Take(holder) => locks[key := holder]
    case Drop => locks - {key}
  }

  lemma StepChangesLocks(hash: Hash, s: System, a: Action)
    requires !a.Begin? && Enabled(hash, s, a)
    ensures Step(hash, s, a).locks
         == Change(s.locks, hash(s.transactions[a.t].aggregateId), ChangeOf(s.transactions[a.t], a))
  {
  }

  /** What a step adds to the stream of an aggregate. */
  function Addition(tx: Transaction, a: Action, id: AggregateId): seq<Row> {
    if a.Commit? && tx.kind.Append? && tx.phase.Inserted? && tx.aggregateId == id
    then [Row(id, tx.kind.content, tx.phase.sequenceNumber)] else []
  }

  lemma StepAddsToStream(hash: Hash, s: System, a: Action, id: AggregateId)
    requires !a.Begin? && Enabled(hash, s, a)
    ensures Stream(Step(hash, s, a).rows, id) == Stream(s.rows, id) + Addition(s.transactions[a.t], a, id)
  {
    if a.Commit? && s.transactions[a.t].kind.Append? {
      StreamSnoc(s.rows, Step(hash, s, a).rows[|s.rows|], id);
    } else {
      assert Stream(s.rows, id) + [] == Stream(s.rows, id);
    }
  }

  /** Whether an action is possible depends on its own transaction and lock only. */
  lemma EnabledIsLocal(hash: Hash, s: System, s': System, b: Action)
    requires !b.Begin? && Enabled(hash, s, b) && b.t < |s'.transactions| && s'.transactions[b.t] == s.transactions[b.t]
    requires var key := hash(s.transactions[b.t].aggregateId); key in s'.locks <==> key in s.locks
    ensures Enabled(hash, s', b)
  {
  }

  lemma StaysEnabled(hash: Hash, s: System, a: Action, b: Action)
    requires Independent(hash, s, a, b) && Enabled(hash, s, a) && Enabled(hash, s, b)
    ensures Enabled(hash, Step(hash, s, a), b)
    ensures b.t < |Step(hash, s, a).transactions| && Step(hash, s, a).transactions[b.t] == s.transactions[b.t]
  {
    hide Step, Enabled;
    StepLeavesTransaction(hash, s, a, b.t);
    StepChangesLocks(hash, s, a);
    EnabledIsLocal(hash, s, Step(hash, s, a), b);
  }

  /** A transaction's own step turns it into a transaction that depends on nothing but
      itself and its aggregate's next number. */
  lemma StepOfTransaction(hash: Hash, s: System, s': System, a: Action)
    requires !a.Begin? && Enabled(hash, s, a) && Enabled(hash, s', a)
    requires s.transactions[a.t] == s'.transactions[a.t]
    requires Stream(s.rows, s.transactions[a.t].aggregateId) == Stream(s'.rows, s.transactions[a.t].aggregateId)
    ensures Step(hash, s, a).transactions[a.t] == Step(hash, s', a).transactions[a.t]
    ensures Step(hash, s, a).transactions == s.transactions[a.t := Step(hash, s, a).transactions[a.t]]
    ensures Step(hash, s', a).transactions == s'.transactions[a.t := Step(hash, s, a).transactions[a.t]]
  {
    NextSequenceIsLocal(s.rows, s'.rows, s.transactions[a.t].aggregateId);
  }

  lemma OtherStreamSame(hash: Hash, s: System, a: Action, b: Action)
    requires Independent(hash, s, a, b) && Enabled(hash, s, a)
    ensures Stream(Step(hash, s, a).rows, s.transactions[b.t].aggregateId)
         == Stream(s.rows, s.transactions[b.t].aggregateId)
  {
    hide Step, Enabled;
    StepAddsToStream(hash, s, a, s.transactions[b.t].aggregateId);
  }

  lemma SwappedTransactions(hash: Hash, s: System, a: Action, b: Action)
    requires Independent(hash, s, a, b) && Enabled(hash, s, a) && Enabled(hash, s, b)
    requires Enabled(hash, Step(hash, s, a), b) && Enabled(hash, Step(hash, s, b), a)
    ensures Step(hash, Step(hash, s, a), b).transactions == Step(hash, Step(hash, s, b), a).transactions
  {
    hide Step, Enabled;
    var sa, sb := Step(hash, s, a), Step(hash, s, b);
    StaysEnabled(hash, s, a, b);
    StaysEnabled(hash, s, b, a);
    OtherStreamSame(hash, s, a, b);
    OtherStreamSame(hash, s, b, a);
    StepOfTransaction(hash, s, sb, a);
    StepOfTransaction(hash, s, sa, b);
    var x, y := sa.transactions[a.t], sb.transactions[b.t];
    assert s.transactions[a.t := x][b.t := y] == s.transactions[b.t := y][a.t := x];
  }

  lemma ChangesCommute(locks: map<LockKey, nat>, k: LockKey, c: LockChange, l: LockKey, d: LockChange)
    requires k != l
    ensures Change(Change(locks, k, c), l, d) == Change(Change(locks, l, d), k, c)
  {
  }

  lemma SwappedLocks(hash: Hash, s: System, a: Action, b: Action)
    requires Independent(hash, s, a, b) && Enabled(hash, s, a) && Enabled(hash, s, b)
    requires Enabled(hash, Step(hash, s, a), b) && Enabled(hash, Step(hash, s, b), a)
    ensures Step(hash, Step(hash, s, a), b).locks == Step(hash, Step(hash, s, b), a).locks
  {
    hide Step, Enabled, Change;
    var x, y := s.transactions[a.t], s.transactions[b.t];
    StaysEnabled(hash, s, a, b);
    StaysEnabled(hash, s, b, a);
    StepChangesLocks(hash, s, a);
    StepChangesLocks(hash, s, b);
    StepChangesLocks(hash, Step(hash, s, a), b);
    StepChangesLocks(hash, Step(hash, s, b), a);
    ChangesCommute(s.locks, hash(x.aggregateId), ChangeOf(x, a), hash(y.aggregateId), ChangeOf(y, b));
  }

  lemma SwappedStreams(hash: Hash, s: System, a: Action, b: Action, id: AggregateId)
    requires Independent(hash, s, a, b) && Enabled(hash, s, a) && Enabled(hash, s, b)
    requires Enabled(hash, Step(hash, s, a), b) && Enabled(hash, Step(hash, s, b), a)
    ensures Stream(Step(hash, Step(hash, s, a), b).rows, id) == Stream(Step(hash, Step(hash, s, b), a).rows, id)
  {
    hide Step, Enabled;
    StaysEnabled(hash, s, a, b);
    StaysEnabled(hash, s, b, a);
    StepAddsToStream(hash, s, a, id);
    StepAddsToStream(hash, s, b, id);
    StepAddsToStream(hash, Step(hash, s, a), b, id);
    StepAddsToStream(hash, Step(hash, s, b), a, id);
  }

  /** Steps under different lock keys commute: each stays possible after the other, and
      both orders lead to states that no aggregate can tell apart. */
  lemma IndependentStepsCommute(hash: Hash, s: System, a: Action, b: Action)
    requires Independent(hash, s, a, b) && Enabled(hash, s, a) && Enabled(hash, s, b)
    ensures Enabled(hash, Step(hash, s, a), b) && Enabled(hash, Step(hash, s, b), a)
    ensures Equivalent(Step(hash, Step(hash, s, a), b), Step(hash, Step(hash, s, b), a))
  {
    hide Step, Enabled, Independent;
    StaysEnabled(hash, s, a, b);
    IndependentIsSymmetric(hash, s, a, b);
    StaysEnabled(hash, s, b, a);
    SwappedTransactions(hash, s, a, b);
    SwappedLocks(hash, s, a, b);
    forall id
      ensures Stream(Step(hash, Step(hash, s, a), b).rows, id) == Stream(Step(hash, Step(hash, s, b), a).rows, id)
    {
      SwappedStreams(hash, s, a, b, id);
    }
  }

  lemma IndependentIsSymmetric(hash: Hash, s: System, a: Action, b: Action)
    requires Independent(hash, s, a, b)
    ensures Independent(hash, s, b, a)
  {
  }

  /** Exchanging two neighbouring independent actions anywhere in a schedule keeps it
      valid and changes no aggregate's stream at its end. */
  lemma SwapInSchedule(hash: Hash, s: System, a: Action, b: Action, rest: seq<Action>)
    requires Independent(hash, s, a, b) && Enabled(hash, s, a) && Enabled(hash, s, b)
    requires Valid(hash, Step(hash, s, a), [b] + rest)
    ensures Valid(hash, Step(hash, s, b), [a] + rest)
    ensures Equivalent(Run(hash, Step(hash, s, a), [b] + rest), Run(hash, Step(hash, s, b), [a] + rest))
  {
    IndependentStepsCommute(hash, s, a, b);
    assert ([b] + rest)[1..] == rest && ([a] + rest)[1..] == rest;
    RunRespectsEquivalence(hash, Step(hash, Step(hash, s, a), b), Step(hash, Step(hash, s, b), a), rest);
  }

  // ---- Progress ----------------------------------------------------------------

  function Remaining(tx: Transaction): nat {
    match tx.phase
    case Begun => 4
    case Locked => 3
    case Fetched(_) => 2
    case Inserted(_) => 1
    case _ => 0
  }

  /** How many steps the transactions begun so far can still take. */
  function Work(transactions: seq<Transaction>): nat {
    if transactions == [] then 0
    else Work(transactions[..|transactions| - 1]) + Remaining(transactions[|transactions| - 1])
  }

  lemma {:induction false} WorkUpdate(transactions: seq<Transaction>, t: nat, tx: Transaction)
    requires t < |transactions|
    ensures Work(transactions[t := tx]) == Work(transactions) - Remaining(transactions[t]) + Remaining(tx)
    decreases |transactions|
  {
    var last := |transactions| - 1;
    if t < last {
      assert transactions[t := tx][..last] == transactions[..last][t := tx];
      WorkUpdate(transactions[..last], t, tx);
    } else {
      assert transactions[t := tx][..last] == transactions[..last];
    }
  }

  lemma StepUsesUpWork(hash: Hash, s: System, a: Action)
    requires Enabled(hash, s, a) && !a.Begin?
    ensures Work(Step(hash, s, a).transactions) < Work(s.transactions)
  {
    WorkUpdate(s.transactions, a.t, Step(hash, s, a).transactions[a.t]);
  }

  /** Termination: without new transactions, every schedule ends after at most as many
      steps as there is work. */
  lemma {:induction false} SchedulesAreBounded(hash: Hash, s: System, run: seq<Action>)
    requires Valid(hash, s, run)
    requires forall k :: 0 <= k < |run| ==> !run[k].Begin?
    ensures |run| + Work(Run(hash, s, run).transactions) <= Work(s.transactions)
    decreases |run|
  {
    if run != [] {
      StepUsesUpWork(hash, s, run[0]);
      SchedulesAreBounded(hash, Step(hash, s, run[0]), run[1..]);
    }
  }

  /** The step, other than giving up, that a transaction takes next. */
  function NextAction(s: System, t: nat): Action
    requires t < |s.transactions|
  {
    var tx := s.transactions[t];
    match tx.phase
    case Begun => Acquire(t)
    case Locked => Fetch(t)
    case Fetched(_) => if tx.kind.Append? then Insert(t) else Commit(t)
    case _ => Commit(t)
  }

  /** No deadlock: while a transaction is unfinished, some transaction can take its next
      step, be it this one or the one whose lock it waits for. */
  lemma SomeTransactionCanMove(hash: Hash, s: System, t: nat) returns (mover: nat)
    requires Inv(hash, s) && t < |s.transactions| && !s.transactions[t].Finished()
    ensures mover < |s.transactions| && !s.transactions[mover].Finished()
    ensures Enabled(hash, s, NextAction(s, mover))
  {
    var key := hash(s.transactions[t].aggregateId);
    mover := if s.transactions[t].phase.Begun? && key in s.locks then s.locks[key] else t;
    assert KnowledgeCurrent(s.rows, s.transactions[mover]);
  }

  ghost predicate AllFinished(s: System) {
    forall t :: 0 <= t < |s.transactions| ==> s.transactions[t].Finished()
  }

  /** The transactions of `s'` are those of `s`, with none newly aborted. */
  ghost predicate NoneGivenUp(s: System, s': System) {
    && |s'.transactions| == |s.transactions|
    && forall t :: 0 <= t < |s.transactions| && s'.transactions[t].phase.Aborted? ==> s.transactions[t].phase.Aborted?
  }

  lemma MoveGivesNoneUp(hash: Hash, s: System, t: nat)
    requires t < |s.transactions| && Enabled(hash, s, NextAction(s, t))
    ensures NoneGivenUp(s, Step(hash, s, NextAction(s, t)))
    ensures !NextAction(s, t).Begin? && !NextAction(s, t).Abort?
  {
  }

  /** Every unfinished transaction can still commit: from any reachable state, some schedule
      without aborts and without new transactions finishes them all, so that only the ones
      already aborted are not committed at its end. */
  lemma {:induction false} AllCanFinish(hash: Hash, s: System) returns (run: seq<Action>)
    requires Inv(hash, s)
    ensures Valid(hash, s, run)
    ensures forall k :: 0 <= k < |run| ==> !run[k].Begin? && !run[k].Abort?
    ensures AllFinished(Run(hash, s, run)) && NoneGivenUp(s, Run(hash, s, run))
    decreases Work(s.transactions)
  {
    if t :| 0 <= t < |s.transactions| && !s.transactions[t].Finished() {
      var mover := SomeTransactionCanMove(hash, s, t);
      var a := NextAction(s, mover);
      StepKeepsInv(hash, s, a);
      StepUsesUpWork(hash, s, a);
      MoveGivesNoneUp(hash, s, mover);
      var rest := AllCanFinish(hash, Step(hash, s, a));
      run := [a] + rest;
      assert run[1..] == rest;
    } else {
      run := [];
    }
  }
}
