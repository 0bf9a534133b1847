/** The event ledger as a concurrent protocol.

    Any number of database transactions run `appendEvent` or
    `getNextSequenceNumber` at the same time. Each takes the advisory lock on the
    hash of its aggregate id, reads the highest committed sequence number of that
    aggregate, perhaps inserts a row, and commits or aborts. A transaction sees
    committed rows only, and its lock goes away with it. The hash is any function,
    so different aggregates may share a lock. */
module Ledger {
  import opened Wrappers

  type AggregateId = string
  type LockKey = int
  type Hash = AggregateId -> LockKey

  datatype Row = Row(aggregateId: AggregateId, content: string, sequenceNumber: int)

  // ---- Queries on committed rows -------------------------------------------

  /** `findFirst` ordered by descending sequence number: the highest number stored
      for the aggregate, if it has a row. */
  function LatestSequence(rows: seq<Row>, id: AggregateId): Option<int> {
    if rows == [] then None
    else
      var rest := LatestSequence(rows[..|rows| - 1], id);
      var last := rows[|rows| - 1];
      if last.aggregateId != id then rest
      else if rest.None? || rest.value < last.sequenceNumber then Some(last.sequenceNumber)
      else rest
  }

  lemma {:induction false} LatestSequenceIsHighest(rows: seq<Row>, id: AggregateId)
    ensures var r := LatestSequence(rows, id);
            && (r.None? <==> forall k :: 0 <= k < |rows| ==> rows[k].aggregateId != id)
            && (r.Some? ==>
                  && (exists k :: 0 <= k < |rows| && rows[k].aggregateId == id && rows[k].sequenceNumber == r.value)
                  && (forall k :: 0 <= k < |rows| && rows[k].aggregateId == id ==> rows[k].sequenceNumber <= r.value))
    decreases |rows|
  {
    if rows != [] {
      var init, last := rows[..|rows| - 1], |rows| - 1;
      LatestSequenceIsHighest(init, id);
      assert forall k :: 0 <= k < |init| ==> init[k] == rows[k];
      assert rows[last].aggregateId == id ==> LatestSequence(rows, id).Some?;
    }
  }

  function NextSequence(rows: seq<Row>, id: AggregateId): int {
    LatestSequence(rows, id).GetOr(0) + 1
  }

  /** The rows of one aggregate, in commit order. */
  function Stream(rows: seq<Row>, id: AggregateId): seq<Row> {
    if rows == [] then []
    else
      var rest := Stream(rows[..|rows| - 1], id);
      var last := rows[|rows| - 1];
      if last.aggregateId == id then rest + [last] else rest
  }

  // ---- Transactions ---------------------------------------------------------

  datatype Kind = Append(content: string) | Peek

  datatype Phase =
    | Begun
    | Locked
    | Fetched(next: int)
    | Inserted(sequenceNumber: int)
    | Committed(result: int)
    | Aborted

  datatype Transaction = Transaction(kind: Kind, aggregateId: AggregateId, phase: Phase) {
    predicate HoldsLock() { phase.Locked? || phase.Fetched? || phase.Inserted? }

    predicate Finished() { phase.Committed? || phase.Aborted? }

    predicate ReadyToCommit() { if kind.Append? then phase.Inserted? else phase.Fetched? }
  }

  /** `rows` holds what is committed, in commit order; `locks` says which
      transaction holds which advisory lock. */
  datatype System = System(rows: seq<Row>, transactions: seq<Transaction>, locks: map<LockKey, nat>)

  const EMPTY: System := System([], [], map[])

  datatype Action =
    | Begin(kind: Kind, aggregateId: AggregateId)
    | Acquire(t: nat)
    | Fetch(t: nat)
    | Insert(t: nat)
    | Commit(t: nat)
    | Abort(t: nat)

  predicate Enabled(hash: Hash, s: System, a: Action) {
    if a.Begin? then true
    else
      && a.t < |s.transactions|
      && var tx := s.transactions[a.t];
         match a
         case Acquire(_) => tx.phase.Begun? && hash(tx.aggregateId) !in s.locks
         case Fetch(_) => tx.phase.Locked?
         case Insert(_) => tx.kind.Append? && tx.phase.Fetched?
         case Commit(_) => tx.ReadyToCommit()
         case Abort(_) => !tx.Finished()
  }

  function Move(s: System, t: nat, phase: Phase): System
    requires t < |s.transactions|
  {
    s.(transactions := s.transactions[t := s.transactions[t].(phase := phase)])
  }

  function Step(hash: Hash, s: System, a: Action): System
    requires Enabled(hash, s, a)
  {
    match a
    case Begin(kind, id) => s.(transactions := s.transactions + [Transaction(kind, id, Begun)])
    case Acquire(t) => Move(s, t, Locked).(locks := s.locks[hash(s.transactions[t].aggregateId) := t])
    case Fetch(t) => Move(s, t, Fetched(NextSequence(s.rows, s.transactions[t].aggregateId)))
    case Insert(t) => Move(s, t, Inserted(s.transactions[t].phase.next))
    case Commit(t) =>
      var tx := s.transactions[t];
      var unlocked := s.locks - {hash(tx.aggregateId)};
      (match tx.kind
       case Append(content) =>
         var n := tx.phase.sequenceNumber;
         Move(s, t, Committed(n)).(rows := s.rows + [Row(tx.aggregateId, content, n)], locks := unlocked)
       case Peek => Move(s, t, Committed(tx.phase.next)).(locks := unlocked))
    case Abort(t) =>
      var tx := s.transactions[t];
      Move(s, t, Aborted).(locks := if tx.HoldsLock() then s.locks - {hash(tx.aggregateId)} else s.locks)
  }

  /** A sequence of actions each of which is enabled when its turn comes. */
  predicate Valid(hash: Hash, s: System, run: seq<Action>)
    decreases |run|
  {
    run == [] || (Enabled(hash, s, run[0]) && Valid(hash, Step(hash, s, run[0]), run[1..]))
  }

  function Run(hash: Hash, s: System, run: seq<Action>): System
    requires Valid(hash, s, run)
    decreases |run|
  {
    if run == [] then s else Run(hash, Step(hash, s, run[0]), run[1..])
  }

  // ---- The reachable-state invariant ---------------------------------------

  /** Every committed row is numbered by its place in its own aggregate's stream. */
  ghost predicate Numbered(rows: seq<Row>) {
    rows == []
    || var init, last := rows[..|rows| - 1], rows[|rows| - 1];
       Numbered(init) && last.sequenceNumber == |Stream(init, last.aggregateId)| + 1
  }

  ghost predicate LocksMatch(hash: Hash, s: System) {
    && (forall key :: key in s.locks ==>
          && s.locks[key] < |s.transactions|
          && s.transactions[s.locks[key]].HoldsLock()
          && hash(s.transactions[s.locks[key]].aggregateId) == key)
    && (forall t :: 0 <= t < |s.transactions| && s.transactions[t].HoldsLock() ==>
          && hash(s.transactions[t].aggregateId) in s.locks
          && s.locks[hash(s.transactions[t].aggregateId)] == t)
  }

  /** What a transaction has read is still right, and what it was told stays
      within reach. */
  ghost predicate KnowledgeCurrent(rows: seq<Row>, tx: Transaction) {
    var committed := |Stream(rows, tx.aggregateId)|;
    match tx.phase
    case Fetched(next) => next == committed + 1
    case Inserted(n) => n == committed + 1 && tx.kind.Append?
    case Committed(n) => 1 <= n <= committed + 1 && (tx.kind.Append? ==> n <= committed)
    case _ => true
  }

  ghost predicate Inv(hash: Hash, s: System) {
    && Numbered(s.rows)
    && LocksMatch(hash, s)
    && forall t :: 0 <= t < |s.transactions| ==> KnowledgeCurrent(s.rows, s.transactions[t])
  }

  lemma StreamSnoc(rows: seq<Row>, row: Row, id: AggregateId)
    ensures Stream(rows + [row], id) == Stream(rows, id) + (if row.aggregateId == id then [row] else [])
  {
    assert (rows + [row])[..|rows|] == rows;
  }

  lemma NumberedSnoc(rows: seq<Row>, row: Row)
    requires Numbered(rows)
    requires row.sequenceNumber == |Stream(rows, row.aggregateId)| + 1
    ensures Numbered(rows + [row])
  {
    assert (rows + [row])[..|rows|] == rows;
  }

  /** In numbered rows an aggregate's stream carries 1, 2, ..., n in commit order, and
      the query for the next number therefore yields n + 1. */
  lemma {:induction false} NumberedStream(rows: seq<Row>, id: AggregateId)
    requires Numbered(rows)
    ensures forall k :: 0 <= k < |Stream(rows, id)| ==> Stream(rows, id)[k].sequenceNumber == k + 1
    ensures NextSequence(rows, id) == |Stream(rows, id)| + 1
    ensures LatestSequence(rows, id).None? <==> Stream(rows, id) == []
    decreases |rows|
  {
    if rows != [] {
      var init, last := rows[..|rows| - 1], rows[|rows| - 1];
      assert rows == init + [last];
      NumberedStream(init, id);
      StreamSnoc(init, last, id);
    }
  }

  lemma StepKeepsLocks(hash: Hash, s: System, a: Action)
    requires LocksMatch(hash, s) && Enabled(hash, s, a)
    ensures LocksMatch(hash, Step(hash, s, a))
  {
    var s' := Step(hash, s, a);
    if !a.Begin? {
      forall t | 0 <= t < |s'.transactions| && s'.transactions[t].HoldsLock()
        ensures hash(s'.transactions[t].aggregateId) in s'.locks && s'.locks[hash(s'.transactions[t].aggregateId)] == t
      {
        if t != a.t {
          assert s'.transactions[t] == s.transactions[t];
        }
      }
    }
  }

  /** Mutual exclusion at work: while a transaction holds the lock of an aggregate, no
      other transaction is past its read of that same aggregate. */
  lemma OneHolderPerAggregate(hash: Hash, s: System, t: nat, u: nat)
    requires LocksMatch(hash, s) && t < |s.transactions| && u < |s.transactions|
    requires s.transactions[t].HoldsLock() && s.transactions[u].HoldsLock()
    requires s.transactions[t].aggregateId == s.transactions[u].aggregateId
    ensures t == u
  {
    assert s.locks[hash(s.transactions[t].aggregateId)] == t;
  }

  lemma StepKeepsKnowledge(hash: Hash, s: System, a: Action, t: nat)
    requires Inv(hash, s) && Enabled(hash, s, a)
    requires t < |Step(hash, s, a).transactions|
    ensures KnowledgeCurrent(Step(hash, s, a).rows, Step(hash, s, a).transactions[t])
  {
    var s' := Step(hash, s, a);
    if t < |s.transactions| {
      var tx := s.transactions[t];
      NumberedStream(s.rows, tx.aggregateId);
      if a.Commit? && s.transactions[a.t].kind.Append? {
        StreamSnoc(s.rows, s'.rows[|s.rows|], tx.aggregateId);
      }
    }
  }

  /** Every step of every transaction keeps the invariant. */
  lemma StepKeepsInv(hash: Hash, s: System, a: Action)
    requires Inv(hash, s) && Enabled(hash, s, a)
    ensures Inv(hash, Step(hash, s, a))
  {
    StepKeepsLocks(hash, s, a);
    forall t | 0 <= t < |Step(hash, s, a).transactions|
      ensures KnowledgeCurrent(Step(hash, s, a).rows, Step(hash, s, a).transactions[t])
    {
      StepKeepsKnowledge(hash, s, a, t);
    }
    if a.Commit? && s.transactions[a.t].kind.Append? {
      var tx := s.transactions[a.t];
      assert KnowledgeCurrent(s.rows, tx);
      NumberedSnoc(s.rows, Row(tx.aggregateId, tx.kind.content, tx.phase.sequenceNumber));
    }
  }

  lemma {:induction false} RunKeepsInv(hash: Hash, s: System, run: seq<Action>)
    requires Inv(hash, s) && Valid(hash, s, run)
    ensures Inv(hash, Run(hash, s, run))
    decreases |run|
  {
    if run != [] {
      StepKeepsInv(hash, s, run[0]);
      RunKeepsInv(hash, Step(hash, s, run[0]), run[1..]);
    }
  }

  /** Safety. However transactions interleave, abort or collide on lock keys, the
      committed sequence numbers of each aggregate are exactly 1..n in commit order. */
  lemma SequencesAreGapless(hash: Hash, run: seq<Action>, id: AggregateId)
    requires Valid(hash, EMPTY, run)
    ensures var stream := Stream(Run(hash, EMPTY, run).rows, id);
            forall k :: 0 <= k < |stream| ==> stream[k].sequenceNumber == k + 1
  {
    RunKeepsInv(hash, EMPTY, run);
    NumberedStream(Run(hash, EMPTY, run).rows, id);
  }

  /** A number handed out by `getNextSequenceNumber` is never above one allocated later:
      in any reachable state, a commit for the aggregate stores at least that number. */
  lemma PeekNeverAboveLaterAllocation(hash: Hash, run: seq<Action>, peek: nat, commit: nat)
    requires Valid(hash, EMPTY, run)
    requires var s := Run(hash, EMPTY, run);
             && peek < |s.transactions| && commit < |s.transactions|
             && s.transactions[peek].kind.Peek? && s.transactions[peek].phase.Committed?
             && s.transactions[commit].kind.Append? && Enabled(hash, s, Commit(commit))
             && s.transactions[peek].aggregateId == s.transactions[commit].aggregateId
    ensures var s := Run(hash, EMPTY, run);
            var s' := Step(hash, s, Commit(commit));
            && |s'.rows| == |s.rows| + 1
            && s.transactions[peek].phase.result <= s'.rows[|s.rows|].sequenceNumber
  {
    RunKeepsInv(hash, EMPTY, run);
    var s := Run(hash, EMPTY, run);
    assert KnowledgeCurrent(s.rows, s.transactions[peek]);
    assert KnowledgeCurrent(s.rows, s.transactions[commit]);
  }

  /** A committed transaction was handed the number it should be: a peek one more than the
      rows of its aggregate at its commit, an append the number of the row it then added. */
  lemma CommitHandsOut(hash: Hash, s: System, t: nat)
    requires Inv(hash, s) && Enabled(hash, s, Commit(t))
    ensures var tx, s' := s.transactions[t], Step(hash, s, Commit(t));
            var n := |Stream(s.rows, tx.aggregateId)| + 1;
            && s'.transactions == s.transactions[t := tx.(phase := Committed(n))]
            && s'.rows == (if tx.kind.Append? then s.rows + [Row(tx.aggregateId, tx.kind.content, n)] else s.rows)
  {
    assert KnowledgeCurrent(s.rows, s.transactions[t]);
  }

  /** An unfinished transaction can be given up at any point. Its lock goes, if it had one, and
      the committed rows stay as they are. */
  lemma AbortLeavesRows(hash: Hash, s: System, t: nat)
    requires Inv(hash, s) && t < |s.transactions| && !s.transactions[t].Finished()
    ensures Enabled(hash, s, Abort(t))
    ensures var tx, s' := s.transactions[t], Step(hash, s, Abort(t));
            && s'.rows == s.rows && s'.transactions == s.transactions[t := tx.(phase := Aborted)]
            && forall key :: key in s'.locks <==> key in s.locks && s.locks[key] != t
  {
    assert LocksMatch(hash, s);
  }

  // ---- Refinement of a sequential ledger ------------------------------------

  /** One entry to be appended. */
  datatype Draft = Draft(aggregateId: AggregateId, content: string)

  /** The simple ledger: append atomically under the next number. */
  function AppendAtomically(rows: seq<Row>, d: Draft): seq<Row> {
    rows + [Row(d.aggregateId, d.content, NextSequence(rows, d.aggregateId))]
  }

  function AppendAll(rows: seq<Row>, drafts: seq<Draft>): seq<Row>
    decreases |drafts|
  {
    if drafts == [] then rows
    else AppendAtomically(AppendAll(rows, drafts[..|drafts| - 1]), drafts[|drafts| - 1])
  }

  /** What a step appends to the simple ledger: commits of appends append, nothing else does. */
  function Appended(s: System, a: Action): seq<Draft> {
    if a.Commit? && a.t < |s.transactions| && s.transactions[a.t].kind.Append?
    then [Draft(s.transactions[a.t].aggregateId, s.transactions[a.t].kind.content)]
    else []
  }

  function CommitOrder(hash: Hash, s: System, run: seq<Action>): seq<Draft>
    requires Valid(hash, s, run)
    decreases |run|
  {
    if run == [] then [] else Appended(s, run[0]) + CommitOrder(hash, Step(hash, s, run[0]), run[1..])
  }

  lemma StepRefines(hash: Hash, s: System, a: Action)
    requires Inv(hash, s) && Enabled(hash, s, a)
    ensures Step(hash, s, a).rows == AppendAll(s.rows, Appended(s, a))
  {
    if a.Commit? && s.transactions[a.t].kind.Append? {
      var tx := s.transactions[a.t];
      assert KnowledgeCurrent(s.rows, tx);
      NumberedStream(s.rows, tx.aggregateId);
      assert Appended(s, a)[..0] == [];
    }
  }

  lemma {:induction false} AppendAllSplit(rows: seq<Row>, first: seq<Draft>, second: seq<Draft>)
    ensures AppendAll(rows, first + second) == AppendAll(AppendAll(rows, first), second)
    decreases |second|
  {
    if second == [] {
      assert first + second == first;
    } else {
      var init := second[..|second| - 1];
      AppendAllSplit(rows, first, init);
      assert (first + second)[..|first + second| - 1] == first + init;
    }
  }

  /** Refinement. A concurrent run leaves the rows that appending its drafts one by one,
      in the order their transactions committed, would have left. */
  lemma {:induction false} RunRefinesSequentialLedger(hash: Hash, s: System, run: seq<Action>)
    requires Inv(hash, s) && Valid(hash, s, run)
    ensures Run(hash, s, run).rows == AppendAll(s.rows, CommitOrder(hash, s, run))
    decreases |run|
  {
    if run != [] {
      var s' := Step(hash, s, run[0]);
      StepKeepsInv(hash, s, run[0]);
      StepRefines(hash, s, run[0]);
      RunRefinesSequentialLedger(hash, s', run[1..]);
      AppendAllSplit(s.rows, Appended(s, run[0]), CommitOrder(hash, s', run[1..]));
    }
  }

  function OwnDrafts(drafts: seq<Draft>, id: AggregateId): seq<Draft> {
    if drafts == [] then []
    else
      var rest, last := OwnDrafts(drafts[..|drafts| - 1], id), drafts[|drafts| - 1];
      if last.aggregateId == id then rest + [last] else rest
  }

  /** The rows that store drafts of one aggregate under 1, 2, 3, ... */
  function NumberedFromOne(own: seq<Draft>): seq<Row> {
    seq(|own|, k requires 0 <= k < |own| => Row(own[k].aggregateId, own[k].content, k + 1))
  }

  lemma AppendKeepsNumbered(rows: seq<Row>, d: Draft)
    requires Numbered(rows)
    ensures Numbered(AppendAtomically(rows, d))
    ensures AppendAtomically(rows, d)
         == rows + [Row(d.aggregateId, d.content, |Stream(rows, d.aggregateId)| + 1)]
  {
    NumberedStream(rows, d.aggregateId);
    NumberedSnoc(rows, Row(d.aggregateId, d.content, |Stream(rows, d.aggregateId)| + 1));
  }

  lemma AppendOneStream(rows: seq<Row>, d: Draft, id: AggregateId)
    requires Numbered(rows)
    ensures Stream(AppendAtomically(rows, d), id)
         == Stream(rows, id)
          + (if d.aggregateId == id then [Row(id, d.content, |Stream(rows, id)| + 1)] else [])
  {
    AppendKeepsNumbered(rows, d);
    StreamSnoc(rows, Row(d.aggregateId, d.content, |Stream(rows, d.aggregateId)| + 1), id);
  }

  lemma {:induction false} AppendAllStream(drafts: seq<Draft>, id: AggregateId)
    ensures Numbered(AppendAll([], drafts))
    ensures Stream(AppendAll([], drafts), id) == NumberedFromOne(OwnDrafts(drafts, id))
    decreases |drafts|
  {
    if drafts != [] {
      var init, last := drafts[..|drafts| - 1], drafts[|drafts| - 1];
      AppendAllStream(init, id);
      AppendKeepsNumbered(AppendAll([], init), last);
      AppendOneStream(AppendAll([], init), last, id);
    }
  }

  /** The stream of an aggregate is its own writers' drafts in their commit order,
      numbered from one: what other aggregates do cannot be seen in it. */
  lemma StreamDependsOnOwnWriters(hash: Hash, run: seq<Action>, id: AggregateId)
    requires Valid(hash, EMPTY, run)
    ensures Stream(Run(hash, EMPTY, run).rows, id)
         == NumberedFromOne(OwnDrafts(CommitOrder(hash, EMPTY, run), id))
  {
    RunRefinesSequentialLedger(hash, EMPTY, run);
    AppendAllStream(CommitOrder(hash, EMPTY, run), id);
  }
}
