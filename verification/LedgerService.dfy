/** `EventLedgerService`: the calls themselves, and the gap check over stored numbers. */
module LedgerService {
  import opened Ledger

  // ---- Gap detection over whatever the column holds --------------------------

  /** A stored sequence value as the gap check meets it. */
  datatype Cell = Absent | NotAnInteger | Whole(n: int)

  function PositiveWholes(cells: seq<Cell>): seq<int> {
    if cells == [] then []
    else
      var rest, last := PositiveWholes(cells[..|cells| - 1]), cells[|cells| - 1];
      if last.Whole? && last.n > 0 then rest + [last.n] else rest
  }

  lemma {:induction false} PositiveWholesAre(cells: seq<Cell>)
    ensures forall n :: n in PositiveWholes(cells) <==> n > 0 && Whole(n) in cells
    decreases |cells|
  {
    if cells != [] {
      var init, last := cells[..|cells| - 1], cells[|cells| - 1];
      PositiveWholesAre(init);
      assert cells == init + [last];
    }
  }

  method Highest(sequences: seq<int>) returns (highest: int)
    ensures sequences == [] ==> highest == 0
    ensures sequences != [] ==> highest in sequences && forall n :: n in sequences ==> n <= highest
  {
    highest := 0;
    var i := 0;
    while i < |sequences|
      invariant 0 <= i <= |sequences|
      invariant i == 0 ==> highest == 0
      invariant i > 0 ==> highest in sequences && forall k :: 0 <= k < i ==> sequences[k] <= highest
    {
      if i == 0 || sequences[i] > highest {
        highest := sequences[i];
      }
      i := i + 1;
    }
  }

  predicate StrictlyIncreasing(s: seq<int>) {
    forall i, j :: 0 <= i < j < |s| ==> s[i] < s[j]
  }

  /** The distinct positive whole numbers stored in the cells. */
  function Present(cells: seq<Cell>): set<int> {
    set n | n in PositiveWholes(cells)
  }

  /** What a correct gap report for the cells is: in increasing order, exactly the numbers
      from one to the highest stored positive number that are stored nowhere. */
  ghost predicate GapReport(cells: seq<Cell>, gaps: seq<int>) {
    exists highest ::
      && IsHighest(highest, Present(cells))
      && StrictlyIncreasing(gaps)
      && (forall n :: n in gaps <==> 1 <= n <= highest && Whole(n) !in cells)
      && |gaps| == highest - |Present(cells)|
  }

  ghost predicate IsHighest(highest: int, numbers: set<int>) {
    if numbers == {} then highest == 0
    else highest in numbers && forall n :: n in numbers ==> n <= highest
  }

  /** `detectGaps` on any rows: nulls, fractions, zero, negative numbers and duplicates
      included, in any order. */
  method FindGaps(cells: seq<Cell>) returns (gaps: seq<int>)
    ensures GapReport(cells, gaps)
  {
    var sequences := PositiveWholes(cells);
    PositiveWholesAre(cells);
    var highestSequence := Highest(sequences);
    var presentSequences := set n | n in sequences;
    assert sequences != [] ==> sequences[0] in presentSequences;
    gaps := [];
    var sequence := 1;
    assert (set n | n in presentSequences && n < 1) == {};
    while sequence <= highestSequence
      invariant 1 <= sequence <= highestSequence + 1
      invariant StrictlyIncreasing(gaps)
      invariant forall n :: n in gaps <==> 1 <= n < sequence && n !in presentSequences
      invariant |gaps| + |set n | n in presentSequences && n < sequence| == sequence - 1
    {
      BelowNext(presentSequences, sequence);
      if sequence !in presentSequences {
        assert forall k :: 0 <= k < |gaps| ==> gaps[k] in gaps;
        gaps := gaps + [sequence];
      }
      sequence := sequence + 1;
    }
    assert (set n | n in presentSequences && n < sequence) == presentSequences;
    assert IsHighest(highestSequence, Present(cells));
  }

  lemma BelowNext(present: set<int>, n: int)
    ensures |set m | m in present && m < n + 1|
         == |set m | m in present && m < n| + (if n in present then 1 else 0)
  {
    var below, next := set m | m in present && m < n, set m | m in present && m < n + 1;
    if n in present {
      assert next == below + {n};
    } else {
      assert next == below;
    }
  }

  // ---- The service ------------------------------------------------------------

  function Cells(rows: seq<Row>, id: AggregateId): seq<Cell> {
    var stream := Stream(rows, id);
    seq(|stream|, k requires 0 <= k < |stream| => Whole(stream[k].sequenceNumber))
  }

  /** Some row of the aggregate stores the number. */
  predicate Stored(rows: seq<Row>, id: AggregateId, n: int) {
    exists k :: 0 <= k < |rows| && rows[k].aggregateId == id && rows[k].sequenceNumber == n
  }

  /** Some row of the aggregate stores the number or a higher one. */
  predicate Reached(rows: seq<Row>, id: AggregateId, n: int) {
    exists k :: 0 <= k < |rows| && rows[k].aggregateId == id && rows[k].sequenceNumber >= n
  }

  lemma {:induction false} StreamHoldsItsRows(rows: seq<Row>, id: AggregateId)
    ensures forall row :: row in Stream(rows, id) <==> row in rows && row.aggregateId == id
    decreases |rows|
  {
    if rows != [] {
      StreamHoldsItsRows(rows[..|rows| - 1], id);
      assert rows == rows[..|rows| - 1] + [rows[|rows| - 1]];
    }
  }

  lemma CellsHoldWhatIsStored(rows: seq<Row>, id: AggregateId, n: int)
    ensures Whole(n) in Cells(rows, id) <==> Stored(rows, id, n)
  {
    StreamHoldsItsRows(rows, id);
    var stream := Stream(rows, id);
    if Whole(n) in Cells(rows, id) {
      var k :| 0 <= k < |stream| && Cells(rows, id)[k] == Whole(n);
      assert stream[k] in rows;
    }
    if Stored(rows, id, n) {
      var k :| 0 <= k < |rows| && rows[k].aggregateId == id && rows[k].sequenceNumber == n;
      assert rows[k] in stream;
      var j :| 0 <= j < |stream| && stream[j] == rows[k];
      assert Cells(rows, id)[j] == Whole(n);
    }
  }

  /** A correct report about an aggregate's cells holds exactly the numbers from one up that
      none of its rows stores although one of them stores a higher one. */
  lemma ReportOfRows(rows: seq<Row>, id: AggregateId, gaps: seq<int>)
    requires GapReport(Cells(rows, id), gaps)
    ensures StrictlyIncreasing(gaps)
    ensures forall n :: n in gaps <==> 1 <= n && Reached(rows, id, n) && !Stored(rows, id, n)
  {
    var cells := Cells(rows, id);
    var highest :| IsHighest(highest, Present(cells))
                && forall n :: n in gaps <==> 1 <= n <= highest && Whole(n) !in cells;
    PositiveWholesAre(cells);
    forall n ensures n in gaps <==> 1 <= n && Reached(rows, id, n) && !Stored(rows, id, n) {
      CellsHoldWhatIsStored(rows, id, n);
      if n >= 1 {
        ReachedExactlyWhen(rows, id, highest, n);
      }
    }
  }

  lemma ReachedExactlyWhen(rows: seq<Row>, id: AggregateId, highest: int, n: int)
    requires n >= 1 && IsHighest(highest, Present(Cells(rows, id)))
    ensures Reached(rows, id, n) <==> n <= highest
  {
    var cells := Cells(rows, id);
    PositiveWholesAre(cells);
    if Reached(rows, id, n) {
      var k :| 0 <= k < |rows| && rows[k].aggregateId == id && rows[k].sequenceNumber >= n;
      CellsHoldWhatIsStored(rows, id, rows[k].sequenceNumber);
      assert rows[k].sequenceNumber in Present(cells);
    }
    if n <= highest {
      CellsHoldWhatIsStored(rows, id, highest);
    }
  }

  class EventLedgerService {
    var rows: seq<Row>

    constructor ()
      ensures rows == []
    {
      rows := [];
    }

    /** One call with nothing else going on. */
    method AppendEvent(id: AggregateId, content: string) returns (event: Row)
      modifies this
      ensures rows == AppendAtomically(old(rows), Draft(id, content))
      ensures rows == old(rows) + [event]
    {
      var latestEvent := LatestSequence(rows, id);
      var sequenceNumber := latestEvent.GetOr(0) + 1;
      event := Row(id, content, sequenceNumber);
      rows := rows + [event];
    }

    method GetNextSequenceNumber(id: AggregateId) returns (next: int)
      ensures next == NextSequence(rows, id)
      ensures Numbered(rows) ==> next == |Stream(rows, id)| + 1
    {
      var latestEvent := LatestSequence(rows, id);
      next := latestEvent.GetOr(0) + 1;
      if Numbered(rows) {
        NumberedStream(rows, id);
      }
    }

    /** On any rows, the missing numbers below the highest stored one, in order. A ledger
        written only through this service has none. */
    method DetectGaps(id: AggregateId) returns (gaps: seq<int>)
      ensures GapReport(Cells(rows, id), gaps)
      ensures StrictlyIncreasing(gaps)
      ensures forall n :: n in gaps <==> 1 <= n && Reached(rows, id, n) && !Stored(rows, id, n)
      ensures Numbered(rows) ==> gaps == []
    {
      gaps := FindGaps(Cells(rows, id));
      ReportOfRows(rows, id, gaps);
      if Numbered(rows) {
        NumberedHasNoGaps(rows, id, gaps);
      }
    }
  }

  lemma NumberedHasNoGaps(rows: seq<Row>, id: AggregateId, gaps: seq<int>)
    requires Numbered(rows) && GapReport(Cells(rows, id), gaps)
    ensures gaps == []
  {
    assert gaps != [] ==> gaps[0] in gaps;
    NumberedStream(rows, id);
    var cells := Cells(rows, id);
    PositiveWholesAre(cells);
    var highest :| IsHighest(highest, Present(cells))
                && forall n :: n in gaps <==> 1 <= n <= highest && Whole(n) !in cells;
    assert highest == 0 || Whole(highest) in cells;
    forall n | 1 <= n <= highest ensures Whole(n) in cells {
      assert cells[n - 1] == Whole(n);
    }
  }

  /** After any interleaving of ledger transactions, the only correct gap report for any
      aggregate is the empty one. */
  lemma ReachableLedgerHasNoGaps(hash: Hash, run: seq<Action>, id: AggregateId, gaps: seq<int>)
    requires Valid(hash, EMPTY, run)
    requires GapReport(Cells(Run(hash, EMPTY, run).rows, id), gaps)
    ensures gaps == []
  {
    RunKeepsInv(hash, EMPTY, run);
    NumberedHasNoGaps(Run(hash, EMPTY, run).rows, id, gaps);
  }

  /** A single call is the shortest schedule: begin, lock, read, insert and commit from a
      state with no lock held leave the rows of the atomic append and no lock. */
  lemma CallIsASchedule(hash: Hash, s: System, id: AggregateId, content: string)
    requires hash(id) !in s.locks
    ensures var t := |s.transactions|;
            var run := [Begin(Append(content), id), Acquire(t), Fetch(t), Insert(t), Commit(t)];
            && Valid(hash, s, run)
            && Run(hash, s, run).rows == AppendAtomically(s.rows, Draft(id, content))
            && Run(hash, s, run).locks == s.locks
  {
    var t := |s.transactions|;
    var s1 := Step(hash, s, Begin(Append(content), id));
    var s2 := Step(hash, s1, Acquire(t));
    var s3 := Step(hash, s2, Fetch(t));
    var s4 := Step(hash, s3, Insert(t));
    var s5 := Step(hash, s4, Commit(t));
    PrependStep(hash, s4, Commit(t), []);
    PrependStep(hash, s3, Insert(t), [Commit(t)]);
    PrependStep(hash, s2, Fetch(t), [Insert(t), Commit(t)]);
    PrependStep(hash, s1, Acquire(t), [Fetch(t), Insert(t), Commit(t)]);
    PrependStep(hash, s, Begin(Append(content), id), [Acquire(t), Fetch(t), Insert(t), Commit(t)]);
    assert s5.locks == s.locks;
  }

  lemma PrependStep(hash: Hash, s: System, a: Action, rest: seq<Action>)
    requires Enabled(hash, s, a) && Valid(hash, Step(hash, s, a), rest)
    ensures Valid(hash, s, [a] + rest) && Run(hash, s, [a] + rest) == Run(hash, Step(hash, s, a), rest)
  {
    assert ([a] + rest)[1..] == rest;
  }
}
